/** SketchMesh (lib/src/sketch/mesh.cpp): a mesh that owns an optional sketch
    tree, compares by index, submits ray hits on its node spheres to an
    accumulator, and draws its nodes and edges through two reused proxy
    meshes. Each draw call of a proxy is recorded in a draw log with the
    proxy's position, scaling and colour at that moment; a cone record also
    holds the cone's rotation (render never sets the sphere proxy's rotation). */
module SketchMeshes {
  import opened Options
  import opened Geometry
  import opened SketchNodes
  import opened BubbleChain

  datatype Color = Rgba(r: real, g: real, b: real, a: real)

  /** The render settings: edge style and the two colours. */
  datatype RenderConfig = RenderConfig(renderWireframe: bool, nodeColor: Color, bubbleColor: Color)

  /** The configuration keys of the two colours. */
  const NodeColorKey: string := "editor/sketch/node/color"
  const BubbleColorKey: string := "editor/sketch/bubble/color"

  /** One render call of a proxy mesh: the node-sphere proxy (node spheres
      and bubbles) or the wireframe cone proxy. */
  datatype Draw =
    | SphereDraw(position: Vec3, scaling: Vec3, color: Color)
    | ConeDraw(position: Vec3, scaling: Vec3, rotation: Rotation, color: Color)

  /** The arguments of one update call on the accumulator. */
  datatype NodeHit = NodeHit(t: real, point: Vec3, normal: Normal, mesh: SketchMesh, node: Node)

  /** The bounding sphere of a node. */
  function NodeSphere(n: Node): Sphere {
    Sphere(n.position, n.radius)
  }

  // ---------------------------------------------------------------------
  // Ray query
  // ---------------------------------------------------------------------

  /** What the query submits for a node hit at parameter t. */
  function HitAt(n: Node, t: real, ray: Ray, mesh: SketchMesh): NodeHit {
    var p := ray.PointAt(t);
    NodeHit(t, p, Normalize(Sub(p, n.position)), mesh, n)
  }

  /** The updates submitted while the visits vs are walked in order. */
  function Hits(vs: seq<Visit>, ray: Ray, test: (Ray, Sphere) -> Option<real>, mesh: SketchMesh): seq<NodeHit> {
    if vs == [] then []
    else
      var n := vs[|vs| - 1].node;
      Hits(vs[..|vs| - 1], ray, test, mesh) +
      match test(ray, NodeSphere(n))
      case Some(t) => [HitAt(n, t, ray, mesh)]
      case None => []
  }

  /** The positions in vs of the nodes whose sphere the ray hits, ascending. */
  function HitIndices(vs: seq<Visit>, ray: Ray, test: (Ray, Sphere) -> Option<real>): seq<nat> {
    if vs == [] then []
    else
      HitIndices(vs[..|vs| - 1], ray, test) +
      if test(ray, NodeSphere(vs[|vs| - 1].node)).Some? then [|vs| - 1] else []
  }

  /** The updates of a whole tree, none without a root. */
  function TreeHits(root: Option<Node>, ray: Ray, test: (Ray, Sphere) -> Option<real>, mesh: SketchMesh): seq<NodeHit> {
    match root
    case None => []
    case Some(t) => Hits(PreOrder(t, None), ray, test, mesh)
  }

  /** The hit positions are ascending, in range, and each one is a hit. */
  lemma {:induction false} HitIndicesSound(vs: seq<Visit>, ray: Ray, test: (Ray, Sphere) -> Option<real>)
    ensures forall k, l :: 0 <= k < l < |HitIndices(vs, ray, test)| ==> HitIndices(vs, ray, test)[k] < HitIndices(vs, ray, test)[l]
    ensures forall k :: 0 <= k < |HitIndices(vs, ray, test)| ==> HitIndices(vs, ray, test)[k] < |vs|
    ensures forall k :: 0 <= k < |HitIndices(vs, ray, test)| ==> test(ray, NodeSphere(vs[HitIndices(vs, ray, test)[k]].node)).Some?
  {
    if vs != [] {
      var n := |vs| - 1;
      var init := vs[..n];
      HitIndicesSound(init, ray, test);
      var idx, idx0 := HitIndices(vs, ray, test), HitIndices(init, ray, test);
      assert forall i :: 0 <= i < n ==> vs[i] == init[i];
      if test(ray, NodeSphere(vs[n].node)).Some? {
        assert idx == idx0 + [n];
      } else {
        assert idx == idx0;
      }
    }
  }

  /** Every position whose node the ray hits is among the hit positions. */
  lemma {:induction false} HitIndicesComplete(vs: seq<Visit>, ray: Ray, test: (Ray, Sphere) -> Option<real>)
    ensures forall i :: 0 <= i < |vs| && test(ray, NodeSphere(vs[i].node)).Some? ==> i in HitIndices(vs, ray, test)
  {
    if vs != [] {
      var n := |vs| - 1;
      var init := vs[..n];
      HitIndicesComplete(init, ray, test);
      var idx, idx0 := HitIndices(vs, ray, test), HitIndices(init, ray, test);
      assert idx0 <= idx;
      forall i | 0 <= i < |vs| && test(ray, NodeSphere(vs[i].node)).Some?
        ensures i in idx
      {
        if i < n {
          assert vs[i] == init[i];
          assert i in idx0;
        } else {
          assert idx == idx0 + [n];
        }
      }
    }
  }

  /** The k-th update belongs to the node at the k-th hit position and
      carries its hit parameter, the point there, the normal and the mesh. */
  lemma {:induction false} HitsAtIndices(vs: seq<Visit>, ray: Ray, test: (Ray, Sphere) -> Option<real>, mesh: SketchMesh)
    ensures var hs, idx := Hits(vs, ray, test, mesh), HitIndices(vs, ray, test);
      && |hs| == |idx|
      && forall k :: 0 <= k < |idx| ==>
           && idx[k] < |vs|
           && test(ray, NodeSphere(vs[idx[k]].node)).Some?
           && hs[k] == HitAt(vs[idx[k]].node, test(ray, NodeSphere(vs[idx[k]].node)).value, ray, mesh)
  {
    if vs != [] {
      var n := |vs| - 1;
      var init := vs[..n];
      HitsAtIndices(init, ray, test, mesh);
      var hs, idx := Hits(vs, ray, test, mesh), HitIndices(vs, ray, test);
      var hs0, idx0 := Hits(init, ray, test, mesh), HitIndices(init, ray, test);
      assert forall k :: 0 <= k < |idx0| ==> vs[idx0[k]] == init[idx0[k]];
      match test(ray, NodeSphere(vs[n].node))
      case Some(t) =>
        assert hs == hs0 + [HitAt(vs[n].node, t, ray, mesh)] && idx == idx0 + [n];
      case None =>
        assert hs == hs0 && idx == idx0;
    }
  }

  /** One update per node whose sphere the ray hits, in traversal order: the
      k-th update belongs to the k-th hit node, carries that node's hit
      parameter, the point at that parameter, the normal there and the
      mesh; every hit node is among them, and there are none exactly when
      the ray misses every node. */
  lemma HitsInTraversalOrder(vs: seq<Visit>, ray: Ray, test: (Ray, Sphere) -> Option<real>, mesh: SketchMesh)
    ensures var hs, idx := Hits(vs, ray, test, mesh), HitIndices(vs, ray, test);
      && |hs| == |idx|
      && (forall k, l :: 0 <= k < l < |idx| ==> idx[k] < idx[l])
      && (forall k :: 0 <= k < |idx| ==>
            && idx[k] < |vs|
            && test(ray, NodeSphere(vs[idx[k]].node)).Some?
            && hs[k] == HitAt(vs[idx[k]].node, test(ray, NodeSphere(vs[idx[k]].node)).value, ray, mesh))
      && (forall i :: 0 <= i < |vs| && test(ray, NodeSphere(vs[i].node)).Some? ==> i in idx)
      && (hs == [] <==> forall i :: 0 <= i < |vs| ==> test(ray, NodeSphere(vs[i].node)).None?)
  {
    HitIndicesSound(vs, ray, test);
    HitIndicesComplete(vs, ray, test);
    HitsAtIndices(vs, ray, test, mesh);
    var idx := HitIndices(vs, ray, test);
    if idx != [] {
      assert test(ray, NodeSphere(vs[idx[0]].node)).Some?;
    }
  }

  // ---------------------------------------------------------------------
  // Rendering
  // ---------------------------------------------------------------------

  /** A visit the frame can draw: positive radii and, for an edge, a
      positive distance dist (the length glm::distance would give) between
      the node and its parent. */
  predicate VisitRenderable(v: Visit, dist: (Vec3, Vec3) -> real) {
    && 0.0 < v.node.radius
    && (v.parent.Some? ==>
          0.0 < v.parent.value.radius && 0.0 < dist(v.node.position, v.parent.value.position))
  }

  /** Every visit of the tree rooted at t can be drawn. */
  predicate Renderable(t: Node, dist: (Vec3, Vec3) -> real) {
    AllRenderable(PreOrder(t, None), dist)
  }

  /** The node's sphere: at its position, scaled by its radius, in the node colour. */
  function NodeDraw(n: Node, cfg: RenderConfig): Draw {
    SphereDraw(n.position, Splat(n.radius), cfg.nodeColor)
  }

  /** The unit direction from a node to its parent. */
  function Direction(pos: Vec3, parPos: Vec3, distance: real): Vec3
    requires distance != 0.0
  {
    Div(Sub(parPos, pos), distance)
  }

  /** The bubble at offset d along an edge. */
  function BubbleDraw(pos: Vec3, direction: Vec3, radius: real, parRadius: real, distance: real, color: Color, d: real): Draw
    requires 0.0 < distance
  {
    SphereDraw(Add(pos, Scale(d, direction)), Splat(BubbleRadius(radius, parRadius, distance, d)), color)
  }

  /** The bubbles at the offsets offs, in order. */
  function BubbleDraws(pos: Vec3, direction: Vec3, radius: real, parRadius: real, distance: real, color: Color, offs: seq<real>): seq<Draw>
    requires 0.0 < distance
  {
    seq(|offs|, k requires 0 <= k < |offs| => BubbleDraw(pos, direction, radius, parRadius, distance, color, offs[k]))
  }

  /** The bubbles the loop draws from offset d onwards: none once d reaches
      the parent, otherwise the bubble at d and those after it. */
  function ChainDraws(pos: Vec3, direction: Vec3, radius: real, parRadius: real, distance: real, color: Color, d: real): seq<Draw>
    requires ValidEdge(radius, parRadius, distance) && 0.0 <= d
    decreases StepsLeft(radius, parRadius, distance, d), 1
  {
    if d >= distance then [] else BubbleStep(pos, direction, radius, parRadius, distance, color, d)
  }

  /** The bubble at offset d < distance followed by the bubbles from the next offset. */
  function BubbleStep(pos: Vec3, direction: Vec3, radius: real, parRadius: real, distance: real, color: Color, d: real): seq<Draw>
    requires ValidEdge(radius, parRadius, distance) && 0.0 <= d < distance
    decreases StepsLeft(radius, parRadius, distance, d), 0
  {
    StepDecreases(radius, parRadius, distance, d);
    [BubbleDraw(pos, direction, radius, parRadius, distance, color, d)] +
    ChainDraws(pos, direction, radius, parRadius, distance, color, NextOffset(radius, parRadius, distance, d))
  }

  /** The bubbles drawn from d are those at the offsets of the chain from d. */
  lemma {:induction false} ChainDrawsAtOffsets(pos: Vec3, direction: Vec3, radius: real, parRadius: real, distance: real, color: Color, d: real)
    requires ValidEdge(radius, parRadius, distance) && 0.0 <= d
    ensures ChainDraws(pos, direction, radius, parRadius, distance, color, d) ==
      BubbleDraws(pos, direction, radius, parRadius, distance, color, Offsets(radius, parRadius, distance, d))
    decreases StepsLeft(radius, parRadius, distance, d)
  {
    if d < distance {
      StepDecreases(radius, parRadius, distance, d);
      var next := NextOffset(radius, parRadius, distance, d);
      ChainDrawsAtOffsets(pos, direction, radius, parRadius, distance, color, next);
      var offs := Offsets(radius, parRadius, distance, d);
      assert offs == [d] + Offsets(radius, parRadius, distance, next);
    }
  }

  /** The edge geometry of one visit: none at the root; otherwise one cone at
      the parent in wireframe mode, or the bubble chain. */
  function EdgeDraws(v: Visit, cfg: RenderConfig, dist: (Vec3, Vec3) -> real): seq<Draw>
    requires VisitRenderable(v, dist)
  {
    match v.parent
    case None => []
    case Some(p) =>
      var distance := dist(v.node.position, p.position);
      var direction := Direction(v.node.position, p.position, distance);
      if cfg.renderWireframe then
        [ConeDraw(p.position, Vec3(p.radius, distance, p.radius),
                  Orientation(direction, Vec3(0.0, -1.0, 0.0)), cfg.nodeColor)]
      else
        ChainDraws(v.node.position, direction, v.node.radius, p.radius, distance,
                   cfg.bubbleColor, v.node.radius * 0.5)
  }

  /** Everything drawn for one visited node. */
  function VisitDraws(v: Visit, cfg: RenderConfig, dist: (Vec3, Vec3) -> real): seq<Draw>
    requires VisitRenderable(v, dist)
  {
    [NodeDraw(v.node, cfg)] + EdgeDraws(v, cfg, dist)
  }

  /** The visits vs can all be drawn. */
  predicate AllRenderable(vs: seq<Visit>, dist: (Vec3, Vec3) -> real) {
    forall i :: 0 <= i < |vs| ==> VisitRenderable(vs[i], dist)
  }

  /** The blocks of a frame: what each visit draws, in visit order. */
  function Blocks(vs: seq<Visit>, cfg: RenderConfig, dist: (Vec3, Vec3) -> real): seq<seq<Draw>>
    requires AllRenderable(vs, dist)
  {
    seq(|vs|, i requires 0 <= i < |vs| => VisitDraws(vs[i], cfg, dist))
  }

  /** The blocks one after the other. */
  function Flatten<T>(xss: seq<seq<T>>): seq<T> {
    if xss == [] then [] else Flatten(xss[..|xss| - 1]) + xss[|xss| - 1]
  }

  /** Everything drawn for the visits vs, in order. */
  function FrameDraws(vs: seq<Visit>, cfg: RenderConfig, dist: (Vec3, Vec3) -> real): seq<Draw>
    requires AllRenderable(vs, dist)
  {
    Flatten(Blocks(vs, cfg, dist))
  }

  /** The frame of a mesh: nothing without a root. */
  function Frame(root: Option<Node>, cfg: RenderConfig, dist: (Vec3, Vec3) -> real): seq<Draw>
    requires root.Some? ==> Renderable(root.value, dist)
  {
    match root
    case None => []
    case Some(t) => FrameDraws(PreOrder(t, None), cfg, dist)
  }

  /** The number of cone draws. */
  function ConeCount(ds: seq<Draw>): nat {
    if ds == [] then 0
    else ConeCount(ds[..|ds| - 1]) + if ds[|ds| - 1].ConeDraw? then 1 else 0
  }

  /** The number of visits that have a parent, i.e. of edges. */
  function EdgeCount(vs: seq<Visit>): nat {
    if vs == [] then 0
    else EdgeCount(vs[..|vs| - 1]) + if vs[|vs| - 1].parent.Some? then 1 else 0
  }

  lemma {:induction false} ConeCountAppend(a: seq<Draw>, b: seq<Draw>)
    ensures ConeCount(a + b) == ConeCount(a) + ConeCount(b)
    decreases |b|
  {
    if b != [] {
      var b0 := b[..|b| - 1];
      assert (a + b)[..|a + b| - 1] == a + b0;
      assert (a + b)[|a + b| - 1] == b[|b| - 1];
      ConeCountAppend(a, b0);
      assert ConeCount(a + b) == ConeCount(a + b0) + if b[|b| - 1].ConeDraw? then 1 else 0;
      assert ConeCount(b) == ConeCount(b0) + if b[|b| - 1].ConeDraw? then 1 else 0;
    } else {
      assert a + b == a;
    }
  }

  lemma {:induction false} FlattenAppend<T>(a: seq<seq<T>>, b: seq<seq<T>>)
    ensures Flatten(a + b) == Flatten(a) + Flatten(b)
    decreases |b|
  {
    if b != [] {
      var b0 := b[..|b| - 1];
      assert (a + b)[..|a + b| - 1] == a + b0;
      assert (a + b)[|a + b| - 1] == b[|b| - 1];
      FlattenAppend(a, b0);
    } else {
      assert a + b == a;
    }
  }

  /** The blocks of consecutive runs of visits are consecutive. */
  lemma BlocksSplit(vs: seq<Visit>, cfg: RenderConfig, dist: (Vec3, Vec3) -> real, i: nat)
    requires AllRenderable(vs, dist) && i <= |vs|
    ensures AllRenderable(vs[..i], dist) && AllRenderable(vs[i..], dist)
    ensures Blocks(vs, cfg, dist) == Blocks(vs[..i], cfg, dist) + Blocks(vs[i..], cfg, dist)
  {
  }

  /** Drawing one more visit appends its block to the frame. */
  lemma FrameDrawsStep(vs: seq<Visit>, cfg: RenderConfig, dist: (Vec3, Vec3) -> real, i: nat)
    requires AllRenderable(vs, dist) && i < |vs|
    ensures AllRenderable(vs[..i], dist) && AllRenderable(vs[..i + 1], dist)
    ensures FrameDraws(vs[..i + 1], cfg, dist) == FrameDraws(vs[..i], cfg, dist) + VisitDraws(vs[i], cfg, dist)
  {
    BlocksSplit(vs[..i + 1], cfg, dist, i);
    assert vs[..i + 1][..i] == vs[..i];
    FlattenAppend(Blocks(vs[..i], cfg, dist), Blocks(vs[i..i + 1], cfg, dist));
    assert Blocks(vs[i..i + 1], cfg, dist) == [VisitDraws(vs[i], cfg, dist)];
  }

  /** Each visit's draws form one contiguous block of the frame, in
      traversal order, and the block opens with that node's sphere. */
  lemma NodeSpherePerVisit(vs: seq<Visit>, cfg: RenderConfig, dist: (Vec3, Vec3) -> real, i: nat)
    requires AllRenderable(vs, dist)
    requires i < |vs|
    ensures AllRenderable(vs[..i], dist) && AllRenderable(vs[i + 1..], dist)
    ensures FrameDraws(vs, cfg, dist) ==
      FrameDraws(vs[..i], cfg, dist) + VisitDraws(vs[i], cfg, dist) + FrameDraws(vs[i + 1..], cfg, dist)
    ensures FrameDraws(vs, cfg, dist)[|FrameDraws(vs[..i], cfg, dist)|] == NodeDraw(vs[i].node, cfg)
  {
    BlocksSplit(vs, cfg, dist, i + 1);
    FlattenAppend(Blocks(vs[..i + 1], cfg, dist), Blocks(vs[i + 1..], cfg, dist));
    FrameDrawsStep(vs, cfg, dist, i);
  }

  /** A bubble chain holds no cone. */
  lemma {:induction false} NoConeInBubbles(pos: Vec3, direction: Vec3, radius: real, parRadius: real, distance: real, color: Color, offs: seq<real>)
    requires 0.0 < distance
    ensures ConeCount(BubbleDraws(pos, direction, radius, parRadius, distance, color, offs)) == 0
    decreases |offs|
  {
    if offs != [] {
      var init := offs[..|offs| - 1];
      NoConeInBubbles(pos, direction, radius, parRadius, distance, color, init);
      var ds := BubbleDraws(pos, direction, radius, parRadius, distance, color, offs);
      assert ds[..|ds| - 1] == BubbleDraws(pos, direction, radius, parRadius, distance, color, init);
    }
  }

  /** The cones of one visit: one per edge in wireframe mode, none in
      bubble mode; in wireframe mode an edge is that cone alone. */
  lemma VisitCones(v: Visit, cfg: RenderConfig, dist: (Vec3, Vec3) -> real)
    requires VisitRenderable(v, dist)
    ensures ConeCount(VisitDraws(v, cfg, dist)) == if cfg.renderWireframe && v.parent.Some? then 1 else 0
    ensures cfg.renderWireframe ==> |VisitDraws(v, cfg, dist)| == if v.parent.Some? then 2 else 1
  {
    ConeCountAppend([NodeDraw(v.node, cfg)], EdgeDraws(v, cfg, dist));
    assert ConeCount([NodeDraw(v.node, cfg)]) == 0 by {
      assert [NodeDraw(v.node, cfg)][..0] == [];
    }
    if v.parent.Some? {
      var p := v.parent.value;
      var distance := dist(v.node.position, p.position);
      if cfg.renderWireframe {
        var edge := EdgeDraws(v, cfg, dist);
        assert edge[..0] == [];
      } else {
        var direction := Direction(v.node.position, p.position, distance);
        ChainDrawsAtOffsets(v.node.position, direction, v.node.radius, p.radius, distance, cfg.bubbleColor, v.node.radius * 0.5);
        NoConeInBubbles(v.node.position, direction,
          v.node.radius, p.radius, distance, cfg.bubbleColor, Chain(v.node.radius, p.radius, distance));
      }
    }
  }

  /** Draw counts: in wireframe mode one sphere per visit and one cone per
      edge; in bubble mode no cone at all. */
  lemma {:induction false} FrameCounts(vs: seq<Visit>, cfg: RenderConfig, dist: (Vec3, Vec3) -> real)
    requires AllRenderable(vs, dist)
    ensures cfg.renderWireframe ==>
      |FrameDraws(vs, cfg, dist)| == |vs| + EdgeCount(vs) && ConeCount(FrameDraws(vs, cfg, dist)) == EdgeCount(vs)
    ensures !cfg.renderWireframe ==> ConeCount(FrameDraws(vs, cfg, dist)) == 0
    decreases |vs|
  {
    if vs != [] {
      var n := |vs| - 1;
      FrameDrawsStep(vs, cfg, dist, n);
      assert vs[..n + 1] == vs;
      FrameCounts(vs[..n], cfg, dist);
      ConeCountAppend(FrameDraws(vs[..n], cfg, dist), VisitDraws(vs[n], cfg, dist));
      VisitCones(vs[n], cfg, dist);
    }
  }

  /** In a traversal from a root every visit but the first is an edge. */
  lemma {:induction false} EdgeCountOfTraversal(vs: seq<Visit>)
    requires forall i :: 0 <= i < |vs| ==> (vs[i].parent.None? <==> i == 0)
    ensures EdgeCount(vs) == if vs == [] then 0 else |vs| - 1
    decreases |vs|
  {
    if vs != [] {
      var init := vs[..|vs| - 1];
      assert forall i :: 0 <= i < |init| ==> init[i] == vs[i];
      EdgeCountOfTraversal(init);
    }
  }

  /** The frame of a whole tree: it opens with the root's sphere and the root
      draws nothing else; in wireframe mode it holds one sphere per node and
      one cone per non-root node; in bubble mode it holds no cone. */
  lemma TreeFrameShape(t: Node, cfg: RenderConfig, dist: (Vec3, Vec3) -> real)
    requires Renderable(t, dist)
    ensures var frame := Frame(Some(t), cfg, dist);
      && VisitDraws(PreOrder(t, None)[0], cfg, dist) == [NodeDraw(t, cfg)]
      && frame[0] == NodeDraw(t, cfg)
      && (cfg.renderWireframe ==> |frame| == 2 * Size(t) - 1 && ConeCount(frame) == Size(t) - 1)
      && (!cfg.renderWireframe ==> ConeCount(frame) == 0)
  {
    var vs := PreOrder(t, None);
    PreOrderSize(t, None);
    RootIsOnlyOrphan(t);
    PreOrderParents(t, None);
    NodeSpherePerVisit(vs, cfg, dist, 0);
    EdgeCountOfTraversal(vs);
    FrameCounts(vs, cfg, dist);
  }

  /** In wireframe mode an edge is one cone and no bubble: placed at the
      parent, scaled by the parent's radius across and by the edge length
      along, turned towards the parent, in the node colour. */
  lemma WireframeEdge(v: Visit, cfg: RenderConfig, dist: (Vec3, Vec3) -> real)
    requires VisitRenderable(v, dist) && v.parent.Some? && cfg.renderWireframe
    ensures var p, edge := v.parent.value, EdgeDraws(v, cfg, dist);
      var distance := dist(v.node.position, p.position);
      && |edge| == 1
      && edge[0].ConeDraw?
      && edge[0].position == p.position
      && edge[0].scaling == Vec3(p.radius, distance, p.radius)
      && edge[0].rotation == Orientation(Direction(v.node.position, p.position, distance), Vec3(0.0, -1.0, 0.0))
      && edge[0].color == cfg.nodeColor
  {
  }

  /** The bubble chain of one edge: its i-th bubble is centred i-th offset
      along the direction to the parent, with that offset in
      [radius / 2, distance), scaled by a radius between the child's and the
      parent's, in the bubble colour; none when radius / 2 >= distance. */
  lemma BubbleEdge(v: Visit, cfg: RenderConfig, dist: (Vec3, Vec3) -> real)
    requires VisitRenderable(v, dist) && v.parent.Some? && !cfg.renderWireframe
    ensures var r, pr := v.node.radius, v.parent.value.radius;
      var pos, distance := v.node.position, dist(v.node.position, v.parent.value.position);
      var offs, edge := Chain(r, pr, distance), EdgeDraws(v, cfg, dist);
      && |edge| == |offs|
      && (edge == [] <==> distance <= r * 0.5)
      && forall k :: 0 <= k < |edge| ==>
           && edge[k].SphereDraw?
           && edge[k].color == cfg.bubbleColor
           && edge[k].position == Add(pos, Scale(offs[k], Direction(pos, v.parent.value.position, distance)))
           && edge[k].scaling == Splat(BubbleRadius(r, pr, distance, offs[k]))
           && r * 0.5 <= offs[k] < distance
           && Min(r, pr) <= BubbleRadius(r, pr, distance, offs[k]) <= Max(r, pr)
  {
    var p := v.parent.value;
    var distance := dist(v.node.position, p.position);
    ChainDrawsAtOffsets(v.node.position, Direction(v.node.position, p.position, distance),
      v.node.radius, p.radius, distance, cfg.bubbleColor, v.node.radius * 0.5);
    ChainBounds(v.node.radius, p.radius, distance);
  }

  // ---------------------------------------------------------------------
  // The accumulator and the mesh
  // ---------------------------------------------------------------------

  /** A SketchNodeIntersection, seen through its update calls: the log of
      every update it received and whether it holds a hit. */
  class SketchNodeIntersection {
    var updates: seq<NodeHit>
    var isIntersection: bool

    constructor ()
      ensures updates == [] && !isIntersection
    {
      updates := [];
      isIntersection := false;
    }

    /** Submit a candidate hit; afterwards the accumulator holds a hit. */
    method Update(t: real, point: Vec3, normal: Normal, mesh: SketchMesh, node: Node)
      modifies this
      ensures updates == old(updates) + [NodeHit(t, point, normal, mesh, node)]
      ensures isIntersection
    {
      updates := updates + [NodeHit(t, point, normal, mesh, node)];
      isIntersection := true;
    }
  }

  class SketchMesh {
    const index: nat
    var root: Option<Node>
    var renderConfig: RenderConfig
    var drawLog: seq<Draw>

    constructor (i: nat)
      ensures index == i && root == None && !renderConfig.renderWireframe && drawLog == []
    {
      index := i;
      root := None;
      var nodeColor: Color := *;
      var bubbleColor: Color := *;
      renderConfig := RenderConfig(false, nodeColor, bubbleColor);
      drawLog := [];
    }

    /** operator==: meshes are equal when their indices are; this reads no
        mutable state, so the trees play no part. */
    predicate Equals(other: SketchMesh) {
      index == other.index
    }

    /** operator!= */
    predicate NotEquals(other: SketchMesh) {
      !Equals(other)
    }

    predicate HasRoot()
      reads this
    {
      root.Some?
    }

    /** root (): only defined when there is a root. */
    function Root(): (t: Node)
      reads this
      requires HasRoot()
      ensures root == Some(t)
    {
      root.value
    }

    /** fromTree: install a copy of the tree; only on a mesh without root. */
    method FromTree(tree: Node)
      requires !HasRoot()
      modifies this`root
      ensures HasRoot() && Root() == tree
    {
      root := Some(tree);
    }

    /** reset: drop the tree. */
    method Reset()
      modifies this`root
      ensures !HasRoot()
    {
      root := None;
    }

    /** intersects: submit every node whose sphere the ray hits (test gives
        the hit parameter) and report whether the accumulator holds a hit. */
    method Intersects(ray: Ray, intersection: SketchNodeIntersection, test: (Ray, Sphere) -> Option<real>)
      returns (result: bool)
      modifies intersection
      ensures intersection.updates == old(intersection.updates) + TreeHits(root, ray, test, this)
      ensures result == intersection.isIntersection
      ensures result == (old(intersection.isIntersection) || TreeHits(root, ray, test, this) != [])
    {
      if HasRoot() {
        var visits := PreOrder(root.value, None);
        var i := 0;
        while i < |visits|
          invariant 0 <= i <= |visits|
          invariant intersection.updates == old(intersection.updates) + Hits(visits[..i], ray, test, this)
          invariant intersection.isIntersection ==
            (old(intersection.isIntersection) || Hits(visits[..i], ray, test, this) != [])
        {
          var node := visits[i].node;
          var hit := test(ray, NodeSphere(node));
          if hit.Some? {
            var t := hit.value;
            var p := ray.PointAt(t);
            intersection.Update(t, p, Normalize(Sub(p, node.position)), this, node);
          }
          assert visits[..i + 1][..i] == visits[..i];
          i := i + 1;
        }
        assert visits[..i] == visits;
      }
      result := intersection.isIntersection;
    }

    /** render: draw every node's sphere and every edge, as a cone in
        wireframe mode or as a bubble chain otherwise. */
    method Render(dist: (Vec3, Vec3) -> real)
      requires root.Some? ==> Renderable(root.value, dist)
      modifies this`drawLog
      ensures drawLog == old(drawLog) + Frame(root, renderConfig, dist)
    {
      if HasRoot() {
        RenderVisits(PreOrder(root.value, None), dist);
      }
    }

    /** The walk of render over the visits of the tree, in order. */
    method RenderVisits(visits: seq<Visit>, dist: (Vec3, Vec3) -> real)
      requires AllRenderable(visits, dist)
      modifies this`drawLog
      ensures drawLog == old(drawLog) + FrameDraws(visits, renderConfig, dist)
    {
      ghost var cfg := renderConfig;
      var i := 0;
      while i < |visits|
        invariant 0 <= i <= |visits|
        invariant renderConfig == cfg
        invariant drawLog == old(drawLog) + FrameDraws(visits[..i], cfg, dist)
      {
        RenderNode(visits[i], dist);
        FrameDrawsStep(visits, cfg, dist, i);
        i := i + 1;
      }
      assert visits[..i] == visits;
    }

    /** The traversal callback of render: the node's sphere, then its edge. */
    method RenderNode(v: Visit, dist: (Vec3, Vec3) -> real)
      requires VisitRenderable(v, dist)
      modifies this`drawLog
      ensures drawLog == old(drawLog) + VisitDraws(v, renderConfig, dist)
    {
      var pos, radius := v.node.position, v.node.radius;
      drawLog := drawLog + [SphereDraw(pos, Splat(radius), renderConfig.nodeColor)];
      if v.parent.Some? {
        var parPos, parRadius := v.parent.value.position, v.parent.value.radius;
        var distance := dist(pos, parPos);
        var direction := Div(Sub(parPos, pos), distance);
        if renderConfig.renderWireframe {
          var rotation := Orientation(direction, Vec3(0.0, -1.0, 0.0));
          drawLog := drawLog + [ConeDraw(parPos, Vec3(parRadius, distance, parRadius), rotation, renderConfig.nodeColor)];
        } else {
          RenderBubbles(pos, direction, radius, parRadius, distance);
        }
      }
    }

    /** The bubble loop of one edge. */
    method RenderBubbles(pos: Vec3, direction: Vec3, radius: real, parRadius: real, distance: real)
      requires ValidEdge(radius, parRadius, distance)
      modifies this`drawLog
      ensures drawLog == old(drawLog) +
        ChainDraws(pos, direction, radius, parRadius, distance, renderConfig.bubbleColor, radius * 0.5)
    {
      var d := radius * 0.5;
      while d < distance
        invariant 0.0 <= d
        invariant drawLog + ChainDraws(pos, direction, radius, parRadius, distance, renderConfig.bubbleColor, d) ==
          old(drawLog) + ChainDraws(pos, direction, radius, parRadius, distance, renderConfig.bubbleColor, radius * 0.5)
        decreases StepsLeft(radius, parRadius, distance, d)
      {
        var bubblePos := Add(pos, Scale(d, direction));
        var bubbleRadius := Lerp(d / distance, radius, parRadius);
        drawLog := drawLog + [SphereDraw(bubblePos, Splat(bubbleRadius), renderConfig.bubbleColor)];
        StepDecreases(radius, parRadius, distance, d);
        d := d + bubbleRadius * 0.5;
      }
    }

    /** renderWireframe (v): choose the edge style. */
    method RenderWireframe(v: bool)
      modifies this`renderConfig
      ensures renderConfig == old(renderConfig).(renderWireframe := v)
    {
      renderConfig := renderConfig.(renderWireframe := v);
    }

    /** runFromConfig: read the two colours, and nothing else, from the
        keyed configuration. */
    method RunFromConfig(config: string -> Color)
      modifies this`renderConfig
      ensures renderConfig == old(renderConfig).(nodeColor := config(NodeColorKey), bubbleColor := config(BubbleColorKey))
    {
      renderConfig := renderConfig.(nodeColor := config(NodeColorKey));
      renderConfig := renderConfig.(bubbleColor := config(BubbleColorKey));
    }
  }

  /** Mesh equality is an equivalence on indices, and != is its negation. */
  lemma EqualityByIndex(a: SketchMesh, b: SketchMesh, c: SketchMesh)
    ensures a.Equals(b) <==> a.index == b.index
    ensures a.Equals(a) && (a.Equals(b) <==> b.Equals(a))
    ensures a.Equals(b) && b.Equals(c) ==> a.Equals(c)
    ensures a.NotEquals(b) <==> !a.Equals(b)
  {
  }

  /** A root exists only between fromTree and reset. */
  method RootLifecycle(i: nat, tree: Node) returns (before: bool, during: bool, after: bool)
    ensures !before && during && !after
  {
    var mesh := new SketchMesh(i);
    before := mesh.HasRoot();
    mesh.FromTree(tree);
    during := mesh.HasRoot();
    mesh.Reset();
    after := mesh.HasRoot();
  }

  /** After reset, a query on any ray submits nothing and finds nothing. */
  method QueryAfterReset(i: nat, tree: Node, ray: Ray, test: (Ray, Sphere) -> Option<real>)
    returns (found: bool, submitted: nat)
    ensures !found && submitted == 0
  {
    var mesh := new SketchMesh(i);
    mesh.FromTree(tree);
    mesh.Reset();
    var intersection := new SketchNodeIntersection();
    found := mesh.Intersects(ray, intersection, test);
    submitted := |intersection.updates|;
  }

  /** Two meshes with the same index compare equal even when only one of them
      holds a tree. */
  method EqualityIgnoresTree(i: nat, tree: Node) returns (equal: bool, notEqual: bool)
    ensures equal && !notEqual
  {
    var a := new SketchMesh(i);
    var b := new SketchMesh(i);
    a.FromTree(tree);
    equal := a.Equals(b);
    notEqual := a.NotEquals(b);
  }
}
