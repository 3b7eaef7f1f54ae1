# Sketch mesh of Dilay, modelled in Dafny

Dilay's sketch mesh (`SketchMesh`, lib/src/sketch/mesh.cpp) is a mesh that
owns an optional tree of sketch nodes. Each node has a position, a radius and
children. The mesh is identified by an index. It answers ray queries by
handing every node whose bounding sphere the ray hits to a caller-supplied
`SketchNodeIntersection` accumulator. It renders the tree through two reused
proxy meshes: a sphere for every node, and for every edge either a single cone
(wireframe mode) or a chain of "bubbles". The bubbles are spheres that grow
or shrink from the child's radius to the parent's. They are placed by a
floating-point loop that starts at half the child's radius and advances by
half the current bubble radius until it reaches the parent.

The project has five modules:

- `Options` (option.dfy): the `Option` datatype.
- `Geometry` (geometry.dfy): vectors, rays and spheres over reals. Also a
  symbolic `Normalize(v)` for `glm::normalize`, a symbolic
  `Orientation(direction, up)` for `glm::orientation`, and `Lerp`
  (`Util::lerp`, taken as `a + t * (b - a)`).
- `SketchNodes` (sketch_node.dfy): the node tree as a datatype. Traversal
  with `forEachNode` / `forEachConstNode` is a pre-order list of visits; each
  visit pairs a node with its parent, if any. Lemmas prove that the list
  has one visit per node, visits exactly the tree's nodes, and that only
  the root lacks a parent.
- `BubbleChain` (bubble_chain.dfy): the offsets the bubble loop visits along
  one edge, as a function. Lemmas cover termination over the reals, bounds,
  monotonicity, and the closed form when both radii are equal.
- `SketchMeshes` (sketch_mesh.dfy): the two classes. `SketchMesh` has the
  index, the optional root, the render configuration and a draw log.
  `SketchNodeIntersection` logs the updates it receives.

`render` is modelled as a method that appends one draw record per render
call of a proxy mesh. A sphere record holds the sphere proxy's position,
scaling and colour at the moment of the call; a cone record also holds the
cone proxy's rotation. `render` never sets the sphere proxy's rotation, so
sphere records carry none. The draw log therefore
stands in for the proxy meshes' mutable state. `Render` walks the visits in
a loop, and the bubble chain is a `while` loop over a real offset `d`.
Each method is proved to append exactly the specification function's frame
(`Frame`, `VisitDraws`, `ChainDraws`). Lemmas then state the frame's
properties: sphere and cone counts, the cone's placement, and the bubbles'
offsets, radii and colour. `intersects` is a loop over the visits. It is
proved to submit exactly `TreeHits`, the hits in traversal order.
`HitsInTraversalOrder` pins those hits down.

Every bubble that is drawn has its offset strictly below the edge length.
Only the last, undrawn increment can pass the parent's centre
(`BubbleEdge`, `OffsetsSteps`).

## Model

| member | source | states |
|---|---|---|
| Geometry.LerpBetween | lib/src/sketch/mesh.cpp:131 | for 0 <= t <= 1 the interpolated value lies between the two end values |
| SketchNodes.PreOrderSize | lib/src/sketch/mesh.cpp:87 | a traversal makes one visit per node of the tree |
| SketchNodes.PreOrderCovers | lib/src/sketch/mesh.cpp:87 | a node is visited if and only if it belongs to the tree |
| SketchNodes.PreOrderParents | lib/src/sketch/mesh.cpp:110-112 | the first visit is the subtree root with its given parent; every later visit's parent is a node that has the visited node among its children |
| SketchNodes.RootIsOnlyOrphan | lib/src/sketch/mesh.cpp:110 | in a traversal from the root, a visit has no parent exactly when it is the first one, so only the root gets no edge geometry |
| BubbleChain.BubbleRadiusBetween | lib/src/sketch/mesh.cpp:131 | a bubble at offset 0 <= d < distance has a radius between the child's and the parent's radius |
| BubbleChain.StepDecreases | lib/src/sketch/mesh.cpp:129-138 | each pass of the loop advances d by at least half the smaller radius, so the remaining step count strictly falls and the loop over reals terminates |
| BubbleChain.OffsetsInRange | lib/src/sketch/mesh.cpp:129-130 | every visited offset is at least the start and strictly below the edge length |
| BubbleChain.OffsetsSteps | lib/src/sketch/mesh.cpp:129-138 | the chain is empty exactly when the start is already at or past the edge length; it begins at the start; each offset is the previous one plus half its bubble radius; the step after the last offset reaches the edge length |
| BubbleChain.OffsetsIncrease | lib/src/sketch/mesh.cpp:137 | consecutive offsets increase by at least half the smaller radius |
| BubbleChain.ChainBounds | lib/src/sketch/mesh.cpp:127-138 | the chain of an edge is empty exactly when radius / 2 >= distance; each offset lies in [radius / 2, distance) and its bubble radius lies between the two radii |
| BubbleChain.EqualRadiiStep | lib/src/sketch/mesh.cpp:131-137 | with equal radii each step is exactly half the radius |
| BubbleChain.EqualRadiiOffsets | lib/src/sketch/mesh.cpp:129-137 | with equal radii the k-th offset is the start plus k half-radii |
| BubbleChain.EqualRadiiCount | lib/src/sketch/mesh.cpp:129-138 | with equal radii the number of bubbles is the least n with start + n * radius / 2 >= distance |
| SketchMeshes.HitIndicesSound | lib/src/sketch/mesh.cpp:87-89 | the recorded hit positions ascend, lie in the traversal, and each one is a node whose sphere the ray hits |
| SketchMeshes.HitIndicesComplete | lib/src/sketch/mesh.cpp:87-89 | every node whose sphere the ray hits is among the recorded hit positions |
| SketchMeshes.HitsAtIndices | lib/src/sketch/mesh.cpp:89-92 | the k-th update carries the k-th hit node, its hit parameter t, the ray point at t, the normal from the node centre to that point, and the mesh itself |
| SketchMeshes.HitsInTraversalOrder | lib/src/sketch/mesh.cpp:85-97 | one update per hit node, in traversal order, with exactly those arguments; none exactly when the ray misses every node |
| SketchMeshes.ChainDrawsAtOffsets | lib/src/sketch/mesh.cpp:129-138 | the bubbles the loop draws from offset d are the bubbles at the chain's offsets from d, in order |
| SketchMeshes.FrameDrawsStep | lib/src/sketch/mesh.cpp:100-101 | drawing one more visit appends exactly that visit's draws to the frame |
| SketchMeshes.NodeSpherePerVisit | lib/src/sketch/mesh.cpp:101-108 | each visit's draws form one contiguous block of the frame, in traversal order, and the block opens with that node's sphere at its position, scaled by its radius, in the node colour |
| SketchMeshes.NoConeInBubbles | lib/src/sketch/mesh.cpp:126-138 | a bubble chain contains no cone |
| SketchMeshes.VisitCones | lib/src/sketch/mesh.cpp:101-140 | one visit draws one cone if it is an edge in wireframe mode and none otherwise; in wireframe mode it draws two records for an edge and one for the root |
| SketchMeshes.FrameCounts | lib/src/sketch/mesh.cpp:100-141 | in wireframe mode the frame holds one sphere per visit plus one cone per edge; in bubble mode it holds no cone |
| SketchMeshes.EdgeCountOfTraversal | lib/src/sketch/mesh.cpp:110 | a traversal in which only the first visit lacks a parent has one edge per visit but the first |
| SketchMeshes.TreeFrameShape | lib/src/sketch/mesh.cpp:99-143 | the frame of a tree opens with the root's sphere and the root draws nothing else; in wireframe mode it has 2 * size - 1 records, of which size - 1 are cones; in bubble mode there are no cones |
| SketchMeshes.WireframeEdge | lib/src/sketch/mesh.cpp:116-125 | in wireframe mode an edge is one cone at the parent, scaled (parRadius, distance, parRadius), oriented from the direction to the parent with up (0, -1, 0), in the node colour |
| SketchMeshes.BubbleEdge | lib/src/sketch/mesh.cpp:126-138 | in bubble mode an edge is one sphere per chain offset: centred at pos + d * direction, scaled by the interpolated radius, which lies between the two radii, in the bubble colour, with radius / 2 <= d < distance; there are none exactly when radius / 2 >= distance |
| SketchMeshes.SketchNodeIntersection.constructor | lib/src/sketch/mesh.cpp:85 | a fresh accumulator has received no update and holds no hit |
| SketchMeshes.SketchNodeIntersection.Update | lib/src/sketch/mesh.cpp:91-92 | an update is logged with its arguments, and the accumulator then holds a hit |
| SketchMeshes.SketchMesh.constructor | lib/src/sketch/mesh.cpp:17-43 | a new mesh has the given index, no root, wireframe off and nothing drawn |
| SketchMeshes.SketchMesh.Root | lib/src/sketch/mesh.cpp:66-74 | root () requires a root and returns the owned tree |
| SketchMeshes.SketchMesh.FromTree | lib/src/sketch/mesh.cpp:76-79 | requires no root; afterwards the mesh has a root and it is the given tree |
| SketchMeshes.SketchMesh.Reset | lib/src/sketch/mesh.cpp:81-83 | afterwards the mesh has no root |
| SketchMeshes.SketchMesh.Intersects | lib/src/sketch/mesh.cpp:85-97 | the accumulator receives exactly the tree's hits in traversal order, none without a root; the result is the accumulator's flag, which is its previous flag or whether any hit was submitted |
| SketchMeshes.SketchMesh.Render | lib/src/sketch/mesh.cpp:99-143 | the draw log grows by exactly the frame of the tree, and by nothing without a root |
| SketchMeshes.SketchMesh.RenderVisits | lib/src/sketch/mesh.cpp:100-101 | walking the visits appends each visit's draws in order |
| SketchMeshes.SketchMesh.RenderNode | lib/src/sketch/mesh.cpp:101-140 | one traversal callback appends the node's sphere and then its edge geometry |
| SketchMeshes.SketchMesh.RenderBubbles | lib/src/sketch/mesh.cpp:127-138 | the bubble loop terminates and appends exactly the bubbles of the chain from radius / 2 |
| SketchMeshes.SketchMesh.RenderWireframe | lib/src/sketch/mesh.cpp:145-147 | sets the edge style and leaves the colours unchanged |
| SketchMeshes.SketchMesh.RunFromConfig | lib/src/sketch/mesh.cpp:149-152 | sets the node and bubble colours from the two configuration keys and leaves the edge style unchanged |
| SketchMeshes.EqualityByIndex | lib/src/sketch/mesh.cpp:54-60 | meshes are equal exactly when their indices are; equality is reflexive, symmetric and transitive; != is its negation |
| SketchMeshes.RootLifecycle | lib/src/sketch/mesh.cpp:62-83 | a new mesh has no root, has one after fromTree, and has none after reset |
| SketchMeshes.QueryAfterReset | lib/src/sketch/mesh.cpp:81-97 | after reset a query submits no update and reports no hit on a fresh accumulator |
| SketchMeshes.EqualityIgnoresTree | lib/src/sketch/mesh.cpp:54-60 | two meshes with the same index compare equal even when only one of them holds a tree |

## Left out

- The `Impl` constructor's proxy-mesh construction (`MeshUtil::icosphere`, `MeshUtil::cone`, `bufferData`, flat shading, `normalize`) calls mesh utilities that are not part of this model. The proxies appear only through the draw records.
- `Camera` and the GPU side of `Mesh::render` are left out. A render call is a record in the draw log.
- Float rounding: all arithmetic is on reals. `glm::distance` is the parameter `dist`. `glm::normalize` and `glm::orientation` are symbolic values.
- `IntersectionUtil::intersects` is not part of this model. It is the parameter `test`, which gives the hit parameter or nothing.
- The accumulator's own choice among hits (for example keeping the nearest) and its stored fields are not part of this model. `SketchNodeIntersection` only logs each update and records that it holds a hit.
- `Config::get` is the parameter `config`, a function from key to colour. Missing keys and value parsing are not part of this model.
- The default colours of the render configuration are left unspecified, because the `Color` default constructor is not part of this model.
- The `DELEGATE*` and `GETTER_CONST` forwarding macros (lib/src/sketch/mesh.cpp:155-167) are left out. Members are modelled on the mesh itself.
- The two `root ()` overloads (mutable and const) are one function. The model has no references: a hit carries the node's value (its subtree), not a reference to it.
- `SketchNode` and its traversals `forEachNode` / `forEachConstNode` are not part of this model. Traversal is assumed to be pre-order, parent before children, and is modelled as the `PreOrder` list of visits.
- The nodes' proxy colour is not kept as separate state. Line 127 sets the proxy to the bubble colour, but every node sphere sets the node colour again (line 107), so each record carries the colour in force at its call.
- SketchMeshes.SketchMesh.Render: requires every radius to be positive and every edge length `dist` to be positive. Without this the bubble loop need not terminate and the direction divides by zero; the source does not check either.
- lib/src/tool/sculpt/behavior.hpp (declarations of a UI tool interface) and src/axis.cpp (OpenGL drawing of the axis) are not part of this model.
