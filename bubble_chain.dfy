/** The bubble chain drawn along one parent-child edge in bubble mode: the
    offsets, measured from the child towards the parent, at which the loop
    of SketchMesh::render draws a sphere. The first offset is half the
    child's radius; each step advances by half the radius interpolated at
    the current offset; the chain stops once the offset reaches the edge's
    length. */
module BubbleChain {
  import opened Geometry

  /** Radii and length of an edge the loop can walk. */
  predicate ValidEdge(radius: real, parRadius: real, distance: real) {
    0.0 < radius && 0.0 < parRadius && 0.0 < distance
  }

  /** The radius of the bubble at offset d. */
  function BubbleRadius(radius: real, parRadius: real, distance: real, d: real): real
    requires 0.0 < distance
  {
    Lerp(d / distance, radius, parRadius)
  }

  /** The offset after the bubble at d. */
  function NextOffset(radius: real, parRadius: real, distance: real, d: real): real
    requires 0.0 < distance
  {
    d + BubbleRadius(radius, parRadius, distance, d) * 0.5
  }

  /** A lower bound on every step of the chain. */
  function MinStep(radius: real, parRadius: real): real {
    Min(radius, parRadius) * 0.5
  }

  /** How many minimal steps still fit before the end of the edge. */
  function StepsLeft(radius: real, parRadius: real, distance: real, d: real): int
    requires ValidEdge(radius, parRadius, distance)
  {
    ((distance - d) / MinStep(radius, parRadius)).Floor
  }

  /** Inside the edge, the bubble radius lies between the two end radii. */
  lemma BubbleRadiusBetween(radius: real, parRadius: real, distance: real, d: real)
    requires ValidEdge(radius, parRadius, distance) && 0.0 <= d < distance
    ensures Min(radius, parRadius) <= BubbleRadius(radius, parRadius, distance, d) <= Max(radius, parRadius)
  {
    assert 0.0 <= d / distance < 1.0 by {
      assert d / distance * distance == d;
      if d / distance >= 1.0 {
        MulNonNegative(d / distance - 1.0, distance);
      }
    }
    LerpBetween(d / distance, radius, parRadius);
  }

  /** A real whose product with a positive real is non-negative is itself
      non-negative. */
  lemma FactorOfPositive(a: real, m: real)
    requires 0.0 < m && 0.0 <= a * m
    ensures 0.0 <= a
  {
    if a < 0.0 {
      MulNonNegative(-a, m);
    }
  }

  /** Each step inside the edge advances by at least MinStep, so fewer
      minimal steps are left afterwards: the loop terminates. */
  lemma StepDecreases(radius: real, parRadius: real, distance: real, d: real)
    requires ValidEdge(radius, parRadius, distance) && 0.0 <= d < distance
    ensures d + MinStep(radius, parRadius) <= NextOffset(radius, parRadius, distance, d)
    ensures 0 <= StepsLeft(radius, parRadius, distance, d)
    ensures StepsLeft(radius, parRadius, distance, NextOffset(radius, parRadius, distance, d))
            < StepsLeft(radius, parRadius, distance, d)
  {
    BubbleRadiusBetween(radius, parRadius, distance, d);
    var m := MinStep(radius, parRadius);
    var next := NextOffset(radius, parRadius, distance, d);
    var x, y := (distance - d) / m, (distance - next) / m;
    assert x * m == distance - d && y * m == distance - next;
    assert (x - 1.0 - y) * m == next - d - m;
    FactorOfPositive(x, m);
    FactorOfPositive(x - 1.0 - y, m);
  }

  /** The offsets of the bubbles drawn from offset d onwards. */
  function Offsets(radius: real, parRadius: real, distance: real, d: real): seq<real>
    requires ValidEdge(radius, parRadius, distance) && 0.0 <= d
    decreases StepsLeft(radius, parRadius, distance, d)
  {
    if d >= distance then []
    else
      StepDecreases(radius, parRadius, distance, d);
      [d] + Offsets(radius, parRadius, distance, NextOffset(radius, parRadius, distance, d))
  }

  /** The chain of one edge, as the loop starts it. */
  function Chain(radius: real, parRadius: real, distance: real): seq<real>
    requires ValidEdge(radius, parRadius, distance)
  {
    Offsets(radius, parRadius, distance, radius * 0.5)
  }

  /** Every offset lies in [d, distance): no drawn bubble reaches the far end. */
  lemma {:induction false} OffsetsInRange(radius: real, parRadius: real, distance: real, d: real)
    requires ValidEdge(radius, parRadius, distance) && 0.0 <= d
    ensures forall k :: 0 <= k < |Offsets(radius, parRadius, distance, d)| ==>
      d <= Offsets(radius, parRadius, distance, d)[k] < distance
    decreases StepsLeft(radius, parRadius, distance, d)
  {
    if d < distance {
      StepDecreases(radius, parRadius, distance, d);
      OffsetsInRange(radius, parRadius, distance, NextOffset(radius, parRadius, distance, d));
    }
  }

  /** The chain is empty exactly when d already reaches the end; otherwise it
      starts at d, each offset is its predecessor advanced by half its
      bubble's radius, and only the increment after the last offset
      reaches the end. */
  lemma {:induction false} OffsetsSteps(radius: real, parRadius: real, distance: real, d: real)
    requires ValidEdge(radius, parRadius, distance) && 0.0 <= d
    ensures var offs := Offsets(radius, parRadius, distance, d);
      && (offs == [] <==> distance <= d)
      && (offs != [] ==> offs[0] == d)
      && (forall k :: 0 <= k < |offs| - 1 ==>
            offs[k + 1] == NextOffset(radius, parRadius, distance, offs[k]))
      && (offs != [] ==> distance <= NextOffset(radius, parRadius, distance, offs[|offs| - 1]))
    decreases StepsLeft(radius, parRadius, distance, d)
  {
    if d < distance {
      StepDecreases(radius, parRadius, distance, d);
      var next := NextOffset(radius, parRadius, distance, d);
      OffsetsSteps(radius, parRadius, distance, next);
      var offs, rest := Offsets(radius, parRadius, distance, d), Offsets(radius, parRadius, distance, next);
      assert offs == [d] + rest;
      forall k | 0 <= k < |offs| - 1
        ensures offs[k + 1] == NextOffset(radius, parRadius, distance, offs[k])
      {
        if k > 0 {
          assert offs[k] == rest[k - 1] && offs[k + 1] == rest[k];
        }
      }
    }
  }

  /** Offsets strictly increase along the chain. */
  lemma OffsetsIncrease(radius: real, parRadius: real, distance: real, d: real)
    requires ValidEdge(radius, parRadius, distance) && 0.0 <= d
    ensures forall k :: 0 <= k < |Offsets(radius, parRadius, distance, d)| - 1 ==>
      Offsets(radius, parRadius, distance, d)[k] + MinStep(radius, parRadius)
        <= Offsets(radius, parRadius, distance, d)[k + 1]
  {
    var offs := Offsets(radius, parRadius, distance, d);
    OffsetsSteps(radius, parRadius, distance, d);
    OffsetsInRange(radius, parRadius, distance, d);
    forall k | 0 <= k < |offs| - 1
      ensures offs[k] + MinStep(radius, parRadius) <= offs[k + 1]
    {
      StepDecreases(radius, parRadius, distance, offs[k]);
    }
  }

  /** The bubbles of one edge: their offsets lie in [radius / 2, distance),
      their radii between the child's and the parent's, and no bubble is
      drawn when half the child's radius already spans the edge. */
  lemma ChainBounds(radius: real, parRadius: real, distance: real)
    requires ValidEdge(radius, parRadius, distance)
    ensures Chain(radius, parRadius, distance) == [] <==> distance <= radius * 0.5
    ensures forall k :: 0 <= k < |Chain(radius, parRadius, distance)| ==>
      var d := Chain(radius, parRadius, distance)[k];
      && radius * 0.5 <= d < distance
      && Min(radius, parRadius) <= BubbleRadius(radius, parRadius, distance, d) <= Max(radius, parRadius)
  {
    var offs := Chain(radius, parRadius, distance);
    OffsetsSteps(radius, parRadius, distance, radius * 0.5);
    OffsetsInRange(radius, parRadius, distance, radius * 0.5);
    forall k | 0 <= k < |offs|
      ensures Min(radius, parRadius) <= BubbleRadius(radius, parRadius, distance, offs[k]) <= Max(radius, parRadius)
    {
      BubbleRadiusBetween(radius, parRadius, distance, offs[k]);
    }
  }

  /** With equal radii every step is half that radius. */
  lemma EqualRadiiStep(r: real, distance: real, d: real)
    requires 0.0 < distance
    ensures NextOffset(r, r, distance, d) == d + r * 0.5
  {
    assert (d / distance) * (r - r) == 0.0;
  }

  /** With equal radii r the k-th offset from d is d + k * r / 2. */
  lemma {:induction false} EqualRadiiOffsets(r: real, distance: real, d: real)
    requires ValidEdge(r, r, distance) && 0.0 <= d
    ensures forall k :: 0 <= k < |Offsets(r, r, distance, d)| ==>
      Offsets(r, r, distance, d)[k] == d + (k as real) * (r * 0.5)
    decreases StepsLeft(r, r, distance, d)
  {
    var s := r * 0.5;
    if d < distance {
      StepDecreases(r, r, distance, d);
      var next := NextOffset(r, r, distance, d);
      EqualRadiiStep(r, distance, d);
      EqualRadiiOffsets(r, distance, next);
      var offs, rest := Offsets(r, r, distance, d), Offsets(r, r, distance, next);
      assert offs == [d] + rest;
      forall k | 1 <= k < |offs|
        ensures offs[k] == d + (k as real) * s
      {
        var j := (k - 1) as real;
        assert offs[k] == rest[k - 1] == next + j * s;
        assert j * s + s == (k as real) * s;
      }
    }
  }

  /** With equal radii r the chain from d holds exactly the n offsets with
      d + (n - 1) * r / 2 < distance <= d + n * r / 2: its length is
      determined by r, d and the edge length. */
  lemma EqualRadiiCount(r: real, distance: real, d: real)
    requires ValidEdge(r, r, distance) && 0.0 <= d
    ensures var n := |Offsets(r, r, distance, d)| as real;
      && (0.0 < n ==> d + (n - 1.0) * (r * 0.5) < distance)
      && distance <= d + n * (r * 0.5)
  {
    var offs := Offsets(r, r, distance, d);
    var s := r * 0.5;
    EqualRadiiOffsets(r, distance, d);
    OffsetsSteps(r, r, distance, d);
    OffsetsInRange(r, r, distance, d);
    if offs != [] {
      var last := |offs| - 1;
      assert offs[last] == d + (last as real) * s;
      EqualRadiiStep(r, distance, offs[last]);
      assert (last as real) * s + s == (|offs| as real) * s;
    }
  }
}
