/**
 * Direct Bernstein-form evaluation of a Bezier curve, and the uniform
 * sampling that the rendering library performs with it.
 *
 * `BezierCurve` in framework/curves/bezier.js and `CustomBezierCurve` in
 * ts_framework/curves/bezier.ts are the same code; both are `Curve` here.
 */
module BezierEval {
  import opened Three
  import opened Maths

  /**
   * The curve object built for one evaluation: the control positions in
   * order. Its `degree` is the NUMBER of positions; the polynomial degree
   * used for the weights is `degree - 1`.
   */
  datatype Curve = Curve(controlPointPositions: seq<Vector3>) {
    const degree: nat := |controlPointPositions|
  }

  /** The number of intervals the curve classes ask the library for (`getPoints(10)`). */
  const SampleDivisions: nat := 10

  /** The components of the positions along one axis, in order. */
  function Coords(ps: seq<Vector3>, a: Axis): (cs: seq<real>)
    ensures |cs| == |ps|
  {
    seq(|ps|, k requires 0 <= k < |ps| => Coord(ps[k], a))
  }

  /** `cs[0] * ws[0] + ... + cs[m] * ws[m]`, accumulated from the first index to the last. */
  function Dot(cs: seq<real>, ws: seq<real>): real
    requires |cs| == |ws|
  {
    if cs == [] then 0.0 else Dot(cs[..|cs| - 1], ws[..|ws| - 1]) + cs[|cs| - 1] * ws[|ws| - 1]
  }

  /** The weights the evaluator gives the positions: the Bernstein basis of degree `degree - 1`. */
  function CurveWeights(c: Curve, t: real): (w: seq<real>)
    ensures |w| == c.degree
  {
    if c.degree == 0 then [] else Weights(c.degree - 1, t)
  }

  /** One coordinate of the curve point: that coordinate of the positions, blended by the weights. */
  function AxisValue(c: Curve, t: real, a: Axis): real
  {
    Dot(Coords(c.controlPointPositions, a), CurveWeights(c, t))
  }

  /** The curve point at `t`, axis by axis: `sum over k of B(degree - 1, k, t) * P_k`. */
  function PointAt(c: Curve, t: real): Vector3
  {
    Vector3(AxisValue(c, t, X), AxisValue(c, t, Y), AxisValue(c, t, Z))
  }

  /** The sample sequence of `getPoints(divisions)`: the curve at `d / divisions` for `d = 0 .. divisions`. */
  function Sampling(c: Curve, divisions: nat): (s: seq<Vector3>)
    requires divisions >= 1
    ensures |s| == divisions + 1
  {
    seq(divisions + 1, d => PointAt(c, d as real / divisions as real))
  }

  /** Extending a prefix by one index adds that index's product. */
  lemma DotPrefixStep(cs: seq<real>, ws: seq<real>, k: nat)
    requires |cs| == |ws| && k < |cs|
    ensures Dot(cs[..k + 1], ws[..k + 1]) == Dot(cs[..k], ws[..k]) + cs[k] * ws[k]
  {
    assert cs[..k + 1][..k] == cs[..k];
    assert ws[..k + 1][..k] == ws[..k];
  }

  /** One iteration of the accumulation in `GetPoint`, along one axis. */
  lemma AccumulateStep(ps: seq<Vector3>, w: seq<real>, k: nat, a: Axis, acc: real, b: real)
    requires |ps| == |w| && k < |ps| && b == w[k]
    requires acc == Dot(Coords(ps, a)[..k], w[..k])
    ensures acc + Coord(Scale(ps[k], b), a) == Dot(Coords(ps, a)[..k + 1], w[..k + 1])
  {
    DotPrefixStep(Coords(ps, a), w, k);
  }

  /**
   * `getPoint(t)`: one pass over the positions, accumulating each weighted
   * component in `tx`, `ty`, `tz`. The positions are read, never written.
   */
  method GetPoint(c: Curve, t: real) returns (point: Vector3)
    ensures point == PointAt(c, t)
  {
    var positions := c.controlPointPositions;
    ghost var w := CurveWeights(c, t);
    var tx, ty, tz := 0.0, 0.0, 0.0;
    for k := 0 to |positions|
      invariant tx == Dot(Coords(positions, X)[..k], w[..k])
      invariant ty == Dot(Coords(positions, Y)[..k], w[..k])
      invariant tz == Dot(Coords(positions, Z)[..k], w[..k])
    {
      var n := c.degree - 1;
      var bernstein := Bernstein(n, k, t);
      assert bernstein == w[k];
      var controlPointEffect := Scale(positions[k], bernstein);
      AccumulateStep(positions, w, k, X, tx, bernstein);
      AccumulateStep(positions, w, k, Y, ty, bernstein);
      AccumulateStep(positions, w, k, Z, tz, bernstein);
      tx := tx + controlPointEffect.x;
      ty := ty + controlPointEffect.y;
      tz := tz + controlPointEffect.z;
    }
    assert Coords(positions, X)[..|positions|] == Coords(positions, X);
    assert Coords(positions, Y)[..|positions|] == Coords(positions, Y);
    assert Coords(positions, Z)[..|positions|] == Coords(positions, Z);
    assert w[..|positions|] == w;
    point := Vector3(tx, ty, tz);
  }

  /** `getPoints(divisions)` of the rendering library: `divisions + 1` evaluations at evenly spaced `t`. */
  method GetPoints(c: Curve, divisions: nat) returns (points: seq<Vector3>)
    requires divisions >= 1
    ensures points == Sampling(c, divisions)
  {
    points := [];
    for d := 0 to divisions + 1
      invariant |points| == d
      invariant forall j :: 0 <= j < d ==> points[j] == PointAt(c, j as real / divisions as real)
    {
      var point := GetPoint(c, d as real / divisions as real);
      points := points + [point];
    }
  }

  // ---------------------------------------------------------------------
  // Sums of products

  /** Weights that are 1 at the first index and 0 elsewhere pick out the first value. */
  lemma {:induction false} DotPicksFirst(cs: seq<real>, ws: seq<real>)
    requires |cs| == |ws| >= 1 && ws[0] == 1.0
    requires forall k :: 1 <= k < |ws| ==> ws[k] == 0.0
    ensures Dot(cs, ws) == cs[0]
  {
    if |cs| > 1 {
      DotPicksFirst(cs[..|cs| - 1], ws[..|ws| - 1]);
    }
  }

  /** All-zero weights give 0. */
  lemma {:induction false} DotOfZeroWeights(cs: seq<real>, ws: seq<real>)
    requires |cs| == |ws|
    requires forall k :: 0 <= k < |ws| ==> ws[k] == 0.0
    ensures Dot(cs, ws) == 0.0
  {
    if cs != [] {
      DotOfZeroWeights(cs[..|cs| - 1], ws[..|ws| - 1]);
    }
  }

  /** Weights that are 1 at the last index and 0 elsewhere pick out the last value. */
  lemma DotPicksLast(cs: seq<real>, ws: seq<real>)
    requires |cs| == |ws| >= 1 && ws[|ws| - 1] == 1.0
    requires forall k :: 0 <= k < |ws| - 1 ==> ws[k] == 0.0
    ensures Dot(cs, ws) == cs[|cs| - 1]
  {
    DotOfZeroWeights(cs[..|cs| - 1], ws[..|ws| - 1]);
  }

  /** Adding `d` to every value adds `d` times the total weight. */
  lemma {:induction false} DotOfShifted(cs: seq<real>, ds: seq<real>, ws: seq<real>, d: real)
    requires |cs| == |ds| == |ws|
    requires forall k :: 0 <= k < |cs| ==> ds[k] == cs[k] + d
    ensures Dot(ds, ws) == Dot(cs, ws) + d * Sum(ws)
  {
    if cs != [] {
      var m := |cs| - 1;
      DotOfShifted(cs[..m], ds[..m], ws[..m], d);
      assert ds[m] * ws[m] == cs[m] * ws[m] + d * ws[m];
    }
  }

  /** The same sum taken from the front. */
  lemma {:induction false} DotFromFront(cs: seq<real>, ws: seq<real>)
    requires |cs| == |ws| >= 1
    ensures Dot(cs, ws) == cs[0] * ws[0] + Dot(cs[1..], ws[1..])
  {
    var m := |cs| - 1;
    if m > 0 {
      DotFromFront(cs[..m], ws[..m]);
      assert cs[..m][1..] == cs[1..][..m - 1];
      assert ws[..m][1..] == ws[1..][..m - 1];
    }
  }

  /** The elements of a sequence in reverse order. */
  function Reverse<T>(s: seq<T>): (r: seq<T>)
    ensures |r| == |s|
    ensures forall k :: 0 <= k < |s| ==> r[k] == s[|s| - 1 - k]
  {
    seq(|s|, k requires 0 <= k < |s| => s[|s| - 1 - k])
  }

  /** Reversing the values is reversing the weights. */
  lemma {:induction false} DotOfReversed(cs: seq<real>, ws: seq<real>)
    requires |cs| == |ws|
    ensures Dot(Reverse(cs), ws) == Dot(cs, Reverse(ws))
    decreases |cs|
  {
    if cs != [] {
      var m := |cs| - 1;
      DotFromFront(Reverse(cs), ws);
      assert Reverse(cs)[1..] == Reverse(cs[..m]);
      DotOfReversed(cs[..m], ws[1..]);
      assert Reverse(ws)[..m] == Reverse(ws[1..]);
    }
  }

  // ---------------------------------------------------------------------
  // Properties of the evaluator

  /** Each output coordinate depends only on the same coordinate of the control positions. */
  lemma CoordinatesAreIndependent(c: Curve, e: Curve, t: real, a: Axis)
    requires Coords(c.controlPointPositions, a) == Coords(e.controlPointPositions, a)
    ensures Coord(PointAt(c, t), a) == Coord(PointAt(e, t), a)
  {
    assert c.degree == e.degree;
  }

  /** The curve starts at its first control position. */
  lemma StartsAtFirstPosition(c: Curve)
    requires c.degree >= 1
    ensures PointAt(c, 0.0) == c.controlPointPositions[0]
  {
    var n := c.degree - 1;
    var w := CurveWeights(c, 0.0);
    forall k | 0 <= k <= n
      ensures w[k] == if k == 0 then 1.0 else 0.0
    {
      BernsteinAtZero(n, k);
    }
    var ps := c.controlPointPositions;
    DotPicksFirst(Coords(ps, X), w);
    DotPicksFirst(Coords(ps, Y), w);
    DotPicksFirst(Coords(ps, Z), w);
  }

  /** The curve ends at its last control position. */
  lemma EndsAtLastPosition(c: Curve)
    requires c.degree >= 1
    ensures PointAt(c, 1.0) == c.controlPointPositions[c.degree - 1]
  {
    var n := c.degree - 1;
    var w := CurveWeights(c, 1.0);
    forall k | 0 <= k <= n
      ensures w[k] == if k == n then 1.0 else 0.0
    {
      BernsteinAtOne(n, k);
    }
    var ps := c.controlPointPositions;
    DotPicksLast(Coords(ps, X), w);
    DotPicksLast(Coords(ps, Y), w);
    DotPicksLast(Coords(ps, Z), w);
  }

  /** With two control positions the curve is the straight segment `(1 - t) P0 + t P1`. */
  lemma TwoPositionsInterpolateLinearly(c: Curve, t: real)
    requires c.degree == 2
    ensures PointAt(c, t) == Add(Scale(c.controlPointPositions[0], 1.0 - t), Scale(c.controlPointPositions[1], t))
  {
    LinearWeights(t);
    var ps := c.controlPointPositions;
    forall a: Axis
      ensures AxisValue(c, t, a) == Coord(ps[0], a) * (1.0 - t) + Coord(ps[1], a) * t
    {
      DotWithLinearWeights(Coords(ps, a), t);
    }
    assert AxisValue(c, t, X) == ps[0].x * (1.0 - t) + ps[1].x * t;
    assert AxisValue(c, t, Y) == ps[0].y * (1.0 - t) + ps[1].y * t;
    assert AxisValue(c, t, Z) == ps[0].z * (1.0 - t) + ps[1].z * t;
  }

  /** The linear Bernstein weights are `1 - t` and `t`. */
  lemma LinearWeights(t: real)
    ensures Weights(1, t) == [1.0 - t, t]
  {
    ChooseCases(1, 0);
    ChooseCases(1, 1);
    PowStep(1.0 - t, 1);
    PowStep(t, 1);
    assert Pow(1.0 - t, 0) == 1.0 && Pow(t, 0) == 1.0;
    assert Weights(1, t)[0] == 1.0 - t;
    assert Weights(1, t)[1] == t;
  }

  /** Two values blended by the linear weights, written out. */
  lemma DotWithLinearWeights(cs: seq<real>, t: real)
    requires |cs| == 2
    ensures Dot(cs, [1.0 - t, t]) == cs[0] * (1.0 - t) + cs[1] * t
  {
    var w := [1.0 - t, t];
    DotPrefixStep(cs, w, 0);
    DotPrefixStep(cs, w, 1);
    assert cs[..2] == cs && w[..2] == w;
  }

  /** The positions moved by `v`. */
  function Translate(ps: seq<Vector3>, v: Vector3): (r: seq<Vector3>)
    ensures |r| == |ps|
  {
    seq(|ps|, k requires 0 <= k < |ps| => Add(ps[k], v))
  }

  /** Affine invariance under translation: moving every control position by `v` moves the whole curve by `v`. */
  lemma TranslationMovesCurve(c: Curve, v: Vector3, t: real)
    requires c.degree >= 1
    ensures PointAt(Curve(Translate(c.controlPointPositions, v)), t) == Add(PointAt(c, t), v)
  {
    var ps := c.controlPointPositions;
    var moved := Curve(Translate(ps, v));
    var w := CurveWeights(c, t);
    assert CurveWeights(moved, t) == w;
    PartitionOfUnity(c.degree - 1, t);
    DotOfShifted(Coords(ps, X), Coords(moved.controlPointPositions, X), w, v.x);
    DotOfShifted(Coords(ps, Y), Coords(moved.controlPointPositions, Y), w, v.y);
    DotOfShifted(Coords(ps, Z), Coords(moved.controlPointPositions, Z), w, v.z);
  }

  /** Symmetry: the curve through the reversed positions is the same curve traversed backwards. */
  lemma ReversedPositionsReverseCurve(c: Curve, t: real)
    ensures PointAt(Curve(Reverse(c.controlPointPositions)), t) == PointAt(c, 1.0 - t)
  {
    var ps := c.controlPointPositions;
    var r := Curve(Reverse(ps));
    if c.degree > 0 {
      var n := c.degree - 1;
      var w := CurveWeights(c, t);
      assert CurveWeights(r, t) == w;
      forall k | 0 <= k <= n
        ensures Reverse(w)[k] == CurveWeights(c, 1.0 - t)[k]
      {
        BernsteinSymmetric(n, n - k, t);
      }
      assert Reverse(w) == CurveWeights(c, 1.0 - t);
      forall a: Axis
        ensures AxisValue(r, t, a) == AxisValue(c, 1.0 - t, a)
      {
        assert Coords(Reverse(ps), a) == Reverse(Coords(ps, a));
        DotOfReversed(Coords(ps, a), w);
      }
    }
    assert AxisValue(r, t, X) == AxisValue(c, 1.0 - t, X);
    assert AxisValue(r, t, Y) == AxisValue(c, 1.0 - t, Y);
    assert AxisValue(r, t, Z) == AxisValue(c, 1.0 - t, Z);
  }

  /** The first sample is the first control position and the last sample the last one. */
  lemma SamplingHitsEndPositions(c: Curve, divisions: nat)
    requires c.degree >= 1 && divisions >= 1
    ensures Sampling(c, divisions)[0] == c.controlPointPositions[0]
    ensures Sampling(c, divisions)[divisions] == c.controlPointPositions[c.degree - 1]
  {
    StartsAtFirstPosition(c);
    EndsAtLastPosition(c);
    assert divisions as real / divisions as real == 1.0;
  }

  /**
   * A regression value: the cubic through (0,0,0), (1,0,2), (2,0,3), (3,0,0)
   * at t = 1/2 is (1.5, 0, 1.875), as the closed form
   * (P0 + 3 P1 + 3 P2 + P3) / 8 gives.
   */
  lemma CubicAtHalf()
    ensures PointAt(Curve([Vector3(0.0, 0.0, 0.0), Vector3(1.0, 0.0, 2.0), Vector3(2.0, 0.0, 3.0), Vector3(3.0, 0.0, 0.0)]), 0.5)
         == Vector3(1.5, 0.0, 1.875)
  {
    var c := Curve([Vector3(0.0, 0.0, 0.0), Vector3(1.0, 0.0, 2.0), Vector3(2.0, 0.0, 3.0), Vector3(3.0, 0.0, 0.0)]);
    CubicWeightsAtHalf();
    var ps := c.controlPointPositions;
    forall a: Axis
      ensures AxisValue(c, 0.5, a)
           == 0.125 * Coord(ps[0], a) + 0.375 * Coord(ps[1], a) + 0.375 * Coord(ps[2], a) + 0.125 * Coord(ps[3], a)
    {
      DotWithCubicHalfWeights(Coords(ps, a));
    }
  }

  /** The cubic Bernstein weights at `t = 1/2` are 1/8, 3/8, 3/8 and 1/8. */
  lemma CubicWeightsAtHalf()
    ensures Weights(3, 0.5) == [0.125, 0.375, 0.375, 0.125]
  {
    ChooseNearEdges(3);
    assert Pow(0.5, 1) == 0.5;
    assert Pow(0.5, 2) == 0.25;
    assert Pow(0.5, 3) == 0.125;
  }

  /** Four coordinates blended by the cubic weights at `t = 1/2`, written out. */
  lemma DotWithCubicHalfWeights(cs: seq<real>)
    requires |cs| == 4
    ensures Dot(cs, [0.125, 0.375, 0.375, 0.125]) == 0.125 * cs[0] + 0.375 * cs[1] + 0.375 * cs[2] + 0.125 * cs[3]
  {
    var w := [0.125, 0.375, 0.375, 0.125];
    DotPrefixStep(cs, w, 0);
    DotPrefixStep(cs, w, 1);
    DotPrefixStep(cs, w, 2);
    DotPrefixStep(cs, w, 3);
    assert cs[..4] == cs && w[..4] == w;
  }

  /** Where both curve constructors place control point `i`: `(0.2 i, 0, 0.5 i)`. */
  function InitialPosition(i: int): Vector3
  {
    Vector3(0.2 * i as real, 0.0, 0.5 * i as real)
  }

  /** Coordinates growing by `d` per index, starting from 0. */
  ghost predicate IsLine(cs: seq<real>, d: real)
  {
    forall k :: 0 <= k < |cs| ==> cs[k] == d * k as real
  }

  /** Coordinates growing by `d` per index turn the dot product into `d` times the index-weighted sum `iw`. */
  lemma {:induction false} DotOfScaledIndices(cs: seq<real>, ws: seq<real>, iw: seq<real>, d: real)
    requires |cs| == |ws| && IsLine(cs, d) && IsIndexWeighting(iw, ws)
    ensures Dot(cs, ws) == d * Sum(iw)
  {
    if cs != [] {
      PrefixesKeepShape(cs, ws, iw, d);
      DotOfScaledIndices(cs[..|cs| - 1], ws[..|ws| - 1], iw[..|iw| - 1], d);
      LastScaledIndex(cs, ws, iw, d);
      ScaledSumStep(iw, d);
    }
  }

  /** `d` times a sum is `d` times the sum without the last element, plus `d` times that element. */
  lemma ScaledSumStep(s: seq<real>, d: real)
    requires |s| > 0
    ensures d * Sum(s) == d * Sum(s[..|s| - 1]) + d * s[|s| - 1]
  {
  }

  /** Dropping the last element keeps a line a line and an index weighting an index weighting. */
  lemma PrefixesKeepShape(cs: seq<real>, ws: seq<real>, iw: seq<real>, d: real)
    requires |cs| == |ws| > 0 && IsLine(cs, d) && IsIndexWeighting(iw, ws)
    ensures IsLine(cs[..|cs| - 1], d) && IsIndexWeighting(iw[..|iw| - 1], ws[..|ws| - 1])
  {
  }

  /** The last term of such a dot product is `d` times the last index-weighted weight. */
  lemma LastScaledIndex(cs: seq<real>, ws: seq<real>, iw: seq<real>, d: real)
    requires |cs| == |ws| > 0 && IsLine(cs, d) && IsIndexWeighting(iw, ws)
    ensures cs[|cs| - 1] * ws[|ws| - 1] == d * iw[|iw| - 1]
  {
    var m := |cs| - 1;
    assert cs[m] == d * m as real;
    assert iw[m] == m as real * ws[m];
  }

  /** Along each axis the constructors' layout is a line through the origin: slopes 0.2, 0 and 0.5. */
  lemma LayoutLines(ps: seq<Vector3>)
    requires forall k :: 0 <= k < |ps| ==> ps[k] == InitialPosition(k)
    ensures IsLine(Coords(ps, X), 0.2) && IsLine(Coords(ps, Y), 0.0) && IsLine(Coords(ps, Z), 0.5)
  {
  }

  /** Each axis of the constructors' layout, blended by weights whose index-weighted sum is `s`. */
  lemma LayoutAxes(ps: seq<Vector3>, w: seq<real>, iw: seq<real>, s: real)
    requires |ps| == |w| && IsIndexWeighting(iw, w)
    requires forall k :: 0 <= k < |ps| ==> ps[k] == InitialPosition(k)
    requires Sum(iw) == s
    ensures Dot(Coords(ps, X), w) == 0.2 * s
    ensures Dot(Coords(ps, Y), w) == 0.0
    ensures Dot(Coords(ps, Z), w) == 0.5 * s
  {
    LayoutLines(ps);
    DotOfScaledIndices(Coords(ps, X), w, iw, 0.2);
    DotOfScaledIndices(Coords(ps, Y), w, iw, 0.0);
    DotOfScaledIndices(Coords(ps, Z), w, iw, 0.5);
  }

  /**
   * The constructors' layout is a straight line, and the curve through it runs
   * along that line at constant speed: with `count` points, the curve at `t`
   * is where the layout would put index `(count - 1) t`.
   */
  lemma InitialLayoutIsUniform(count: nat, t: real)
    requires count >= 1
    ensures var s := (count - 1) as real * t;
      PointAt(Curve(seq(count, InitialPosition)), t) == Vector3(0.2 * s, 0.0, 0.5 * s)
  {
    assert CurveWeights(Curve(seq(count, InitialPosition)), t) == Weights(count - 1, t);
    IndexWeightsScaleWeights(count - 1, t);
    MeanIndex(count - 1, t);
    LayoutAxes(seq(count, InitialPosition), Weights(count - 1, t), IndexWeights(count - 1, t), (count - 1) as real * t);
  }
}
