/**
 * `BezierCurve2DObject` of framework/curves/bezier.js: an ordered list of
 * 2D control points and the polyline sampled from the Bézier curve through
 * their positions. The geometry buffer is the field `samples`; the line
 * object and its material are not modelled.
 */
module FrameworkBezier {
  import opened Three
  import opened BezierEval
  import opened Wrappers
  import FrameworkControlPoint

  type ControlPoint = FrameworkControlPoint.ControlPoint

  /** Why a curve operation throws. */
  datatype CurveError =
    | NoSuchControlPoint  // a position was given for a control point that does not exist

  /**
   * The positions of the control points, in order (`controlPoints.map(cp => cp.position)`).
   * The TypeScript curve has its own copy of this map, mirrored by `TsControlPoint.Positions`.
   */
  function PositionsOf(cps: seq<ControlPoint>): (ps: seq<Vector3>)
    reads cps
    ensures |ps| == |cps|
    ensures forall i :: 0 <= i < |cps| ==> ps[i] == cps[i].position
  {
    if cps == [] then [] else PositionsOf(cps[..|cps| - 1]) + [cps[|cps| - 1].position]
  }

  /** No control point occurs twice, so writing one position leaves the others alone. */
  ghost predicate Distinct(cps: seq<ControlPoint>)
  {
    forall i, j :: 0 <= i < j < |cps| ==> cps[i] != cps[j]
  }

  /** `count` fresh 2D control points of the default radius, none for a negative count. */
  method NewControlPoints(count: int) returns (cps: seq<ControlPoint>)
    ensures |cps| == if count < 0 then 0 else count
    ensures forall j :: 0 <= j < |cps| ==> fresh(cps[j]) && fresh(cps[j].material) && cps[j].is2DObject && cps[j].radius == 0.2
    ensures Distinct(cps)
  {
    cps := [];
    var i := 0;
    while i < count
      invariant 0 <= i && |cps| == i
      invariant count < 0 ==> i == 0
      invariant count >= 0 ==> i <= count
      invariant forall j :: 0 <= j < i ==> fresh(cps[j]) && fresh(cps[j].material) && cps[j].is2DObject && cps[j].radius == 0.2
      invariant Distinct(cps)
    {
      var cp := new FrameworkControlPoint.ControlPoint.ControlPoint2d();
      cps := cps + [cp];
      i := i + 1;
    }
  }

  /** Control point `k` goes to `InitialPosition(k)`, for every `k`. */
  method PlaceOnInitialLine(cps: seq<ControlPoint>)
    requires Distinct(cps)
    modifies set j | 0 <= j < |cps| :: cps[j]
    ensures PositionsOf(cps) == seq(|cps|, InitialPosition)
  {
    for k := 0 to |cps|
      invariant forall j :: 0 <= j < k ==> cps[j].position == InitialPosition(j)
    {
      cps[k].position := InitialPosition(k);
    }
  }

  class BezierCurve2DObject {
    /** The number of control points asked for (not the polynomial degree). */
    var degree: int
    var controlPoints: seq<ControlPoint>
    /** The points last handed to the line geometry. */
    var samples: seq<Vector3>

    ghost predicate Valid()
      reads this
    {
      Distinct(controlPoints)
    }

    /** The current control-point positions. */
    function Positions(): (ps: seq<Vector3>)
      reads this, controlPoints
    {
      PositionsOf(controlPoints)
    }

    /**
     * `new BezierCurve2DObject(degree)`: `degree` fresh 2D control points
     * (none for a negative argument) spread along one line, then one update.
     */
    constructor (degree: int)
      ensures Valid()
      ensures this.degree == degree
      ensures |controlPoints| == if degree < 0 then 0 else degree
      ensures forall i :: 0 <= i < |controlPoints| ==>
                fresh(controlPoints[i]) && fresh(controlPoints[i].material)
                && controlPoints[i].is2DObject && controlPoints[i].radius == 0.2
      ensures Positions() == seq(|controlPoints|, InitialPosition)
      ensures samples == Sampling(Curve(Positions()), SampleDivisions)
    {
      this.degree := degree;
      var cps := NewControlPoints(degree);
      PlaceOnInitialLine(cps);
      controlPoints := cps;
      // the closing `update()` call, done before the object is complete
      var points := GetPoints(Curve(PositionsOf(cps)), SampleDivisions);
      samples := points;
    }

    /**
     * `setCursorPointPositions(positions)`: control point `i` takes
     * `positions[i]`, in order, then one update. A position beyond the last
     * control point throws, after the earlier writes and before the update.
     */
    method SetCursorPointPositions(positions: seq<Vector3>) returns (result: Outcome<CurveError>)
      requires Valid()
      modifies controlPoints, this`samples
      ensures Valid()
      ensures result == Fail(NoSuchControlPoint) <==> |positions| > |controlPoints|
      ensures result == Pass <==> |positions| <= |controlPoints|
      ensures var written := if |positions| <= |controlPoints| then |positions| else |controlPoints|;
        Positions() == positions[..written] + old(Positions())[written..]
      ensures result == Pass ==> samples == Sampling(Curve(Positions()), SampleDivisions)
      ensures result.Fail? ==> samples == old(samples)
    {
      for i := 0 to |positions|
        invariant i <= |controlPoints|
        invariant samples == old(samples)
        invariant forall j :: 0 <= j < i ==> controlPoints[j].position == positions[j]
        invariant forall j :: i <= j < |controlPoints| ==> controlPoints[j].position == old(controlPoints[j].position)
      {
        if i == |controlPoints| {
          return Fail(NoSuchControlPoint);
        }
        controlPoints[i].position := positions[i];
      }
      Update();
      return Pass;
    }

    /**
     * `addControlPoint(position)`: one more fresh 2D control point at the
     * origin. The argument is not used and the samples are not recomputed.
     */
    method AddControlPoint(position: Vector3)
      requires Valid()
      modifies this`degree, this`controlPoints
      ensures Valid()
      ensures degree == old(degree) + 1
      ensures |controlPoints| == |old(controlPoints)| + 1
      ensures controlPoints[..|old(controlPoints)|] == old(controlPoints)
      ensures fresh(controlPoints[|controlPoints| - 1]) && fresh(controlPoints[|controlPoints| - 1].material)
      ensures controlPoints[|controlPoints| - 1].is2DObject && controlPoints[|controlPoints| - 1].radius == 0.2
      ensures Positions() == old(Positions()) + [Origin]
      ensures samples == old(samples)
    {
      degree := degree + 1;
      var cp := new FrameworkControlPoint.ControlPoint.ControlPoint2d();
      controlPoints := controlPoints + [cp];
    }

    /** `update()`: the geometry gets the 11 points sampled from the current positions. */
    method Update()
      modifies this`samples
      ensures samples == Sampling(Curve(Positions()), SampleDivisions)
    {
      var controlPointPositions := PositionsOf(controlPoints);
      var curve := Curve(controlPointPositions);
      samples := GetPoints(curve, SampleDivisions);
    }

    /** `getControlPoints()`: the control points themselves, shared with the caller. */
    function GetControlPoints(): seq<ControlPoint>
      reads this
    {
      controlPoints
    }
  }
}
