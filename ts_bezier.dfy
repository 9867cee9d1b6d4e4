/**
 * `BezierCurve` of ts_framework/curves/bezier.ts: the same curve object as
 * the framework one, built from the TypeScript control points. Its control
 * points are fixed once constructed, and only the sampled polyline changes.
 */
module TsBezier {
  import opened Three
  import opened BezierEval
  import TsControlPoint

  type ControlPoint = TsControlPoint.ControlPoint

  class BezierCurve {
    /** The number of control points asked for (not the polynomial degree). */
    const degree: int
    const controlPoints: seq<ControlPoint>
    /** The points last handed to the line geometry. */
    var samples: seq<Vector3>

    /** The current control-point positions. */
    function Positions(): (ps: seq<Vector3>)
      reads controlPoints
    {
      TsControlPoint.Positions(controlPoints)
    }

    /**
     * `new BezierCurve(degree)`: `degree` fresh axis-locked control points
     * (none for a negative argument) spread along one line, then one recompute.
     */
    constructor (degree: int)
      ensures this.degree == degree
      ensures |controlPoints| == if degree < 0 then 0 else degree
      ensures forall i :: 0 <= i < |controlPoints| ==>
                fresh(controlPoints[i]) && fresh(controlPoints[i].material)
                && controlPoints[i].isZAxisFixed && controlPoints[i].radius == 0.2
      ensures forall i, j :: 0 <= i < j < |controlPoints| ==> controlPoints[i] != controlPoints[j]
      ensures Positions() == seq(|controlPoints|, InitialPosition)
      ensures samples == Sampling(Curve(Positions()), SampleDivisions)
    {
      this.degree := degree;
      var cps: seq<ControlPoint> := [];
      var i := 0;
      while i < degree
        invariant 0 <= i && |cps| == i
        invariant degree < 0 ==> i == 0
        invariant degree >= 0 ==> i <= degree
        invariant forall j :: 0 <= j < i ==> fresh(cps[j]) && fresh(cps[j].material) && cps[j].isZAxisFixed && cps[j].radius == 0.2
        invariant forall j, l :: 0 <= j < l < i ==> cps[j] != cps[l]
      {
        var cp := new TsControlPoint.ControlPoint.ControlPoint2d();
        cps := cps + [cp];
        i := i + 1;
      }
      for k := 0 to |cps|
        invariant forall j :: 0 <= j < k ==> cps[j].position == InitialPosition(j)
      {
        cps[k].position := InitialPosition(k);
      }
      controlPoints := cps;
      samples := [];
      new;
      UpdateCurveObject();
    }

    /**
     * `updateCurveObject()`: the geometry gets the 11 points sampled from
     * the current positions, taken in control-point order; nothing else changes.
     */
    method UpdateCurveObject()
      modifies this`samples
      ensures samples == Sampling(Curve(Positions()), SampleDivisions)
    {
      var controlPointPositions := TsControlPoint.Positions(controlPoints);
      var curve := Curve(controlPointPositions);
      samples := GetPoints(curve, SampleDivisions);
    }
  }
}
