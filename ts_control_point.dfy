/**
 * The control point of ts_framework/control_point.ts: the abstract base
 * class and its `ControlPoint2d` and `ControlPoint3d` subclasses are one
 * class here, with one constructor per class. Both subclasses fix the axis.
 */
module TsControlPoint {
  import opened Three
  import opened Highlight

  /** The number of segments of the circle geometry. */
  const CircleSegments: int := 16

  /** The radius both subclasses use when none is given. */
  const DefaultRadius: real := 0.2

  class ControlPoint {
    const radius: real
    const segments: int
    const material: Material
    const isZAxisFixed: bool
    var position: Vector3

    /** The protected base constructor: the axis-lock flag is stored as given. */
    constructor (radius: real, isZAxisFixed: bool)
      ensures this.radius == radius && segments == CircleSegments
      ensures this.isZAxisFixed == isZAxisFixed
      ensures fresh(material) && material.color == Red && LookOf(material) == Normal
      ensures position == Origin
    {
      this.radius := radius;
      segments := CircleSegments;
      material := new Material(Red);
      this.isZAxisFixed := isZAxisFixed;
      position := Origin;
    }

    /** `new ControlPoint2d(radius = 0.2)`: passes `true` for the axis lock. */
    constructor ControlPoint2d(radius: real := DefaultRadius)
      ensures this.radius == radius && segments == CircleSegments
      ensures isZAxisFixed
      ensures fresh(material) && material.color == Red && LookOf(material) == Normal
      ensures position == Origin
    {
      this.radius := radius;
      segments := CircleSegments;
      material := new Material(Red);
      isZAxisFixed := true;
      position := Origin;
    }

    /** `new ControlPoint3d(radius = 0.2)`: passes `true` for the axis lock as well. */
    constructor ControlPoint3d(radius: real := DefaultRadius)
      ensures this.radius == radius && segments == CircleSegments
      ensures isZAxisFixed
      ensures fresh(material) && material.color == Red && LookOf(material) == Normal
      ensures position == Origin
    {
      this.radius := radius;
      segments := CircleSegments;
      material := new Material(Red);
      isZAxisFixed := true;
      position := Origin;
    }

    /** `enableHighlight()`: the material becomes half transparent, whatever it was. */
    method EnableHighlight()
      modifies material
      ensures LookOf(material) == Highlighted
    {
      material.needsUpdate := true;
      material.transparent := true;
      material.opacity := 0.5;
    }

    /** `disableHighlight()`: the material becomes opaque again, whatever it was. */
    method DisableHighlight()
      modifies material
      ensures LookOf(material) == Normal
    {
      material.opacity := 1.0;
      material.transparent := false;
      material.needsUpdate := false;
    }
  }

  /**
   * The positions of a sequence of control points, in order (`controlPoints.map(cp => cp.position)`).
   * The framework curve has its own copy of this map, mirrored by `FrameworkBezier.PositionsOf`.
   */
  function Positions(cps: seq<ControlPoint>): (ps: seq<Vector3>)
    reads cps
    ensures |ps| == |cps|
    ensures forall i :: 0 <= i < |cps| ==> ps[i] == cps[i].position
  {
    if cps == [] then [] else Positions(cps[..|cps| - 1]) + [cps[|cps| - 1].position]
  }
}
