/**
 * The control point of framework/control_point.js: a circle mesh whose
 * material carries the highlight state, with a flag telling the scene that
 * the point lives in the horizontal plane. The base class and its
 * `ControlPoint2d` subclass are one class here, with one constructor each.
 */
module FrameworkControlPoint {
  import opened Three
  import opened Highlight

  /** The number of segments of the circle geometry. */
  const CircleSegments: int := 16

  /** The keep-x-and-z projection of `get2dPosition`: the height `y` is dropped. */
  function ProjectXZ(v: Vector3): Vector2
  {
    Vector2(v.x, v.z)
  }

  /** The projection keeps everything but the height: lifting it back with the old height restores the point. */
  lemma ProjectionForgetsOnlyHeight(v: Vector3, h: real)
    ensures ProjectXZ(v.(y := h)) == ProjectXZ(v)
    ensures var p := ProjectXZ(v); Vector3(p.x, v.y, p.y) == v
  {
  }

  class ControlPoint {
    const radius: real
    const segments: int
    const material: Material
    const is2DObject: bool
    var position: Vector3

    /** `new ControlPoint(radius, is2DObject = false)`: a red circle at the origin. */
    constructor (radius: real, is2DObject: bool := false)
      ensures this.radius == radius && segments == CircleSegments
      ensures this.is2DObject == is2DObject
      ensures fresh(material) && material.color == Red && LookOf(material) == Normal
      ensures position == Origin
    {
      this.radius := radius;
      segments := CircleSegments;
      material := new Material(Red);
      this.is2DObject := is2DObject;
      position := Origin;
    }

    /** `new ControlPoint2d(radius = 0.2)`: the base constructor with `is2DObject` set. */
    constructor ControlPoint2d(radius: real := 0.2)
      ensures this.radius == radius && segments == CircleSegments
      ensures is2DObject
      ensures fresh(material) && material.color == Red && LookOf(material) == Normal
      ensures position == Origin
    {
      this.radius := radius;
      segments := CircleSegments;
      material := new Material(Red);
      is2DObject := true;
      position := Origin;
    }

    /** `enableHighlight()`: the material becomes half transparent, whatever it was. */
    method EnableHighlight()
      modifies material
      ensures LookOf(material) == Highlighted
    {
      material.needsUpdate := true;
      material.transparent := true;
      material.opacity := 0.5;
    }

    /** `disableHighlight()`: the material becomes opaque again, whatever it was. */
    method DisableHighlight()
      modifies material
      ensures LookOf(material) == Normal
    {
      material.opacity := 1.0;
      material.transparent := false;
      material.needsUpdate := false;
    }

    /** `get2dPosition()` (of `ControlPoint2d`): the position seen from above. */
    function Get2dPosition(): (p: Vector2)
      reads this
      ensures Vector3(p.x, position.y, p.y) == position
    {
      ProjectXZ(position)
    }
  }
}
