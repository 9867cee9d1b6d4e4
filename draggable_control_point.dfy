/**
 * The draggable control point of framework/control_point/control_point.js:
 * a circle mesh with default radius, segment count and colour, whose drag
 * callbacks switch the highlight on and off.
 */
module DraggableControlPoint {
  import opened Three
  import opened Highlight

  class ControlPoint {
    const radius: real
    const segments: int
    const material: Material
    var position: Vector3

    /** `new ControlPoint(radius = 0.2, segments = 16, color = red)`: a circle at the origin. */
    constructor (radius: real := 0.2, segments: int := 16, color: int := Red)
      ensures this.radius == radius && this.segments == segments
      ensures fresh(material) && material.color == color && LookOf(material) == Normal
      ensures position == Origin
    {
      this.radius := radius;
      this.segments := segments;
      material := new Material(color);
      position := Origin;
    }

    /** `onDragStart()`: the material becomes half transparent, whatever it was. */
    method OnDragStart()
      modifies material
      ensures LookOf(material) == Highlighted
    {
      material.needsUpdate := true;
      material.transparent := true;
      material.opacity := 0.5;
    }

    /** `onDragEnd()`: the material becomes opaque again, whatever it was. */
    method OnDragEnd()
      modifies material
      ensures LookOf(material) == Normal
    {
      material.opacity := 1.0;
      material.transparent := false;
      material.needsUpdate := false;
    }
  }
}
