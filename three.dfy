/**
 * The few pieces of the three.js rendering library that the core touches,
 * reduced to plain values and fields.
 */
module Three {

  /** A `THREE.Vector3` taken as a value; in-place mutation becomes reassignment of the field holding it. */
  datatype Vector3 = Vector3(x: real, y: real, z: real)

  /** `v.clone().multiplyScalar(s)`: every component scaled by `s`. */
  function Scale(v: Vector3, s: real): Vector3
  {
    Vector3(v.x * s, v.y * s, v.z * s)
  }

  /** `a.clone().add(b)`: the component-wise sum. */
  function Add(a: Vector3, b: Vector3): Vector3
  {
    Vector3(a.x + b.x, a.y + b.y, a.z + b.z)
  }

  /** A `THREE.Vector2` taken as a value. */
  datatype Vector2 = Vector2(x: real, y: real)

  /** The three coordinate axes, for statements that hold axis by axis. */
  datatype Axis = X | Y | Z

  /** The component of `v` along axis `a`. */
  function Coord(v: Vector3, a: Axis): real
  {
    match a
    case X => v.x
    case Y => v.y
    case Z => v.z
  }

  /** The position of a freshly created mesh. */
  const Origin: Vector3 := Vector3(0.0, 0.0, 0.0)

  /** `THREE.Color.NAMES.red` (and the literal 0xff0000 used elsewhere). */
  const Red: int := 0xff0000

  /**
   * The fields of a `THREE.MeshStandardMaterial` that the core reads or writes.
   * A new material is opaque, not transparent and has no pending update.
   */
  class Material {
    var opacity: real
    var transparent: bool
    var needsUpdate: bool
    const color: int

    constructor (color: int)
      ensures this.color == color
      ensures opacity == 1.0 && !transparent && !needsUpdate
    {
      this.color := color;
      opacity := 1.0;
      transparent := false;
      needsUpdate := false;
    }
  }
}
