/** Three-dimensional points and vectors (the `Point` struct the simulation works on).
    The source stores three f64 coordinates; here they are exact reals, so the vector
    algebra below holds exactly rather than up to rounding. */
module Vectors {

  datatype Point = Point(x: real, y: real, z: real)

  const Origin: Point := Point(0.0, 0.0, 0.0)
  const UnitX: Point := Point(1.0, 0.0, 0.0)
  const UnitY: Point := Point(0.0, 1.0, 0.0)
  const UnitZ: Point := Point(0.0, 0.0, 1.0)

  function Add(a: Point, b: Point): Point {
    Point(a.x + b.x, a.y + b.y, a.z + b.z)
  }

  function Scale(a: Point, s: real): Point {
    Point(a.x * s, a.y * s, a.z * s)
  }

  /** `a.get_displacement(&b)`: the vector that leads from `b` to `a`. */
  function Displacement(a: Point, b: Point): (d: Point)
    ensures Add(b, d) == a
    ensures d == Origin <==> a == b
  {
    Point(a.x - b.x, a.y - b.y, a.z - b.z)
  }

  function Dot(u: Point, v: Point): real {
    u.x * v.x + u.y * v.y + u.z * v.z
  }

  /** The right-handed cross product u × v. */
  function Cross(u: Point, v: Point): Point {
    Point(u.y * v.z - u.z * v.y,
          u.z * v.x - u.x * v.z,
          u.x * v.y - u.y * v.x)
  }

  /** The cross product is the right-handed one: x × y = z. */
  lemma CrossIsRightHanded()
    ensures Cross(UnitX, UnitY) == UnitZ
  {
  }

  /** u × v is perpendicular to both factors and changes sign when they are swapped. */
  lemma CrossOrthogonalAntisymmetric(u: Point, v: Point)
    ensures Dot(Cross(u, v), u) == 0.0 && Dot(Cross(u, v), v) == 0.0
    ensures Cross(v, u) == Scale(Cross(u, v), -1.0)
  {
  }
}
