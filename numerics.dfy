/** What the model keeps abstract: the device constants and the floating-point operations
    whose exact value the structural properties do not depend on. */
module Numerics {
  import opened Vectors

  /** The device constants (`MIU`, `I`, `PI`, `MAJOR_RADIUS`, `MINOR_RADIUS`) and the
      operations of `Point` and of f64 that are left uninterpreted:
      - `norm` is `Point::get_norm` and `distance` is `Point::get_distance` (square roots);
      - `unitVector` is `Point::get_unit_vector`;
      - `divide` is f64 division, kept abstract because its divisor (a field norm, a projected
        norm, a Biot-Savart denominator) can be zero, where f64 yields an infinity or NaN. */
  datatype Device = Device(
    miu: real,
    current: real,
    pi: real,
    majorRadius: real,
    minorRadius: real,
    norm: Point -> real,
    distance: (Point, Point) -> real,
    unitVector: Point -> Point,
    divide: (real, real) -> real)
  {
    /** The position every divergent particle is parked at: `MINOR_RADIUS` in all three coordinates. */
    function Sentinel(): Point {
      Point(minorRadius, minorRadius, minorRadius)
    }
  }
}
