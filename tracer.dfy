/** The field-line tracer (`simulate_step`): one fixed-size RK4 step along the direction of
    the field, followed by the containment check that parks escaped particles at the
    divergent sentinel. */
module Tracer {
  import opened Vectors
  import opened Numerics
  import opened Field

  /** A field value turned into an RK4 stage: divided component by component by its norm,
      then multiplied by the step size. */
  function Normalized(dev: Device, b: Point, stepSize: real): Point {
    var n := dev.norm(b);
    Point(dev.divide(b.x, n) * stepSize, dev.divide(b.y, n) * stepSize, dev.divide(b.z, n) * stepSize)
  }

  /** One RK4 stage at `q`: the normalized field there. */
  function Slope(dev: Device, q: Point, coils: seq<seq<Point>>, displacements: seq<seq<Point>>,
                 eRoof: seq<seq<Point>>, stepSize: real): Point
  {
    Normalized(dev, MagneticField(dev, q, coils, displacements, eRoof), stepSize)
  }

  /** The classical RK4 update: `p` plus the weighted mean (k1 + 2·k2 + 2·k3 + k4) / 6. */
  function Combine(p: Point, k1: Point, k2: Point, k3: Point, k4: Point): Point {
    Add(p, Scale(Add(Add(k1, Scale(k2, 2.0)), Add(Scale(k3, 2.0), k4)), 1.0 / 6.0))
  }

  /** The position after the RK4 step, before the containment check: stage points
      p + k1/2, p + k2/2 and p + k3. */
  function Rk4(dev: Device, p: Point, coils: seq<seq<Point>>, displacements: seq<seq<Point>>,
               eRoof: seq<seq<Point>>, stepSize: real): Point
  {
    var k1 := Slope(dev, p, coils, displacements, eRoof, stepSize);
    var k2 := Slope(dev, Add(p, Scale(k1, 0.5)), coils, displacements, eRoof, stepSize);
    var k3 := Slope(dev, Add(p, Scale(k2, 0.5)), coils, displacements, eRoof, stepSize);
    var k4 := Slope(dev, Add(p, k3), coils, displacements, eRoof, stepSize);
    Combine(p, k1, k2, k3, k4)
  }

  /** The point of the major-radius circle in the direction of `p` (a point of the plane
      z = 0): `p` scaled to length `MAJOR_RADIUS`. */
  function CirclePoint(dev: Device, p: Point): Point {
    var n := dev.norm(p);
    Point(dev.divide(dev.majorRadius * p.x, n), dev.divide(dev.majorRadius * p.y, n), 0.0)
  }

  /** The distance from `r` to the nearest point of the major-radius circle: `r` projected
      onto the plane z = 0, scaled to length `MAJOR_RADIUS`, and measured from `r`. */
  function ContainmentDistance(dev: Device, r: Point): real {
    dev.distance(r, CirclePoint(dev, Point(r.x, r.y, 0.0)))
  }

  /** The containment rule: a position farther than `MINOR_RADIUS` from the circle becomes
      the sentinel; any other position, the boundary included, is kept. */
  function Contain(dev: Device, r: Point): Point {
    if ContainmentDistance(dev, r) > dev.minorRadius then dev.Sentinel() else r
  }

  /** What `simulate_step` returns for `p`. */
  function Step(dev: Device, p: Point, coils: seq<seq<Point>>, displacements: seq<seq<Point>>,
                eRoof: seq<seq<Point>>, stepSize: real): Point
  {
    Contain(dev, Rk4(dev, p, coils, displacements, eRoof, stepSize))
  }

  /** The lines of `simulate_step` that turn a field value `k` into a stage, one component
      at a time, all three divided by the norm taken before the first is overwritten. */
  method NormalizeInPlace(dev: Device, k: Point, stepSize: real) returns (k': Point)
    ensures k' == Normalized(dev, k, stepSize)
  {
    k' := k;
    var knorm := dev.norm(k');
    k' := k'.(x := dev.divide(k'.x, knorm) * stepSize);
    k' := k'.(y := dev.divide(k'.y, knorm) * stepSize);
    k' := k'.(z := dev.divide(k'.z, knorm) * stepSize);
  }

  /** One RK4 stage of `simulate_step`: the field at `q`, normalised and scaled in place. */
  method Stage(dev: Device, q: Point, coils: seq<seq<Point>>, displacements: seq<seq<Point>>,
               eRoof: seq<seq<Point>>, stepSize: real) returns (k: Point)
    ensures k == Slope(dev, q, coils, displacements, eRoof, stepSize)
  {
    k := ComputeMagneticField(dev, q, coils, displacements, eRoof);
    k := NormalizeInPlace(dev, k, stepSize);
  }

  /** The end of `simulate_step`: the distance of `result` from the major-radius circle is
      measured and, when it exceeds `MINOR_RADIUS`, every coordinate of `result` is
      overwritten with `MINOR_RADIUS`. */
  method ContainInPlace(dev: Device, r: Point) returns (result: Point)
    ensures result == Contain(dev, r)
  {
    result := r;
    var p := Point(result.x, result.y, 0.0);
    var origin := CirclePoint(dev, p);
    var distance := dev.distance(result, origin);
    if distance > dev.minorRadius {
      result := result.(x := dev.minorRadius);
      result := result.(y := dev.minorRadius);
      result := result.(z := dev.minorRadius);
    }
  }

  /** `simulate_step`: four field evaluations, each stage normalised and scaled in place,
      the RK4 combination, and the containment check that overwrites the result. */
  method SimulateStep(dev: Device, particle: Point, coils: seq<seq<Point>>, displacements: seq<seq<Point>>,
                      eRoof: seq<seq<Point>>, stepSize: real) returns (result: Point)
    ensures result == Step(dev, particle, coils, displacements, eRoof, stepSize)
  {
    var k1 := Stage(dev, particle, coils, displacements, eRoof, stepSize);
    var p1 := Point(k1.x / 2.0 + particle.x, k1.y / 2.0 + particle.y, k1.z / 2.0 + particle.z);
    assert p1 == Add(particle, Scale(k1, 0.5));

    var k2 := Stage(dev, p1, coils, displacements, eRoof, stepSize);
    var p2 := Point(k2.x / 2.0 + particle.x, k2.y / 2.0 + particle.y, k2.z / 2.0 + particle.z);
    assert p2 == Add(particle, Scale(k2, 0.5));

    var k3 := Stage(dev, p2, coils, displacements, eRoof, stepSize);
    var p3 := Point(k3.x + particle.x, k3.y + particle.y, k3.z + particle.z);
    assert p3 == Add(particle, k3);

    var k4 := Stage(dev, p3, coils, displacements, eRoof, stepSize);

    result := Point(particle.x + (k1.x + 2.0 * k2.x + 2.0 * k3.x + k4.x) / 6.0,
                    particle.y + (k1.y + 2.0 * k2.y + 2.0 * k3.y + k4.y) / 6.0,
                    particle.z + (k1.z + 2.0 * k2.z + 2.0 * k3.z + k4.z) / 6.0);
    assert result == Rk4(dev, particle, coils, displacements, eRoof, stepSize) by {
      CombineComponents(particle, k1, k2, k3, k4);
    }
    result := ContainInPlace(dev, result);
  }

  /** The component-wise formula of `simulate_step` is the RK4 weighted mean. */
  lemma CombineComponents(p: Point, k1: Point, k2: Point, k3: Point, k4: Point)
    ensures Combine(p, k1, k2, k3, k4)
         == Point(p.x + (k1.x + 2.0 * k2.x + 2.0 * k3.x + k4.x) / 6.0,
                  p.y + (k1.y + 2.0 * k2.y + 2.0 * k3.y + k4.y) / 6.0,
                  p.z + (k1.z + 2.0 * k2.z + 2.0 * k3.z + k4.z) / 6.0)
  {
  }

  /** The RK4 weights sum to one: four equal stages move the point by exactly that stage. */
  lemma CombineOfEqualStages(p: Point, k: Point)
    ensures Combine(p, k, k, k, k) == Add(p, k)
  {
  }

  /** A step ends at the sentinel exactly when the RK4 position lies beyond `MINOR_RADIUS`
      of the circle or is itself the sentinel; otherwise it ends at the RK4 position. */
  lemma StepOutcome(dev: Device, p: Point, coils: seq<seq<Point>>, displacements: seq<seq<Point>>,
                    eRoof: seq<seq<Point>>, stepSize: real)
    ensures var r := Rk4(dev, p, coils, displacements, eRoof, stepSize);
            && (Step(dev, p, coils, displacements, eRoof, stepSize) == dev.Sentinel()
                <==> ContainmentDistance(dev, r) > dev.minorRadius || r == dev.Sentinel())
            && (Step(dev, p, coils, displacements, eRoof, stepSize) != dev.Sentinel()
                ==> Step(dev, p, coils, displacements, eRoof, stepSize) == r)
  {
  }

  /** The boundary is inside: a position exactly `MINOR_RADIUS` from the circle is kept. */
  lemma BoundaryIsContained(dev: Device, r: Point)
    requires ContainmentDistance(dev, r) == dev.minorRadius
    ensures Contain(dev, r) == r
  {
  }
}
