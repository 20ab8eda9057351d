/** The magnetic-field evaluator (`compute_magnetic_field`): the sum, over every coil and
    every segment of it, of the closed-form field of a finite straight current segment. */
module Field {
  import opened Vectors
  import opened Numerics
  import opened Geometry

  function Min3(a: nat, b: nat, c: nat): (m: nat)
    ensures m <= a && m <= b && m <= c
    ensures m == a || m == b || m == c
  {
    if a <= b && a <= c then a else if b <= c then b else c
  }

  /** One item of the outer zip: a coil's nodes with its unit vectors and its displacements. */
  datatype CoilGeometry = CoilGeometry(nodes: seq<Point>, eRoof: seq<Point>, displacements: seq<Point>)

  /** One item of the inner zip: a window of nodes with its unit vector and its displacement. */
  datatype Segment = Segment(points: seq<Point>, e: Point, displacement: Point)

  /** `coils.iter().zip(e_roof.iter()).zip(displacements.iter())`: coil k with unit-vector
      array k and displacement array k, for as long as all three last. */
  function ZipCoils(coils: seq<seq<Point>>, displacements: seq<seq<Point>>, eRoof: seq<seq<Point>>): (gs: seq<CoilGeometry>)
    ensures |gs| == Min3(|coils|, |eRoof|, |displacements|)
    ensures forall k :: 0 <= k < |gs| ==> gs[k] == CoilGeometry(coils[k], eRoof[k], displacements[k])
  {
    if coils == [] || eRoof == [] || displacements == [] then []
    else [CoilGeometry(coils[0], eRoof[0], displacements[0])] + ZipCoils(coils[1..], displacements[1..], eRoof[1..])
  }

  /** `coil.windows(2).zip(e_roof_slice.iter().zip(displacement_slice.iter()))`: segment i
      pairs nodes i and i + 1 with unit vector i and displacement i, for as long as all
      three last. */
  function ZipSegments(g: CoilGeometry): (ss: seq<Segment>)
    ensures |ss| == Min3(|Windows(g.nodes)|, |g.eRoof|, |g.displacements|)
    ensures forall i :: 0 <= i < |ss| ==>
              ss[i] == Segment(g.nodes[i..i + 2], g.eRoof[i], g.displacements[i]) && |ss[i].points| == 2
  {
    var ws := Windows(g.nodes);
    var n := Min3(|ws|, |g.eRoof|, |g.displacements|);
    seq(n, i requires 0 <= i < n => Segment(ws[i], g.eRoof[i], g.displacements[i]))
  }

  /** Every segment the two loops visit, in the order they visit them. */
  function Segments(gs: seq<CoilGeometry>): (ss: seq<Segment>)
    ensures forall i :: 0 <= i < |ss| ==> |ss[i].points| == 2
  {
    if gs == [] then [] else ZipSegments(gs[0]) + Segments(gs[1..])
  }

  /** `(MIU * I) / (4 * PI)`, the factor that turns a segment's unit vector into u. */
  function Multiplier(dev: Device): real {
    dev.divide(dev.miu * dev.current, 4.0 * dev.pi)
  }

  /** The Biot–Savart factor c of a finite straight segment, from the length of the segment
      and the distances of the evaluation point to the segment's two ends. */
  function BiotSavartFactor(dev: Device, dNorm: real, rmiNorm: real, rmfNorm: real): real {
    dev.divide(2.0 * dNorm * (rmiNorm + rmfNorm), rmiNorm * rmfNorm)
      * dev.divide(1.0, (rmiNorm + rmfNorm) * (rmiNorm + rmfNorm) - dNorm * dNorm)
  }

  /** The contribution u × v of one segment at `particle`. */
  function SegmentField(dev: Device, particle: Point, s: Segment): Point
    requires |s.points| == 2
  {
    var rmi := Displacement(particle, s.points[0]);
    var rmf := Displacement(particle, s.points[1]);
    var u := Scale(s.e, Multiplier(dev));
    var c := BiotSavartFactor(dev, dev.norm(s.displacement), dev.norm(rmi), dev.norm(rmf));
    var v := Scale(rmi, c);
    Cross(u, v)
  }

  /** The contribution of each segment, in the same order. */
  function Contributions(dev: Device, particle: Point, ss: seq<Segment>): seq<Point>
    requires forall i :: 0 <= i < |ss| ==> |ss[i].points| == 2
  {
    seq(|ss|, i requires 0 <= i < |ss| => SegmentField(dev, particle, ss[i]))
  }

  /** The running total of a sequence of vectors, added left to right from zero. */
  function Sum(vs: seq<Point>): Point {
    if vs == [] then Origin else Add(Sum(vs[..|vs| - 1]), vs[|vs| - 1])
  }

  /** The field at `particle`: the contributions of all visited segments, summed. */
  function MagneticField(dev: Device, particle: Point, coils: seq<seq<Point>>,
                         displacements: seq<seq<Point>>, eRoof: seq<seq<Point>>): Point
  {
    Sum(Contributions(dev, particle, Segments(ZipCoils(coils, displacements, eRoof))))
  }

  /** The three component updates of `b` in the loop add the right-handed cross product
      u × v to `b`: the y line subtracts u.x·v.z − u.z·v.x, which is adding u.z·v.x − u.x·v.z. */
  lemma UpdateIsCrossProduct(b: Point, u: Point, v: Point)
    ensures Point(b.x + ((u.y * v.z) - (u.z * v.y)),
                  b.y - ((u.x * v.z) - (u.z * v.x)),
                  b.z + ((u.x * v.y) - (u.y * v.x))) == Add(b, Cross(u, v))
  {
    var sum := Add(b, Cross(u, v));
    assert b.x + ((u.y * v.z) - (u.z * v.y)) == sum.x;
    assert b.y - ((u.x * v.z) - (u.z * v.x)) == sum.y;
    assert b.z + ((u.x * v.y) - (u.y * v.x)) == sum.z;
  }

  /** The body of the inner loop of `compute_magnetic_field`: the contribution of one
      segment, added into `b` component by component. Elements 0 and 1 of the window are
      in bounds because every window has two nodes. */
  method AddSegment(dev: Device, b: Point, particle: Point, segment: Segment, multiplier: real) returns (b': Point)
    requires |segment.points| == 2 && multiplier == Multiplier(dev)
    ensures b' == Add(b, SegmentField(dev, particle, segment))
  {
    var points, e, displacement := segment.points, segment.e, segment.displacement;
    var rmiA := Displacement(particle, points[0]);
    var rmfA := Displacement(particle, points[1]);
    var u := Point(multiplier * e.x, multiplier * e.y, multiplier * e.z);
    assert u == Scale(e, multiplier) by {
      assert multiplier * e.x == e.x * multiplier;
      assert multiplier * e.y == e.y * multiplier;
      assert multiplier * e.z == e.z * multiplier;
    }
    var displacementNorm := dev.norm(displacement);
    var rmiANorm := dev.norm(rmiA);
    var rmfANorm := dev.norm(rmfA);
    var c := BiotSavartFactor(dev, displacementNorm, rmiANorm, rmfANorm);
    var v := Point(rmiA.x * c, rmiA.y * c, rmiA.z * c);
    b' := b;
    b' := b'.(x := b'.x + ((u.y * v.z) - (u.z * v.y)));
    b' := b'.(y := b'.y - ((u.x * v.z) - (u.z * v.x)));
    b' := b'.(z := b'.z + ((u.x * v.y) - (u.y * v.x)));
    assert SegmentField(dev, particle, segment) == Cross(u, v);
    UpdateIsCrossProduct(b, u, v);
  }

  /** `compute_magnetic_field`: starting from zero, nested loops over the zipped coils and,
      within each, over its zipped segments, each adding its contribution into `b`. */
  method ComputeMagneticField(dev: Device, particle: Point, coils: seq<seq<Point>>,
                              displacements: seq<seq<Point>>, eRoof: seq<seq<Point>>) returns (b: Point)
    ensures b == MagneticField(dev, particle, coils, displacements, eRoof)
  {
    var multiplier := Multiplier(dev);
    b := Point(0.0, 0.0, 0.0);
    var coilGeometries := ZipCoils(coils, displacements, eRoof);
    for k := 0 to |coilGeometries|
      invariant b == Sum(Contributions(dev, particle, Segments(coilGeometries[..k])))
    {
      var segments := ZipSegments(coilGeometries[k]);
      ghost var done := Segments(coilGeometries[..k]);
      assert done + segments[..0] == done;
      for i := 0 to |segments|
        invariant b == Sum(Contributions(dev, particle, done + segments[..i]))
      {
        b := AddSegment(dev, b, particle, segments[i], multiplier);
        PrefixSnoc(done, segments, i);
        ContributionsAppend(dev, particle, done + segments[..i], [segments[i]]);
      }
      assert done + segments[..|segments|] == Segments(coilGeometries[..k + 1]) by {
        assert segments[..|segments|] == segments;
        SegmentsSnoc(coilGeometries, k);
      }
    }
    assert coilGeometries[..|coilGeometries|] == coilGeometries;
  }

  lemma PrefixSnoc<T>(done: seq<T>, s: seq<T>, i: nat)
    requires i < |s|
    ensures done + s[..i + 1] == (done + s[..i]) + [s[i]]
  {
    assert s[..i + 1] == s[..i] + [s[i]];
  }

  lemma SegmentsSnoc(gs: seq<CoilGeometry>, k: nat)
    requires k < |gs|
    ensures Segments(gs[..k + 1]) == Segments(gs[..k]) + ZipSegments(gs[k])
  {
    assert gs[..k + 1] == gs[..k] + [gs[k]];
    SegmentsAppend(gs[..k], [gs[k]]);
    assert [gs[k]][1..] == [];
  }

  lemma {:induction false} SegmentsAppend(xs: seq<CoilGeometry>, ys: seq<CoilGeometry>)
    ensures Segments(xs + ys) == Segments(xs) + Segments(ys)
  {
    if xs == [] {
      assert xs + ys == ys;
    } else {
      assert (xs + ys)[1..] == xs[1..] + ys;
      SegmentsAppend(xs[1..], ys);
    }
  }

  lemma ContributionsAppend(dev: Device, particle: Point, xs: seq<Segment>, ys: seq<Segment>)
    requires forall i :: 0 <= i < |xs| ==> |xs[i].points| == 2
    requires forall i :: 0 <= i < |ys| ==> |ys[i].points| == 2
    ensures Contributions(dev, particle, xs + ys) == Contributions(dev, particle, xs) + Contributions(dev, particle, ys)
  {
  }

  lemma {:induction false} SumAppend(xs: seq<Point>, ys: seq<Point>)
    ensures Sum(xs + ys) == Add(Sum(xs), Sum(ys))
    decreases |ys|
  {
    if ys == [] {
      assert xs + ys == xs;
    } else {
      var init := ys[..|ys| - 1];
      assert (xs + ys)[..|xs + ys| - 1] == xs + init;
      SumAppend(xs, init);
    }
  }

  /** The number of segments of a coil of n nodes: max(n - 1, 0). */
  function NodeSegments(coil: seq<Point>): nat {
    if coil == [] then 0 else |coil| - 1
  }

  /** The number of contributions the loops add: for each zipped coil, the shortest of its
      segment count, its unit-vector count and its displacement count, summed. */
  function PairedSegmentCount(coils: seq<seq<Point>>, displacements: seq<seq<Point>>, eRoof: seq<seq<Point>>): nat {
    if coils == [] || eRoof == [] || displacements == [] then 0
    else Min3(NodeSegments(coils[0]), |eRoof[0]|, |displacements[0]|)
         + PairedSegmentCount(coils[1..], displacements[1..], eRoof[1..])
  }

  /** The field is a sum of exactly `PairedSegmentCount` contributions, one per segment the
      zips pair. */
  lemma {:induction false} ContributionCount(dev: Device, particle: Point, coils: seq<seq<Point>>,
                                             displacements: seq<seq<Point>>, eRoof: seq<seq<Point>>)
    ensures |Contributions(dev, particle, Segments(ZipCoils(coils, displacements, eRoof)))|
         == PairedSegmentCount(coils, displacements, eRoof)
  {
    if coils != [] && eRoof != [] && displacements != [] {
      var gs := ZipCoils(coils, displacements, eRoof);
      assert gs[1..] == ZipCoils(coils[1..], displacements[1..], eRoof[1..]);
      ContributionCount(dev, particle, coils[1..], displacements[1..], eRoof[1..]);
    }
  }

  lemma {:induction false} ShortCoilsHaveNoSegments(gs: seq<CoilGeometry>)
    requires forall k :: 0 <= k < |gs| ==> |gs[k].nodes| < 2
    ensures Segments(gs) == []
  {
    if gs != [] {
      ShortCoilsHaveNoSegments(gs[1..]);
    }
  }

  /** With no coil of two or more nodes (in particular with no coils at all) the field is
      the zero vector. */
  lemma NoSegmentsNoField(dev: Device, particle: Point, coils: seq<seq<Point>>,
                          displacements: seq<seq<Point>>, eRoof: seq<seq<Point>>)
    requires forall c :: 0 <= c < |coils| ==> |coils[c]| < 2
    ensures MagneticField(dev, particle, coils, displacements, eRoof) == Origin
  {
    ShortCoilsHaveNoSegments(ZipCoils(coils, displacements, eRoof));
  }

  /** With the geometry precomputed from the coils themselves, neither zip cuts anything
      off: every segment of every coil contributes exactly once. */
  lemma {:induction false} PrecomputedGeometryPairsEverySegment(dev: Device, coils: seq<seq<Point>>)
    ensures var ds := AllDisplacements(coils);
            PairedSegmentCount(coils, ds, AllERoof(dev, ds)) == TotalSegments(coils)
  {
    var ds := AllDisplacements(coils);
    var es := AllERoof(dev, ds);
    if coils != [] {
      assert ds[1..] == AllDisplacements(coils[1..]);
      assert es[1..] == AllERoof(dev, ds[1..]);
      PrecomputedGeometryPairsEverySegment(dev, coils[1..]);
    }
  }

  /** With the geometry precomputed from the coils, the outer zip keeps every coil, and the
      inner zip of coil c visits all of its max(|coil| - 1, 0) segments, segment i being
      nodes i and i + 1 with unit vector i and displacement i of that coil. */
  lemma PrecomputedGeometryVisitsEverySegment(dev: Device, coils: seq<seq<Point>>)
    ensures var ds := AllDisplacements(coils);
            var es := AllERoof(dev, ds);
            var gs := ZipCoils(coils, ds, es);
            && |gs| == |coils|
            && forall c :: 0 <= c < |coils| ==>
                 && |ZipSegments(gs[c])| == NodeSegments(coils[c])
                 && forall i :: 0 <= i < NodeSegments(coils[c]) ==>
                      ZipSegments(gs[c])[i] == Segment(coils[c][i..i + 2], es[c][i], ds[c][i])
  {
    var ds := AllDisplacements(coils);
    var es := AllERoof(dev, ds);
    var gs := ZipCoils(coils, ds, es);
    PrecomputeIsAligned(dev, coils);
    forall c | 0 <= c < |coils|
      ensures |ZipSegments(gs[c])| == NodeSegments(coils[c])
    {
      assert gs[c] == CoilGeometry(coils[c], es[c], ds[c]);
    }
  }

  /** The number of segments of all coils: max(|coil| - 1, 0), summed. */
  function TotalSegments(coils: seq<seq<Point>>): nat {
    if coils == [] then 0 else NodeSegments(coils[0]) + TotalSegments(coils[1..])
  }

  /** Zipping two sets of coils one after the other, the first with all its geometry. */
  lemma ZipCoilsAppend(coilsA: seq<seq<Point>>, displacementsA: seq<seq<Point>>, eRoofA: seq<seq<Point>>,
                       coilsB: seq<seq<Point>>, displacementsB: seq<seq<Point>>, eRoofB: seq<seq<Point>>)
    requires |coilsA| == |eRoofA| == |displacementsA|
    ensures ZipCoils(coilsA + coilsB, displacementsA + displacementsB, eRoofA + eRoofB)
         == ZipCoils(coilsA, displacementsA, eRoofA) + ZipCoils(coilsB, displacementsB, eRoofB)
  {
  }

  /** Superposition: the field of two sets of coils, the first paired with its own
      geometry throughout, is the sum of the fields of the two sets. */
  lemma Superposition(dev: Device, particle: Point,
                      coilsA: seq<seq<Point>>, displacementsA: seq<seq<Point>>, eRoofA: seq<seq<Point>>,
                      coilsB: seq<seq<Point>>, displacementsB: seq<seq<Point>>, eRoofB: seq<seq<Point>>)
    requires |coilsA| == |eRoofA| == |displacementsA|
    ensures MagneticField(dev, particle, coilsA + coilsB, displacementsA + displacementsB, eRoofA + eRoofB)
         == Add(MagneticField(dev, particle, coilsA, displacementsA, eRoofA),
                MagneticField(dev, particle, coilsB, displacementsB, eRoofB))
  {
    var gsA := ZipCoils(coilsA, displacementsA, eRoofA);
    var gsB := ZipCoils(coilsB, displacementsB, eRoofB);
    ZipCoilsAppend(coilsA, displacementsA, eRoofA, coilsB, displacementsB, eRoofB);
    SegmentsAppend(gsA, gsB);
    ContributionsAppend(dev, particle, Segments(gsA), Segments(gsB));
    SumAppend(Contributions(dev, particle, Segments(gsA)), Contributions(dev, particle, Segments(gsB)));
  }
}
