/** Per-segment geometry, computed once from the coils: the displacement between adjacent
    nodes and its unit vector ("e_roof"), kept in arrays parallel to each coil's segments. */
module Geometry {
  import opened Vectors
  import opened Numerics

  /** `s.windows(2)`: every run of two adjacent elements, in order. Each window has
      exactly two elements, which is what makes the unchecked accesses to elements 0 and 1
      of a window safe. */
  function Windows<T>(s: seq<T>): (ws: seq<seq<T>>)
    ensures |ws| == if |s| < 2 then 0 else |s| - 1
    ensures forall i :: 0 <= i < |ws| ==> |ws[i]| == 2 && ws[i] == s[i..i + 2]
  {
    if |s| < 2 then [] else [s[..2]] + Windows(s[1..])
  }

  /** `compute_displacements`: one displacement per segment, from its first node to its second. */
  function Displacements(coil: seq<Point>): (ds: seq<Point>)
    ensures |ds| == if |coil| == 0 then 0 else |coil| - 1
    ensures forall i :: 0 <= i < |ds| ==> ds[i] == Displacement(coil[i + 1], coil[i])
  {
    var ws := Windows(coil);
    seq(|ws|, i requires 0 <= i < |ws| => Displacement(ws[i][1], ws[i][0]))
  }

  /** `compute_all_displacements`: the displacements of every coil, coil by coil. */
  function AllDisplacements(coils: seq<seq<Point>>): (all: seq<seq<Point>>)
    ensures |all| == |coils|
    ensures forall c :: 0 <= c < |coils| ==> all[c] == Displacements(coils[c])
  {
    if coils == [] then [] else [Displacements(coils[0])] + AllDisplacements(coils[1..])
  }

  /** `compute_e_roof`: the unit vector of each displacement, in the same order. */
  function ERoof(dev: Device, ds: seq<Point>): (es: seq<Point>)
    ensures |es| == |ds|
    ensures forall i :: 0 <= i < |ds| ==> es[i] == dev.unitVector(ds[i])
  {
    if ds == [] then [] else [dev.unitVector(ds[0])] + ERoof(dev, ds[1..])
  }

  /** `compute_all_e_roof`: the unit vectors of every coil's displacements, coil by coil. */
  function AllERoof(dev: Device, all: seq<seq<Point>>): (es: seq<seq<Point>>)
    ensures |es| == |all|
    ensures forall c :: 0 <= c < |all| ==> es[c] == ERoof(dev, all[c])
  {
    if all == [] then [] else [ERoof(dev, all[0])] + AllERoof(dev, all[1..])
  }

  /** The geometry precomputed from `coils` is aligned with them: one entry per coil, and
      for each coil one displacement and one unit vector per segment, entry i belonging
      to the segment from node i to node i + 1. */
  lemma PrecomputeIsAligned(dev: Device, coils: seq<seq<Point>>)
    ensures var ds := AllDisplacements(coils);
            var es := AllERoof(dev, ds);
            && |ds| == |es| == |coils|
            && forall c :: 0 <= c < |coils| ==>
                 && |ds[c]| == |es[c]| == |Windows(coils[c])|
                 && forall i :: 0 <= i < |ds[c]| ==>
                      && ds[c][i] == Displacement(coils[c][i + 1], coils[c][i])
                      && es[c][i] == dev.unitVector(ds[c][i])
  {
  }
}
