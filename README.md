# Field-line tracer of BS-Solctra (Rust port), modelled in Dafny

BS-Solctra traces magnetic field lines in a stellarator. Each particle is a point in space.
It is moved step by step along the direction of the magnetic field of a set of coils. Each
coil is an open polyline: n nodes give n − 1 straight segments, and the last node is joined
to the first only if the coil's file repeats the first node at the end. The field at a point
is the Biot–Savart sum over every straight segment of every coil. A step is one classical fourth-order Runge–Kutta (RK4) step
of fixed length along the normalised field. A particle that leaves the torus is "divergent":
it is parked at the sentinel position (`MINOR_RADIUS`, `MINOR_RADIUS`, `MINOR_RADIUS`) and
stays there. The positions of all particles are written out before the first step and
after every `write_frequency`-th step.

This project models the core of that program, `src/simulation.rs`:

- `vectors.dfy` (`Vectors`): the `Point` record with exact real coordinates, vector
  addition, displacement and the cross product.
- `numerics.dfy` (`Numerics`): the `Device` record. It holds the physical constants and the
  operations kept abstract: norm, distance, unit vector and floating-point division.
- `geometry.dfy` (`Geometry`): the precomputed segment geometry (`compute_displacements`,
  `compute_e_roof` and their `_all_` forms). These are pure maps, modelled as functions.
- `field.dfy` (`Field`): `compute_magnetic_field`. The nested loops are modelled as a method.
  It is proved equal to a specification function: the sum of the contributions of the
  segments that the two zips pair.
- `tracer.dfy` (`Tracer`): `simulate_step`. It is modelled as a method that updates its
  stages and its result field by field. It is proved equal to the function `Step`: RK4,
  then the containment rule.
- `coordinator.dfy` (`Coordinator`): `simulate_particles`.
  - The particles are an `array<Point>`, updated in place step after step.
  - The snapshots are appended to a ghost log of `Checkpoint`s, not written to files.
  - The method is proved against `Evolve` and `Checkpoints`.
  - Lemmas state the schedule of the snapshots, how many there are, their order, that
    particles are independent, and that a divergent particle stays divergent.

Two properties of the code that a reader might expect otherwise:

- The y line of the field update (`src/simulation.rs:53`) subtracts u.x·v.z − u.z·v.x.
  Together the three lines add exactly the ordinary right-handed u × v
  (`Field.UpdateIsCrossProduct`, `Vectors.CrossIsRightHanded`).
- Nothing guards a zero field norm: lines 68-71 divide by it whatever it is. The model keeps
  that division abstract and adds no divergence rule.

## Model

| member | source | states |
|---|---|---|
| Vectors.Displacement | src/simulation.rs:30-31 | `get_displacement` gives the vector that leads from the second point to the first: adding it to the second point gives the first, and it is zero exactly when the points coincide |
| Vectors.CrossIsRightHanded | src/simulation.rs:52-54 | the cross product the update computes is the right-handed one: x × y = z |
| Vectors.CrossOrthogonalAntisymmetric | src/simulation.rs:52-54 | u × v is perpendicular to u and to v, and v × u = −(u × v) |
| Geometry.Windows | src/simulation.rs:26-31 | `windows(2)` yields max(n − 1, 0) windows; window i is elements i and i + 1, so each has exactly two elements and the unchecked accesses to elements 0 and 1 are in bounds |
| Geometry.Displacements | src/simulation.rs:188-192 | a coil of n ≥ 1 nodes has n − 1 displacements (none for an empty coil); entry i is node i + 1 minus node i |
| Geometry.AllDisplacements | src/simulation.rs:194-196 | one displacement array per coil, in coil order, entry c being the displacements of coil c |
| Geometry.ERoof | src/simulation.rs:198-203 | as many unit vectors as displacements; entry i is the unit vector of displacement i |
| Geometry.AllERoof | src/simulation.rs:205-210 | one unit-vector array per displacement array, in the same order |
| Geometry.PrecomputeIsAligned | src/simulation.rs:188-210 | the precomputed geometry has one entry per coil, and for each coil one displacement and one unit vector per window, entry i belonging to the segment from node i to node i + 1 |
| Numerics.Device.Sentinel | src/simulation.rs:143-147 | defines the divergent position: `MINOR_RADIUS` in all three coordinates |
| Field.Multiplier | src/simulation.rs:16 | defines the factor (`MIU` · `I`) / (4 · `PI`) |
| Field.BiotSavartFactor | src/simulation.rs:40-42 | defines c from the segment length and the distances to the segment's two ends, with both divisions left to the abstract f64 division |
| Field.SegmentField | src/simulation.rs:30-54 | defines one segment's contribution u × v, with rmi and rmf measured from the particle to nodes 0 and 1, u = multiplier · e and v = c · rmi |
| Field.MagneticField | src/simulation.rs:10-58 | defines the field as the left-to-right sum, from zero, of the contributions of the segments that the two zips pair |
| Field.ZipCoils | src/simulation.rs:23-24 | the outer zip pairs coil k with unit-vector array k and displacement array k, and stops at the shortest of the three |
| Field.ZipSegments | src/simulation.rs:26-28 | the inner zip pairs window i with unit vector i and displacement i, and stops at the shortest of the three; each segment has two nodes |
| Field.Segments | src/simulation.rs:23-29 | every segment the nested loops visit has exactly two nodes |
| Field.UpdateIsCrossProduct | src/simulation.rs:52-54 | the three component updates of `b`, with the subtraction on the y line, add exactly u × v to `b` |
| Field.AddSegment | src/simulation.rs:30-54 | one pass of the inner loop body adds the segment's contribution u × v, where u = multiplier · e and v = c · rmi, to `b` |
| Field.ComputeMagneticField | src/simulation.rs:10-58 | starting from zero, the nested loops return the sum of the contributions of every paired segment, in loop order |
| Field.ContributionCount | src/simulation.rs:23-29 | the number of contributions is the sum over zipped coils of min(max(nodes − 1, 0), unit vectors, displacements) |
| Field.NoSegmentsNoField | src/simulation.rs:17-29 | with no coils, or only coils of fewer than two nodes, the field is the zero vector |
| Field.PrecomputedGeometryPairsEverySegment | src/simulation.rs:23-28 | with the geometry precomputed from the same coils, neither zip truncates: every segment of every coil contributes exactly once |
| Field.PrecomputedGeometryVisitsEverySegment | src/simulation.rs:23-29 | with the geometry precomputed from the same coils, the outer zip keeps every coil and the inner zip of coil c visits each of its max(n − 1, 0) segments, segment i being nodes i and i + 1 with unit vector i and displacement i |
| Field.Superposition | src/simulation.rs:23-56 | the field of two sets of coils, the first fully paired with its geometry, is the sum of the two fields |
| Tracer.Normalized | src/simulation.rs:68-71 | defines a stage from a field value: each component divided by the norm, times the step size |
| Tracer.Slope | src/simulation.rs:67-71 | defines the stage at a point: the normalised field there |
| Tracer.Combine | src/simulation.rs:104-108 | defines the RK4 update p + (k1 + 2·k2 + 2·k3 + k4)/6 |
| Tracer.Rk4 | src/simulation.rs:67-108 | defines the position before containment: stages at p, p + k1/2, p + k2/2 and p + k3, then combined |
| Tracer.CirclePoint | src/simulation.rs:115-119 | defines the point of the major-radius circle in the direction of the projection: `MAJOR_RADIUS` · p / norm(p), with z = 0 |
| Tracer.ContainmentDistance | src/simulation.rs:110-121 | defines the distance from the position to that circle point, the position projected onto z = 0 first |
| Tracer.Contain | src/simulation.rs:122-126 | defines the containment rule: the sentinel when the distance is strictly greater than `MINOR_RADIUS`, the position otherwise |
| Tracer.Step | src/simulation.rs:60-129 | defines what `simulate_step` returns: the containment rule applied to the RK4 position |
| Tracer.NormalizeInPlace | src/simulation.rs:68-71 | the in-place updates divide all three components by the norm taken before the first update, then multiply by the step size |
| Tracer.Stage | src/simulation.rs:67-71 | a stage is the field at the stage point, normalised and scaled |
| Tracer.ContainInPlace | src/simulation.rs:110-128 | the result is replaced by the sentinel exactly when its distance from the major-radius circle exceeds `MINOR_RADIUS`, and is kept otherwise |
| Tracer.SimulateStep | src/simulation.rs:60-129 | the step takes stages at p, p + k1/2, p + k2/2 and p + k3, combines them as p + (k1 + 2·k2 + 2·k3 + k4)/6, and applies the containment rule |
| Tracer.CombineComponents | src/simulation.rs:104-108 | the component formulas of `result` are the RK4 weighted mean of the four stages added to p |
| Tracer.CombineOfEqualStages | src/simulation.rs:104-108 | the RK4 weights sum to one: four equal stages k move p by exactly k |
| Tracer.StepOutcome | src/simulation.rs:121-128 | a step ends at the sentinel exactly when the RK4 position is farther than `MINOR_RADIUS` from the circle or is the sentinel itself; otherwise it ends at the RK4 position |
| Tracer.BoundaryIsContained | src/simulation.rs:122 | the comparison is strict: a position exactly `MINOR_RADIUS` from the circle is kept |
| Coordinator.TracerRule | src/simulation.rs:142-160 | the rule of the loop steps particles by `simulate_step` and treats the sentinel as divergent |
| Coordinator.Update | src/simulation.rs:157-159 | defines one particle over one step: frozen at the divergent position, moved by the step otherwise |
| Coordinator.Trajectory | src/simulation.rs:155-160 | defines one particle after n steps, on its own |
| Coordinator.Advance | src/simulation.rs:156-160 | one step keeps the number of particles |
| Coordinator.Evolve | src/simulation.rs:155-160 | any number of steps keeps the number of particles |
| Coordinator.Checkpoints | src/simulation.rs:151-166 | the first snapshot is step 0 with the initial positions; every snapshot holds one position per particle and a step within the run |
| Coordinator.UpdateParticle | src/simulation.rs:157-159 | the closure leaves a particle at the sentinel unchanged and replaces any other one by `simulate_step` of it |
| Coordinator.StepParticles | src/simulation.rs:156-160 | one pass of the parallel loop updates every particle, in place, by the closure, each from its own previous position |
| Coordinator.SimulateParticles | src/simulation.rs:131-167 | after the run the particles are the initial ones evolved by `total_steps` steps, and the snapshots written are exactly `Checkpoints` of the run |
| Coordinator.EvolveIsPerParticle | src/simulation.rs:156-160 | particles do not interact: after n steps each particle is where its own trajectory puts it |
| Coordinator.DivergedStaysDiverged | src/simulation.rs:157 | a particle that reaches the sentinel is at the sentinel at every later step |
| Coordinator.LiveParticleSteps | src/simulation.rs:157-159 | a particle not at the sentinel moves by exactly one `simulate_step` |
| Coordinator.CheckpointSnapshots | src/simulation.rs:151-166 | each snapshot carries the caller's rank and the positions after its own step |
| Coordinator.CheckpointOrder | src/simulation.rs:155-166 | snapshots are written in strictly increasing step order |
| Coordinator.CheckpointSchedule | src/simulation.rs:151-166 | a snapshot is written at step s exactly when s = 0, or 1 ≤ s ≤ `total_steps` and `write_frequency` divides s |
| Coordinator.CheckpointCount | src/simulation.rs:151-166 | a run writes 1 + `total_steps` / `write_frequency` snapshots |
| Coordinator.DivergedInLaterSnapshots | src/simulation.rs:155-166 | a particle at the sentinel in one snapshot is at the sentinel in every later snapshot of the run |
| Coordinator.WrappingAdd | src/simulation.rs:155 | u32 addition in a release build: the sum when it fits, the sum minus 2^32 when it does not |
| Coordinator.StepsRunAsWrittenWraps | src/simulation.rs:155 | the step range as written runs `total_steps` steps for every `total_steps` below `u32::MAX`, and none at `u32::MAX` |

## Left out

- Floating point: coordinates are exact reals, so rounding, infinities and NaN are not modelled. `+`, `−`, `·` and division by the constants 2.0 and 6.0 are exact.
- Numerics.Device: `get_norm`, `get_distance` and `get_unit_vector` are uninterpreted functions (they need square roots), and f64 division by a computed value is uninterpreted because such divisors can be zero. The divisors are the field norm, the projected norm and the Biot–Savart denominators. The value of the Biot–Savart factor `c` is therefore not modelled, only its place in the update.
- The constants `MIU`, `I`, `PI`, `MAJOR_RADIUS` and `MINOR_RADIUS`: the file that defines them is not part of this model, so they are fields of `Device`.
- Coordinator.SimulateParticles: the sentinel test is exact equality of reals. With f64, a NaN position differs from the sentinel, so it would keep being stepped; the model has no NaN.
- Coordinator.SimulateParticles: requires `write_frequency > 0` whenever at least one step runs, because `step % write_frequency` panics on a zero divisor.
- Coordinator.SimulateParticles: its specification is stated for a ghost rule `t` that `IsTracerRule` ties to `simulate_step` and the sentinel. `TracerRule` is such a rule.
- Coordinator.StepParticles: the rayon `par_iter_mut` loop runs sequentially. The closure only reads and writes its own particle, so the order does not change the result.
- File I/O: `write_points_to_file` becomes an append to the ghost log, and its error panic is not modelled. `read_coil_data_directory` (directory listing, sorting and reading of coil files) is not modelled.
- `output_dir` and the `debug!` logging calls are not modelled.
- `src/main.rs` is not modelled: MPI start-up, scatter and barriers, argument parsing, directory creation and timing. Its one computation, `particles_per_rank = max_particles / world_size`, drops the remainder particles and is not modelled either.
- `point.rs` (the `Point` type, its operations and its file format) is not part of this model.

## Findings

| source | as written | input that shows it | evidently intended | confidence | as-written member | corrected member |
|---|---|---|---|---|---|---|
| src/simulation.rs:155 | `for step in 1..total_steps + 1` computes the range end in u32 | `total_steps = 4294967295` (`u32::MAX`): the end wraps to 0 in a release build, so the range `1..0` runs no step at all (a debug build panics on the overflow) | run steps 1 to `total_steps` inclusive (`1..=total_steps`) | not executed; follows from u32 wrap-around | Coordinator.StepsRunAsWrittenWraps | Coordinator.SimulateParticles |
