/** The driver loop (`simulate_particles`): every step advances each live particle by one
    tracer step and leaves divergent ones where they are; a snapshot of all positions is
    written before the first step and after every step divisible by the write frequency.
    Snapshots are modelled as appends to a ghost log instead of file writes. */
module Coordinator {
  import opened Vectors
  import opened Numerics
  import opened Tracer

  newtype u32 = x: int | 0 <= x < 0x1_0000_0000
  newtype i32 = x: int | -0x8000_0000 <= x < 0x8000_0000

  const U32Max: u32 := 0xFFFF_FFFF

  /** How one particle moves over one step of the loop: the tracer step, and the position
      at which a particle counts as divergent and is left alone. */
  datatype Rule = Rule(step: Point -> Point, divergent: Point)

  /** `t` is the rule `simulate_particles` applies: its step is `simulate_step` with the
      run's coils, geometry and step size, and its divergent position the sentinel. The
      step is tied to `Step` only where a `Step` term is at hand, so that reasoning about
      the loop does not unfold the tracer for every particle. */
  ghost predicate IsTracerRule(t: Rule, dev: Device, coils: seq<seq<Point>>, displacements: seq<seq<Point>>,
                               eRoof: seq<seq<Point>>, stepSize: real)
  {
    && t.divergent == dev.Sentinel()
    && forall q {:trigger Step(dev, q, coils, displacements, eRoof, stepSize)} ::
         t.step(q) == Step(dev, q, coils, displacements, eRoof, stepSize)
  }

  /** The rule built from `simulate_step` and the sentinel. */
  function TracerRule(dev: Device, coils: seq<seq<Point>>, displacements: seq<seq<Point>>,
                      eRoof: seq<seq<Point>>, stepSize: real): (t: Rule)
    ensures IsTracerRule(t, dev, coils, displacements, eRoof, stepSize)
  {
    Rule(q => Step(dev, q, coils, displacements, eRoof, stepSize), dev.Sentinel())
  }

  /** One snapshot as `write_points_to_file` receives it: the step, the rank and every position. */
  datatype Checkpoint = Checkpoint(step: nat, rank: int, positions: seq<Point>)

  /** One particle over one step: a divergent particle is frozen, any other one is
      replaced by the step from its position. */
  function Update(t: Rule, q: Point): Point {
    if q == t.divergent then q else t.step(q)
  }

  /** All particles over one step. */
  function Advance(t: Rule, ps: seq<Point>): (r: seq<Point>)
    ensures |r| == |ps|
  {
    seq(|ps|, i requires 0 <= i < |ps| => Update(t, ps[i]))
  }

  /** All particles after `n` steps. */
  function Evolve(t: Rule, ps: seq<Point>, n: nat): (r: seq<Point>)
    ensures |r| == |ps|
  {
    if n == 0 then ps else Advance(t, Evolve(t, ps, n - 1))
  }

  /** One particle after `n` steps, on its own. */
  function Trajectory(t: Rule, q: Point, n: nat): Point {
    if n == 0 then q else Update(t, Trajectory(t, q, n - 1))
  }

  /** The snapshots written by a run of `steps` steps from `ps0`: step 0 first, then one
      after every step divisible by `wf`. */
  function Checkpoints(t: Rule, ps0: seq<Point>, steps: nat, wf: nat, rank: int): (log: seq<Checkpoint>)
    requires wf > 0 || steps == 0
    ensures |log| >= 1 && log[0] == Checkpoint(0, rank, ps0)
    ensures forall k :: 0 <= k < |log| ==> |log[k].positions| == |ps0| && log[k].step <= steps
  {
    if steps == 0 then [Checkpoint(0, rank, ps0)]
    else
      var log := Checkpoints(t, ps0, steps - 1, wf, rank);
      if steps % wf == 0 then log + [Checkpoint(steps, rank, Evolve(t, ps0, steps))] else log
  }

  /** The closure of the parallel loop of `simulate_particles`, for one particle: unless it
      is at the divergent sentinel, it is replaced by `simulate_step` of its position. */
  method UpdateParticle(ghost t: Rule, dev: Device, particle: Point, stepSize: real,
                        coils: seq<seq<Point>>, displacements: seq<seq<Point>>, eRoof: seq<seq<Point>>)
    returns (next: Point)
    requires IsTracerRule(t, dev, coils, displacements, eRoof, stepSize)
    ensures next == Update(t, particle)
  {
    var divergent := Point(dev.minorRadius, dev.minorRadius, dev.minorRadius);
    next := particle;
    if particle != divergent {
      next := SimulateStep(dev, particle, coils, displacements, eRoof, stepSize);
    }
  }

  /** One pass of the parallel loop of `simulate_particles`: every particle is updated in
      place. The updates of different particles are independent, so they run here one
      after another. */
  method StepParticles(ghost t: Rule, dev: Device, particles: array<Point>, stepSize: real,
                       coils: seq<seq<Point>>, displacements: seq<seq<Point>>, eRoof: seq<seq<Point>>)
    requires IsTracerRule(t, dev, coils, displacements, eRoof, stepSize)
    modifies particles
    ensures particles[..] == Advance(t, old(particles[..]))
  {
    for i := 0 to particles.Length
      invariant forall j :: 0 <= j < i ==> particles[j] == Update(t, old(particles[j]))
      invariant forall j :: i <= j < particles.Length ==> particles[j] == old(particles[j])
    {
      particles[i] := UpdateParticle(t, dev, particles[i], stepSize, coils, displacements, eRoof);
    }
  }

  /** `simulate_particles`. The step range runs 1 to `total_steps` inclusive (its end is
      computed without u32 wrap-around; see `StepsRunAsWritten`), each step updates the
      particles in place one by one, and the ghost `log` receives the snapshots. */
  method SimulateParticles(ghost t: Rule, dev: Device, particles: array<Point>, totalSteps: u32, stepSize: real,
                           coils: seq<seq<Point>>, displacements: seq<seq<Point>>, eRoof: seq<seq<Point>>,
                           writeFrequency: u32, rank: i32)
    returns (ghost log: seq<Checkpoint>)
    requires IsTracerRule(t, dev, coils, displacements, eRoof, stepSize)
    requires writeFrequency > 0 || totalSteps == 0
    modifies particles
    ensures particles[..] == Evolve(t, old(particles[..]), totalSteps as nat)
    ensures log == Checkpoints(t, old(particles[..]), totalSteps as nat, writeFrequency as nat, rank as int)
  {
    ghost var initial := particles[..];
    log := [Checkpoint(0, rank as int, particles[..])];
    for step := 1 to totalSteps as int + 1
      invariant particles[..] == Evolve(t, initial, step - 1)
      invariant log == Checkpoints(t, initial, step - 1, writeFrequency as nat, rank as int)
    {
      StepParticles(t, dev, particles, stepSize, coils, displacements, eRoof);
      if step % writeFrequency as int == 0 {
        log := log + [Checkpoint(step, rank as int, particles[..])];
      }
    }
  }

  /** Particles do not interact: after `n` steps each particle is where its own trajectory
      puts it, whatever the others do. */
  lemma {:induction false} EvolveIsPerParticle(t: Rule, ps: seq<Point>, n: nat)
    ensures forall i :: 0 <= i < |ps| ==> Evolve(t, ps, n)[i] == Trajectory(t, ps[i], n)
  {
    if n > 0 {
      EvolveIsPerParticle(t, ps, n - 1);
    }
  }

  /** A particle that has reached the sentinel is still there at every later step. */
  lemma {:induction false} DivergedStaysDiverged(t: Rule, q: Point, m: nat, n: nat)
    requires m <= n
    requires Trajectory(t, q, m) == t.divergent
    ensures Trajectory(t, q, n) == t.divergent
  {
    if m < n {
      DivergedStaysDiverged(t, q, m, n - 1);
    }
  }

  /** A live particle moves by exactly one step. */
  lemma LiveParticleSteps(t: Rule, q: Point, n: nat)
    requires Trajectory(t, q, n) != t.divergent
    ensures Trajectory(t, q, n + 1) == t.step(Trajectory(t, q, n))
  {
  }

  /** Snapshot `k` holds the caller's rank and the positions after its own step. */
  lemma {:induction false} CheckpointSnapshots(t: Rule, ps0: seq<Point>, steps: nat, wf: nat, rank: int,
                                               log: seq<Checkpoint>)
    requires wf > 0 || steps == 0
    requires log == Checkpoints(t, ps0, steps, wf, rank)
    ensures forall k :: 0 <= k < |log| ==> log[k].rank == rank && log[k].positions == Evolve(t, ps0, log[k].step)
  {
    if steps > 0 {
      var prev := Checkpoints(t, ps0, steps - 1, wf, rank);
      CheckpointSnapshots(t, ps0, steps - 1, wf, rank, prev);
      if steps % wf == 0 {
        assert log == prev + [Checkpoint(steps, rank, Evolve(t, ps0, steps))];
        forall k | 0 <= k < |log|
          ensures log[k].rank == rank && log[k].positions == Evolve(t, ps0, log[k].step)
        {
          if k < |prev| {
            assert log[k] == prev[k];
          }
        }
      }
    }
  }

  /** Snapshots are written in strictly increasing step order. */
  lemma {:induction false} CheckpointOrder(t: Rule, ps0: seq<Point>, steps: nat, wf: nat, rank: int,
                                           log: seq<Checkpoint>)
    requires wf > 0 || steps == 0
    requires log == Checkpoints(t, ps0, steps, wf, rank)
    ensures forall j, k :: 0 <= j < k < |log| ==> log[j].step < log[k].step
  {
    if steps > 0 {
      var prev := Checkpoints(t, ps0, steps - 1, wf, rank);
      CheckpointOrder(t, ps0, steps - 1, wf, rank, prev);
      if steps % wf == 0 {
        assert log == prev + [Checkpoint(steps, rank, Evolve(t, ps0, steps))];
        forall j, k | 0 <= j < k < |log|
          ensures log[j].step < log[k].step
        {
          assert log[j] == prev[j];
          if k < |prev| {
            assert log[k] == prev[k];
          }
        }
      }
    }
  }

  /** A snapshot is written at step `s` exactly when `s` is 0 or a step of the run that
      `wf` divides. */
  lemma {:induction false} CheckpointSchedule(t: Rule, ps0: seq<Point>, steps: nat, wf: nat, rank: int,
                                              log: seq<Checkpoint>, s: int)
    requires wf > 0 || steps == 0
    requires log == Checkpoints(t, ps0, steps, wf, rank)
    ensures (exists k :: 0 <= k < |log| && log[k].step == s)
            <==> s == 0 || (1 <= s <= steps && s % wf == 0)
  {
    if steps > 0 {
      var prev := Checkpoints(t, ps0, steps - 1, wf, rank);
      CheckpointSchedule(t, ps0, steps - 1, wf, rank, prev, s);
      if s == steps {
        assert forall k :: 0 <= k < |prev| ==> prev[k].step <= steps - 1;
        if s % wf == 0 {
          assert log[|log| - 1].step == s;
        }
      } else {
        assert (exists k :: 0 <= k < |log| && log[k].step == s) <==> (exists k :: 0 <= k < |prev| && prev[k].step == s) by {
          if exists k :: 0 <= k < |log| && log[k].step == s {
            var k :| 0 <= k < |log| && log[k].step == s;
            assert k < |prev|;
            assert prev[k].step == s;
          }
          if exists k :: 0 <= k < |prev| && prev[k].step == s {
            var k :| 0 <= k < |prev| && prev[k].step == s;
            assert log[k] == prev[k];
          }
        }
      }
    } else {
      assert log == [Checkpoint(0, rank, ps0)];
      if s == 0 {
        assert log[0].step == s;
      }
    }
  }

  /** d·x is at least d for every positive x. */
  lemma MulAtLeast(d: int, x: int)
    requires d > 0 && x >= 1
    ensures d * x >= d
  {
    if x > 1 {
      MulAtLeast(d, x - 1);
      assert d * x == d * (x - 1) + d;
    }
  }

  /** The quotient is the only q with n = d·q + r and 0 <= r < d. */
  lemma DivUnique(n: int, d: int, q: int, r: int)
    requires d > 0 && n == d * q + r && 0 <= r < d
    ensures n / d == q
  {
    var q', r' := n / d, n % d;
    assert n == d * q' + r';
    if q' < q {
      MulAtLeast(d, q - q');
    } else if q' > q {
      MulAtLeast(d, q' - q);
    }
  }

  /** Division by a positive divisor gains one exactly at the multiples of the divisor. */
  lemma DivSucc(n: nat, d: nat)
    requires d > 0 && n >= 1
    ensures n / d == (n - 1) / d + (if n % d == 0 then 1 else 0)
  {
    var q, r := (n - 1) / d, (n - 1) % d;
    assert n - 1 == d * q + r;
    if r == d - 1 {
      assert n == d * (q + 1) + 0;
      DivUnique(n, d, q + 1, 0);
      assert n % d == 0;
    } else {
      DivUnique(n, d, q, r + 1);
      assert n % d == r + 1;
    }
  }

  /** A run of `steps` steps writes 1 + steps / wf snapshots. */
  lemma {:induction false} CheckpointCount(t: Rule, ps0: seq<Point>, steps: nat, wf: nat, rank: int)
    requires wf > 0
    ensures |Checkpoints(t, ps0, steps, wf, rank)| == 1 + steps / wf
  {
    if steps > 0 {
      CheckpointCount(t, ps0, steps - 1, wf, rank);
      DivSucc(steps, wf);
    }
  }

  /** Once a particle is at the sentinel in one snapshot it is at the sentinel in every
      later snapshot of the same run. */
  lemma DivergedInLaterSnapshots(t: Rule, ps0: seq<Point>, steps: nat, wf: nat, rank: int,
                                 i: nat, j: nat, k: nat)
    requires wf > 0 || steps == 0
    requires i < |ps0| && j <= k < |Checkpoints(t, ps0, steps, wf, rank)|
    requires Checkpoints(t, ps0, steps, wf, rank)[j].positions[i] == t.divergent
    ensures Checkpoints(t, ps0, steps, wf, rank)[k].positions[i] == t.divergent
  {
    var log := Checkpoints(t, ps0, steps, wf, rank);
    CheckpointSnapshots(t, ps0, steps, wf, rank, log);
    CheckpointOrder(t, ps0, steps, wf, rank, log);
    EvolveIsPerParticle(t, ps0, log[j].step);
    EvolveIsPerParticle(t, ps0, log[k].step);
    DivergedStaysDiverged(t, ps0[i], log[j].step, log[k].step);
  }

  /** `a + b` on u32 in a release build: the sum wrapped modulo 2^32. */
  function WrappingAdd(a: u32, b: u32): (r: u32)
    ensures a as int + b as int <= U32Max as int ==> r as int == a as int + b as int
    ensures a as int + b as int > U32Max as int ==> r as int == a as int + b as int - 0x1_0000_0000
  {
    ((a as int + b as int) % 0x1_0000_0000) as u32
  }

  /** How many times the body of `for s in start..end` runs. */
  function RangeLength(start: u32, end: u32): nat {
    if start < end then (end - start) as nat else 0
  }

  /** The steps `simulate_particles` runs as written: the range `1..total_steps + 1` whose
      end is computed in u32. */
  function StepsRunAsWritten(totalSteps: u32): nat {
    RangeLength(1, WrappingAdd(totalSteps, 1))
  }

  /** The range as written runs every requested step except at `u32::MAX`, where its end
      wraps to 0 and no step runs at all. */
  lemma StepsRunAsWrittenWraps(totalSteps: u32)
    ensures totalSteps < U32Max ==> StepsRunAsWritten(totalSteps) == totalSteps as nat
    ensures StepsRunAsWritten(U32Max) == 0
  {
  }
}
