// Deterministic versus nondeterministic simulation: a 64-bit linear
// congruential generator, two simulations driven by it, particles that fall
// under gravity, and the desync check and resync between the two sides.
module NondeterminismAndYou {
  import opened Common

  // ---------------------------------------------------------------------
  // The generator
  // ---------------------------------------------------------------------

  /** One step of the generator: multiply and add, both wrapping at 64 bits. */
  function LcgStep(s: bv64): bv64 {
    s * 1103515245 + 12345
  }

  /** The value a draw returns from the new seed: `(seed >> 16) as u32`, bits 16 to 47. */
  function Output(s: bv64): bv32 {
    ((s >> 16) & 0xFFFF_FFFF) as bv32
  }

  /** The seed after `n` draws. */
  function Stream(s: bv64, n: nat): bv64 {
    if n == 0 then s else LcgStep(Stream(s, n - 1))
  }

  /** The first `n` values drawn from seed `s`. */
  function Draws(s: bv64, n: nat): (d: seq<bv32>)
    ensures |d| == n
  {
    if n == 0 then [] else Draws(s, n - 1) + [Output(Stream(s, n))]
  }

  /** Drawing `m` times and then `n` more is drawing `m + n` times. */
  lemma {:induction false} StreamAdd(s: bv64, m: nat, n: nat)
    ensures Stream(Stream(s, m), n) == Stream(s, m + n)
  {
    if n > 0 {
      StreamAdd(s, m, n - 1);
    }
  }

  /**
   * What is drawn after the first `m` draws depends only on the seed reached:
   * a generator restarted from that seed continues the same sequence.
   */
  lemma {:induction false} DrawsSplit(s: bv64, m: nat, n: nat)
    ensures Draws(s, m + n) == Draws(s, m) + Draws(Stream(s, m), n)
  {
    hide LcgStep, Output;
    if n > 0 {
      DrawsSplit(s, m, n - 1);
      StreamAdd(s, m, n);
      assert Draws(Stream(s, m), n) == Draws(Stream(s, m), n - 1) + [Output(Stream(s, m + n))];
    }
  }

  /** `next_u32 as f32 / u32::MAX as f32`, over the reals: a value in [0, 1]. */
  function Unit(u: bv32): (f: real)
    ensures 0.0 <= f <= 1.0
    ensures f == 0.0 <==> u == 0
  {
    u as real / 4294967295.0
  }

  // ---------------------------------------------------------------------
  // range_i32
  // ---------------------------------------------------------------------

  /** `u as i32` for a `u32` value `n`: the same 32 bits read as a two's-complement integer. */
  function AsI32(n: int): (i: int)
    requires 0 <= n < 0x1_0000_0000
    ensures -0x8000_0000 <= i < 0x8000_0000
    ensures i % 0x1_0000_0000 == n
    ensures i < 0 <==> n >= 0x8000_0000
  {
    if n < 0x8000_0000 then n else n - 0x1_0000_0000
  }

  /** Rust's `%` on integers: the remainder takes the sign of the dividend. */
  function RemTrunc(a: int, b: int): (r: int)
    requires b != 0
    ensures a >= 0 ==> 0 <= r < (if b > 0 then b else -b)
    ensures a < 0 ==> -(if b > 0 then b else -b) < r <= 0
  {
    var m := if b > 0 then b else -b;
    if a >= 0 then a % m else -((-a) % m)
  }

  /** `range_i32` as written: `min + (draw as i32 % (max - min + 1))`. */
  function RangeAsWritten(u: bv32, min: int, max: int): int
    requires max - min + 1 != 0
  {
    min + RemTrunc(AsI32(u as int), max - min + 1)
  }

  /** As written, a draw below 2^31 lands in [min, max]... */
  lemma AsWrittenBelowHalf(u: bv32, min: int, max: int)
    requires min <= max && u as int < 0x8000_0000
    ensures min <= RangeAsWritten(u, min, max) <= max
    ensures RangeAsWritten(u, min, max) == Range(u, min, max)
  {
  }

  /**
   * ...but one at or above 2^31 reads as negative and can land below `min`:
   * from the demo's seed 12345 the third draw is 0xC639_D665, and
   * `range_i32(0, 5)` on it gives -1, so `random_particle_count` would cast
   * -1 to `usize`.
   */
  lemma AsWrittenEscapesRange()
    ensures Draws(12345, 3) == [0x0C63_D3DC, 0x6EFD_A704, 0xC639_D665]
    ensures RangeAsWritten(Draws(12345, 3)[2], 0, 5) == -1
  {
    assert Stream(12345, 1) == 0x0C63_D3DC_167E;
    assert Stream(12345, 2) == 0xF1CC_6EFD_A704_27DF;
    assert Stream(12345, 3) == 0x7D73_C639_D665_1C2C;
  }

  /** The evidently intended `range_i32`: the draw taken modulo the width of the range, unsigned. */
  function Range(u: bv32, min: int, max: int): (r: int)
    requires min <= max
    ensures min <= r <= max
    ensures (r - min) % (max - min + 1) == u as int % (max - min + 1)
  {
    min + u as int % (max - min + 1)
  }

  /** `DeterministicRandom`: a seed, advanced by one generator step per draw. */
  class DeterministicRandom {
    var seed: bv64

    constructor (seed: bv64)
      ensures this.seed == seed
    {
      this.seed := seed;
    }

    /** `next_u32`: one step of the generator, and bits 16 to 47 of the new seed. */
    method NextU32() returns (r: bv32)
      modifies this
      ensures seed == LcgStep(old(seed)) && r == Output(seed)
    {
      seed := seed * 1103515245 + 12345;
      r := ((seed >> 16) & 0xFFFF_FFFF) as bv32;
    }

    /** `next_f32`: one draw scaled into [0, 1]. */
    method NextF32() returns (f: real)
      modifies this
      ensures seed == LcgStep(old(seed)) && f == Unit(Output(seed))
    {
      var u := NextU32();
      f := u as real / 4294967295.0;
    }

    /** `next_bool`: true when one scaled draw falls below `probability`. */
    method NextBool(probability: real) returns (b: bool)
      modifies this
      ensures seed == LcgStep(old(seed))
      ensures b <==> Unit(Output(seed)) < probability
      ensures probability <= 0.0 ==> !b
      ensures probability > 1.0 ==> b
    {
      var f := NextF32();
      b := f < probability;
    }

    /** `range_i32`, corrected: one draw, reduced into [min, max]. */
    method RangeI32(min: int, max: int) returns (r: int)
      requires min <= max
      modifies this
      ensures seed == LcgStep(old(seed)) && r == Range(Output(seed), min, max)
      ensures min <= r <= max
    {
      var u := NextU32();
      r := min + u as int % (max - min + 1);
    }
  }

  /** Two generators with the same seed give the same values and stay in step. */
  method Lockstep(a: DeterministicRandom, b: DeterministicRandom, p: real)
    returns (ua: bv32, ub: bv32, fa: bool, fb: bool)
    requires a != b && a.seed == b.seed
    modifies a, b
    ensures ua == ub && fa == fb && a.seed == b.seed
    ensures a.seed == Stream(old(a.seed), 2)
  {
    ghost var s0 := a.seed;
    assert Stream(s0, 1) == LcgStep(s0);
    ua := a.NextU32();
    ub := b.NextU32();
    fa := a.NextBool(p);
    fb := b.NextBool(p);
  }

  // ---------------------------------------------------------------------
  // Simulations
  // ---------------------------------------------------------------------

  /** `SimulationMode`: whether draws come from the seeded generator, and the tick count. */
  class SimulationMode {
    var deterministic: bool
    const rng: DeterministicRandom
    var tickNumber: nat

    /** `SimulationMode::new`: tick 0 and a generator at `seed`. */
    constructor (deterministic: bool, seed: bv64)
      ensures this.deterministic == deterministic && rng.seed == seed && tickNumber == 0
      ensures fresh(rng)
    {
      this.deterministic := deterministic;
      rng := new DeterministicRandom(seed);
      tickNumber := 0;
    }

    /** `advance_tick`: one tick on. */
    method AdvanceTick()
      modifies this
      ensures tickNumber == old(tickNumber) + 1 && deterministic == old(deterministic)
    {
      tickNumber := tickNumber + 1;
    }

    /**
     * `random_particle_count`: 5 plus a value in 0..=5. The deterministic
     * side draws from the generator (with `range_i32` corrected); the other
     * side uses `roll`, standing in for `rand::random::<usize>()`.
     */
    method RandomParticleCount(roll: nat) returns (n: nat)
      modifies rng
      ensures 5 <= n <= 10
      ensures deterministic ==> rng.seed == LcgStep(old(rng.seed)) && n == 5 + Range(Output(rng.seed), 0, 5)
      ensures !deterministic ==> rng.seed == old(rng.seed) && n == 5 + roll % 6
    {
      if deterministic {
        var k := rng.RangeI32(0, 5);
        n := 5 + k;
      } else {
        n := 5 + roll % 6;
      }
    }
  }

  // ---------------------------------------------------------------------
  // Particles
  // ---------------------------------------------------------------------

  datatype PhysicsParticle = PhysicsParticle(position: Vec2, velocity: Vec2, mass: real, id: nat, lastUpdateTick: nat)

  /** `PhysicsParticle::new`: at rest, unit mass, never updated. */
  function NewParticle(position: Vec2, id: nat): (p: PhysicsParticle)
    ensures p.position == position && p.id == id && p.velocity == Zero
    ensures p.mass == 1.0 && p.lastUpdateTick == 0
  {
    PhysicsParticle(position, Zero, 1.0, id, 0)
  }

  /** `apply_force`: velocity changes by force / mass times dt; nothing else changes. */
  function ApplyForce(p: PhysicsParticle, force: Vec2, dt: real): (q: PhysicsParticle)
    requires p.mass != 0.0
    ensures q.(velocity := p.velocity) == p
    ensures q.velocity.x * p.mass == p.velocity.x * p.mass + force.x * dt
    ensures q.velocity.y * p.mass == p.velocity.y * p.mass + force.y * dt
  {
    p.(velocity := Add(p.velocity, Scale(Vec2(force.x / p.mass, force.y / p.mass), dt)))
  }

  /**
   * `PhysicsParticle::update`: gravity, one Euler step, then the walls at
   * x = 0 and x = 800 and the floor at y = 0, each reversing and damping the
   * velocity component that hit it.
   */
  function UpdateParticle(p: PhysicsParticle, dt: real, tick: nat): (q: PhysicsParticle)
    ensures 0.0 <= q.position.x <= 800.0 && 0.0 <= q.position.y
    ensures q.lastUpdateTick == tick && q.mass == p.mass && q.id == p.id
    ensures var v := p.velocity.y - 300.0 * dt;
      q.velocity.y == (if p.position.y + v * dt < 0.0 then v * -0.5 else v)
  {
    var vy := p.velocity.y - 300.0 * dt;
    var pos := Add(p.position, Scale(Vec2(p.velocity.x, vy), dt));
    var x1 := if pos.x < 0.0 then 0.0 else pos.x;
    var vx1 := if pos.x < 0.0 then p.velocity.x * -0.8 else p.velocity.x;
    var x2 := if x1 > 800.0 then 800.0 else x1;
    var vx2 := if x1 > 800.0 then vx1 * -0.8 else vx1;
    var y := if pos.y < 0.0 then 0.0 else pos.y;
    var vy2 := if pos.y < 0.0 then vy * -0.5 else vy;
    PhysicsParticle(Vec2(x2, y), Vec2(vx2, vy2), p.mass, p.id, tick)
  }

  /** Every particle updated, in order. */
  function UpdateAll(s: seq<PhysicsParticle>, dt: real, tick: nat): (r: seq<PhysicsParticle>)
    ensures |r| == |s| && forall k :: 0 <= k < |s| ==> r[k] == UpdateParticle(s[k], dt, tick)
  {
    seq(|s|, k requires 0 <= k < |s| => UpdateParticle(s[k], dt, tick))
  }

  /** Two particles more than one unit apart in position or in velocity (compared squared). */
  predicate Drifted(a: PhysicsParticle, b: PhysicsParticle) {
    DistSq(a.position, b.position) > 1.0 || DistSq(a.velocity, b.velocity) > 1.0
  }

  /** The two particle lists no longer agree: different lengths or some pair drifted apart. */
  predicate Desynced(det: seq<PhysicsParticle>, nondet: seq<PhysicsParticle>) {
    |det| != |nondet| || exists i :: 0 <= i < |det| && Drifted(det[i], nondet[i])
  }

  /** A list never disagrees with itself. */
  lemma SelfSynced(s: seq<PhysicsParticle>)
    ensures !Desynced(s, s)
  {
    forall i | 0 <= i < |s|
      ensures !Drifted(s[i], s[i])
    {
      assert DistSq(s[i].position, s[i].position) == 0.0;
      assert DistSq(s[i].velocity, s[i].velocity) == 0.0;
    }
  }

  // ---------------------------------------------------------------------
  // The demo
  // ---------------------------------------------------------------------

  /** `NondeterminismDemo`. The recorded sync events are not modelled. */
  class NondeterminismDemo {
    const deterministicSim: SimulationMode
    const nondeterministicSim: SimulationMode
    var particlesDet: seq<PhysicsParticle>
    var particlesNondet: seq<PhysicsParticle>
    var nextParticleId: nat
    var desyncDetected: bool
    var lastSyncTick: nat

    ghost predicate Valid()
      reads this, deterministicSim, nondeterministicSim
    {
      deterministicSim != nondeterministicSim && deterministicSim.rng != nondeterministicSim.rng
    }

    /** `NondeterminismDemo::new`: both simulations seeded with 12345, no particles, in sync. */
    constructor ()
      ensures Valid()
      ensures deterministicSim.deterministic && !nondeterministicSim.deterministic
      ensures deterministicSim.rng.seed == 12345 && nondeterministicSim.rng.seed == 12345
      ensures deterministicSim.tickNumber == 0 && nondeterministicSim.tickNumber == 0
      ensures particlesDet == [] && particlesNondet == [] && nextParticleId == 0
      ensures !desyncDetected && lastSyncTick == 0
    {
      deterministicSim := new SimulationMode(true, 12345);
      nondeterministicSim := new SimulationMode(false, 12345);
      particlesDet := [];
      particlesNondet := [];
      nextParticleId := 0;
      desyncDetected := false;
      lastSyncTick := 0;
    }

    /**
     * `check_desync`: raises the flag when the lists differ in length, or
     * else when some pair of particles has drifted apart; never clears it.
     */
    method CheckDesync()
      modifies this
      ensures desyncDetected == (old(desyncDetected) || Desynced(particlesDet, particlesNondet))
      ensures particlesDet == old(particlesDet) && particlesNondet == old(particlesNondet)
      ensures nextParticleId == old(nextParticleId) && lastSyncTick == old(lastSyncTick)
    {
      if |particlesDet| != |particlesNondet| {
        desyncDetected := true;
        return;
      }
      var det := particlesDet;
      var nondet := particlesNondet;
      var i := 0;
      while i < |det|
        invariant 0 <= i <= |det| && det == particlesDet && nondet == particlesNondet
        invariant nextParticleId == old(nextParticleId) && lastSyncTick == old(lastSyncTick)
        invariant desyncDetected == old(desyncDetected)
        invariant forall k :: 0 <= k < i ==> !Drifted(det[k], nondet[k])
      {
        if DistSq(det[i].position, nondet[i].position) > 1.0 || DistSq(det[i].velocity, nondet[i].velocity) > 1.0 {
          desyncDetected := true;
          break;
        }
        i := i + 1;
      }
    }

    /**
     * `resync_simulations`: the nondeterministic side becomes a copy of the
     * deterministic one (including its mode flag, seed and tick) and of its
     * particles, and the flag is cleared.
     */
    method ResyncSimulations()
      requires Valid()
      modifies this, nondeterministicSim, nondeterministicSim.rng
      ensures Valid() && !desyncDetected
      ensures particlesNondet == particlesDet == old(particlesDet)
      ensures nondeterministicSim.deterministic == deterministicSim.deterministic == old(deterministicSim.deterministic)
      ensures nondeterministicSim.tickNumber == deterministicSim.tickNumber == old(deterministicSim.tickNumber)
      ensures nondeterministicSim.rng.seed == deterministicSim.rng.seed == old(deterministicSim.rng.seed)
      ensures nextParticleId == old(nextParticleId) && lastSyncTick == old(lastSyncTick)
      ensures !Desynced(particlesDet, particlesNondet)
    {
      nondeterministicSim.deterministic := deterministicSim.deterministic;
      nondeterministicSim.tickNumber := deterministicSim.tickNumber;
      nondeterministicSim.rng.seed := deterministicSim.rng.seed;
      particlesNondet := particlesDet;
      desyncDetected := false;
      SelfSynced(particlesDet);
    }

    /**
     * `update`: both simulations advance a tick, every particle is updated,
     * and every 60th tick the desync check runs.
     */
    method Update(dt: real)
      requires Valid()
      modifies this, deterministicSim, nondeterministicSim
      ensures Valid()
      ensures deterministicSim.tickNumber == old(deterministicSim.tickNumber) + 1
      ensures nondeterministicSim.tickNumber == old(nondeterministicSim.tickNumber) + 1
      ensures particlesDet == UpdateAll(old(particlesDet), dt, deterministicSim.tickNumber)
      ensures particlesNondet == UpdateAll(old(particlesNondet), dt, deterministicSim.tickNumber)
      ensures deterministicSim.tickNumber % 60 == 0 ==>
        lastSyncTick == deterministicSim.tickNumber &&
        desyncDetected == (old(desyncDetected) || Desynced(particlesDet, particlesNondet))
      ensures deterministicSim.tickNumber % 60 != 0 ==>
        lastSyncTick == old(lastSyncTick) && desyncDetected == old(desyncDetected)
    {
      deterministicSim.AdvanceTick();
      nondeterministicSim.AdvanceTick();
      var tick := deterministicSim.tickNumber;
      particlesDet := UpdateAll(particlesDet, dt, tick);
      particlesNondet := UpdateAll(particlesNondet, dt, tick);
      if tick % 60 == 0 && tick > 0 {
        CheckDesync();
        lastSyncTick := tick;
      }
    }
  }
}
