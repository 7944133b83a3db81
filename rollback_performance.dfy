// Rollback netcode: a tick-numbered game state that advances one tick at
// a time, and a rollback that rebuilds the state at an earlier tick and
// replays the recorded inputs up to the tick it started from.
module RollbackPerformance {
  import opened Common

  datatype PlayerInput = PlayerInput(moveX: real, jump: bool, takeDamage: bool, tickNumber: nat)

  /** `PlayerInput::new`: the default input, standing still. */
  function NewInput(tick: nat): (i: PlayerInput)
    ensures i.tickNumber == tick && i.moveX == 0.0 && !i.jump && !i.takeDamage
  {
    PlayerInput(0.0, false, false, tick)
  }

  datatype PlayerState = PlayerState(position: Vec2, velocity: Vec2, health: real,
                                     inputBuffer: seq<PlayerInput>, lastProcessedTick: nat)

  /** `PlayerState::new`: at rest, full health, no inputs yet. */
  function NewPlayer(p: Vec2): (s: PlayerState)
    ensures s.position == p && s.velocity == Zero && s.health == 100.0 && s.inputBuffer == [] && s.lastProcessedTick == 0
  {
    PlayerState(p, Zero, 100.0, [], 0)
  }

  /**
   * `apply_input`: horizontal speed from the input, gravity, the ground at
   * y = 50 (where a jump starts), and 10 damage that respawns the player at
   * (100, 100) with full health once health runs out.
   */
  function ApplyInput(p: PlayerState, input: PlayerInput, dt: real): (r: PlayerState)
    ensures r.inputBuffer == p.inputBuffer && r.lastProcessedTick == p.lastProcessedTick
    ensures 0.0 < p.health <= 100.0 ==> 0.0 < r.health <= 100.0
    ensures !input.takeDamage ==> r.health == p.health && r.position.y >= 50.0
    ensures input.takeDamage ==> r.health == p.health - 10.0 || (r.health == 100.0 && r.position == Vec2(100.0, 100.0))
  {
    var v := Vec2(input.moveX * 150.0, p.velocity.y - 300.0 * dt);
    var pos := Add(p.position, Scale(v, dt));
    var grounded := pos.y <= 50.0;
    var pos1 := if grounded then pos.(y := 50.0) else pos;
    var v1 := if grounded then v.(y := if input.jump then 200.0 else 0.0) else v;
    var moved := p.(position := pos1, velocity := v1);
    if input.takeDamage then
      var hurt := moved.(health := moved.health - 10.0);
      if hurt.health <= 0.0 then hurt.(position := Vec2(100.0, 100.0), velocity := Zero, health := 100.0) else hurt
    else moved
  }

  /** One player's part of the input loop of `advance_tick`: the input applied, its tick noted, and the input kept in a 60-entry history. */
  function InputStep(p: PlayerState, input: PlayerInput, dt: real): (r: PlayerState)
    ensures r.lastProcessedTick == input.tickNumber
    ensures r.inputBuffer == PushBounded(p.inputBuffer, input, 60)
  {
    var q := ApplyInput(p, input, dt).(lastProcessedTick := input.tickNumber);
    q.(inputBuffer := PushBounded(q.inputBuffer, input, 60))
  }

  /** The input loop: player i takes input i, and players without an input are left alone. */
  function ApplyInputs(players: seq<PlayerState>, inputs: seq<PlayerInput>, dt: real): (r: seq<PlayerState>)
    ensures |r| == |players|
    ensures forall i :: 0 <= i < |players| && i < |inputs| ==> r[i] == InputStep(players[i], inputs[i], dt)
    ensures forall i :: |inputs| <= i < |players| ==> r[i] == players[i]
  {
    seq(|players|, i requires 0 <= i < |players| => if i < |inputs| then InputStep(players[i], inputs[i], dt) else players[i])
  }

  datatype Hazard = Hazard(position: Vec2, radius: real)

  /** `distance < radius + 15`, compared on squares since a distance is never negative. */
  predicate Touches(p: Vec2, h: Hazard) {
    h.radius + 15.0 > 0.0 && DistSq(p, h.position) < (h.radius + 15.0) * (h.radius + 15.0)
  }

  /** The damage input `check_collisions` applies for the current tick. */
  function DamageInput(tick: nat): PlayerInput {
    PlayerInput(0.0, false, true, tick)
  }

  /** A player's collisions with the first hazards in order, each touching one applying a 1/60 s damage input. */
  function Collide(p: PlayerState, hazards: seq<Hazard>, tick: nat): (r: PlayerState)
    ensures r.inputBuffer == p.inputBuffer && r.lastProcessedTick == p.lastProcessedTick
    ensures 0.0 < p.health <= 100.0 ==> 0.0 < r.health <= 100.0
    decreases |hazards|
  {
    if hazards == [] then p
    else
      var q := Collide(p, hazards[..|hazards| - 1], tick);
      if Touches(q.position, hazards[|hazards| - 1]) then ApplyInput(q, DamageInput(tick), 1.0 / 60.0) else q
  }

  function CollideAll(players: seq<PlayerState>, hazards: seq<Hazard>, tick: nat): (r: seq<PlayerState>)
    ensures |r| == |players| && forall i :: 0 <= i < |players| ==> r[i] == Collide(players[i], hazards, tick)
  {
    seq(|players|, i requires 0 <= i < |players| => Collide(players[i], hazards, tick))
  }

  datatype Projectile = Projectile(position: Vec2, velocity: Vec2, lifetime: real, owner: nat)

  function UpdateProjectile(p: Projectile, dt: real): (r: Projectile)
    ensures r.lifetime == p.lifetime - dt && r.velocity == p.velocity && r.owner == p.owner
  {
    p.(position := Add(p.position, Scale(p.velocity, dt)), lifetime := p.lifetime - dt)
  }

  /** `Projectile::is_alive`. */
  predicate IsAlive(p: Projectile) { p.lifetime > 0.0 }

  /** `retain_mut` over the projectiles: each one moved, and only the live ones kept, in order. */
  function Survivors(ps: seq<Projectile>, dt: real): (r: seq<Projectile>)
    ensures |r| <= |ps|
    ensures forall k :: 0 <= k < |r| ==> IsAlive(r[k])
    ensures (forall k :: 0 <= k < |ps| ==> ps[k].lifetime > dt) ==> |r| == |ps|
  {
    if ps == [] then []
    else
      var q := UpdateProjectile(ps[|ps| - 1], dt);
      Survivors(ps[..|ps| - 1], dt) + (if IsAlive(q) then [q] else [])
  }

  /** The players at the start of a game: 150 apart from x = 100, at height 100. */
  function StartPlayers(count: nat): (r: seq<PlayerState>)
    ensures |r| == count && forall i :: 0 <= i < count ==> r[i] == NewPlayer(Vec2(100.0 + i as real * 150.0, 100.0))
  {
    seq(count, i requires 0 <= i < count => NewPlayer(Vec2(100.0 + i as real * 150.0, 100.0)))
  }

  const StartHazards := [Hazard(Vec2(300.0, 100.0), 20.0), Hazard(Vec2(500.0, 100.0), 20.0)]

  /** `iter().find(|i| i.tick_number == tick)`, or the default input. */
  function InputFor(history: seq<PlayerInput>, tick: nat): (r: PlayerInput)
    ensures r.tickNumber == tick
    ensures (exists k :: 0 <= k < |history| && history[k].tickNumber == tick) ==> r in history
    ensures (forall k :: 0 <= k < |history| ==> history[k].tickNumber != tick) ==> r == NewInput(tick)
  {
    if history == [] then NewInput(tick)
    else if history[0].tickNumber == tick then history[0]
    else InputFor(history[1..], tick)
  }

  /** The inputs replayed at one tick: one per player that has a recorded history. */
  function ReplayInputs(history: seq<seq<PlayerInput>>, count: nat, tick: nat): (r: seq<PlayerInput>)
    ensures |r| == if |history| < count then |history| else count
    ensures forall i :: 0 <= i < |r| ==> r[i] == InputFor(history[i], tick)
  {
    var n := if |history| < count then |history| else count;
    seq(n, i requires 0 <= i < n => InputFor(history[i], tick))
  }

  class GameState {
    var tickNumber: nat
    var timestamp: real
    var players: seq<PlayerState>
    var projectiles: seq<Projectile>
    var hazards: seq<Hazard>

    /** `GameState::new`. */
    constructor (tick: nat, timestamp: real, playerCount: nat)
      ensures tickNumber == tick && this.timestamp == timestamp
      ensures players == StartPlayers(playerCount) && projectiles == [] && hazards == StartHazards
    {
      tickNumber := tick;
      this.timestamp := timestamp;
      players := StartPlayers(playerCount);
      projectiles := [];
      hazards := StartHazards;
    }

    /** `advance_tick`: one tick on, the inputs applied, live projectiles moved, then collisions with hazards. */
    method AdvanceTick(inputs: seq<PlayerInput>, dt: real)
      modifies this
      ensures tickNumber == old(tickNumber) + 1 && timestamp == old(timestamp) + dt
      ensures players == CollideAll(ApplyInputs(old(players), inputs, dt), hazards, tickNumber)
      ensures projectiles == Survivors(old(projectiles), dt) && hazards == old(hazards)
    {
      tickNumber := tickNumber + 1;
      timestamp := timestamp + dt;
      var i := 0;
      ghost var p0 := players;
      while i < |players|
        invariant 0 <= i <= |players| == |p0|
        invariant forall k :: 0 <= k < i ==> players[k] == ApplyInputs(p0, inputs, dt)[k]
        invariant forall k :: i <= k < |players| ==> players[k] == p0[k]
        invariant tickNumber == old(tickNumber) + 1 && timestamp == old(timestamp) + dt
        invariant projectiles == old(projectiles) && hazards == old(hazards)
      {
        if i < |inputs| {
          var q := ApplyInput(players[i], inputs[i], dt);
          q := q.(lastProcessedTick := inputs[i].tickNumber);
          var buffer := q.inputBuffer + [inputs[i]];
          if |buffer| > 60 {
            buffer := buffer[1..];
          }
          players := players[i := q.(inputBuffer := buffer)];
        }
        i := i + 1;
      }
      assert players == ApplyInputs(p0, inputs, dt);
      var kept: seq<Projectile> := [];
      var j := 0;
      while j < |projectiles|
        invariant 0 <= j <= |projectiles|
        invariant kept == Survivors(projectiles[..j], dt)
      {
        assert projectiles[..j + 1][..j] == projectiles[..j];
        var q := UpdateProjectile(projectiles[j], dt);
        if IsAlive(q) {
          kept := kept + [q];
        }
        j := j + 1;
      }
      assert projectiles[..j] == projectiles;
      projectiles := kept;
      CheckCollisions();
    }

    /** `check_collisions`: every player against every hazard, in order. */
    method CheckCollisions()
      modifies this
      ensures players == CollideAll(old(players), hazards, tickNumber)
      ensures tickNumber == old(tickNumber) && timestamp == old(timestamp)
      ensures projectiles == old(projectiles) && hazards == old(hazards)
    {
      var i := 0;
      ghost var p0 := players;
      while i < |players|
        invariant 0 <= i <= |players| == |p0|
        invariant forall k :: 0 <= k < i ==> players[k] == Collide(p0[k], hazards, tickNumber)
        invariant forall k :: i <= k < |players| ==> players[k] == p0[k]
        invariant tickNumber == old(tickNumber) && timestamp == old(timestamp)
        invariant projectiles == old(projectiles) && hazards == old(hazards)
      {
        var p := players[i];
        var h := 0;
        while h < |hazards|
          invariant 0 <= h <= |hazards|
          invariant p == Collide(p0[i], hazards[..h], tickNumber)
        {
          assert hazards[..h + 1][..h] == hazards[..h];
          if Touches(p.position, hazards[h]) {
            p := ApplyInput(p, DamageInput(tickNumber), 1.0 / 60.0);
          }
          h := h + 1;
        }
        assert hazards[..h] == hazards;
        players := players[i := p];
        i := i + 1;
      }
    }

    /**
     * `rollback_to_tick`: refused for a target that is not in the past;
     * otherwise a new game at the target tick, replayed one tick at a time
     * up to the tick it started from.
     */
    method RollbackToTick(target: nat, history: seq<seq<PlayerInput>>) returns (ok: bool)
      modifies this
      ensures ok <==> target < old(tickNumber)
      ensures !ok ==>
        (tickNumber == old(tickNumber) && timestamp == old(timestamp) &&
         players == old(players) && projectiles == old(projectiles) && hazards == old(hazards))
      ensures ok ==> tickNumber == old(tickNumber) && timestamp == old(timestamp)
      ensures ok ==> |players| == |old(players)| && hazards == StartHazards
    {
      if target >= tickNumber {
        return false;
      }
      var rewind := tickNumber - target;
      var count := |players|;
      tickNumber := target;
      timestamp := timestamp - rewind as real * (1.0 / 60.0);
      players := StartPlayers(count);
      projectiles := [];
      hazards := StartHazards;
      var offset := 0;
      while offset < rewind
        invariant 0 <= offset <= rewind && tickNumber == target + offset
        invariant |players| == count && hazards == StartHazards
        invariant timestamp == old(timestamp) - (rewind - offset) as real * (1.0 / 60.0)
      {
        var inputs := ReplayInputs(history, |players|, target + offset);
        AdvanceTick(inputs, 1.0 / 60.0);
        offset := offset + 1;
      }
      ok := true;
    }
  }

  /** Advancing with an input for every player records each input as that player's latest. */
  lemma AdvanceRecordsInputs(players: seq<PlayerState>, inputs: seq<PlayerInput>, hazards: seq<Hazard>, tick: nat, dt: real)
    ensures forall i :: 0 <= i < |players| && i < |inputs| ==>
      CollideAll(ApplyInputs(players, inputs, dt), hazards, tick)[i].lastProcessedTick == inputs[i].tickNumber
    ensures forall i :: 0 <= i < |players| && i < |inputs| ==>
      CollideAll(ApplyInputs(players, inputs, dt), hazards, tick)[i].inputBuffer == PushBounded(players[i].inputBuffer, inputs[i], 60)
    ensures forall i :: |inputs| <= i < |players| ==>
      CollideAll(ApplyInputs(players, inputs, dt), hazards, tick)[i].inputBuffer == players[i].inputBuffer &&
      CollideAll(ApplyInputs(players, inputs, dt), hazards, tick)[i].lastProcessedTick == players[i].lastProcessedTick
  {
  }

  /** Health stays in (0, 100] through a whole tick: damage either leaves some or respawns the player. */
  lemma AdvanceKeepsHealth(players: seq<PlayerState>, inputs: seq<PlayerInput>, hazards: seq<Hazard>, tick: nat, dt: real)
    requires forall i :: 0 <= i < |players| ==> 0.0 < players[i].health <= 100.0
    ensures forall i :: 0 <= i < |players| ==>
      0.0 < CollideAll(ApplyInputs(players, inputs, dt), hazards, tick)[i].health <= 100.0
  {
  }

  class RollbackStats {
    var rollbacksPerformed: nat
    var averageRollbackDistance: real
    var totalSimulationTime: real
    var ticksSimulated: nat
    ghost var distances: seq<nat>

    /** The average is the mean of every distance recorded. */
    ghost predicate Valid()
      reads this
    {
      rollbacksPerformed == |distances| &&
      averageRollbackDistance * |distances| as real == Sum(Reals(distances))
    }

    constructor ()
      ensures Valid() && rollbacksPerformed == 0 && averageRollbackDistance == 0.0 && distances == []
      ensures totalSimulationTime == 0.0 && ticksSimulated == 0
    {
      rollbacksPerformed, averageRollbackDistance, totalSimulationTime, ticksSimulated := 0, 0.0, 0.0, 0;
      distances := [];
    }

    /** `record_rollback`: one more rollback, and the running average updated to include it. */
    method RecordRollback(distance: nat)
      requires Valid()
      modifies this
      ensures Valid() && rollbacksPerformed == old(rollbacksPerformed) + 1 && distances == old(distances) + [distance]
      ensures totalSimulationTime == old(totalSimulationTime) && ticksSimulated == old(ticksSimulated)
    {
      SumReals(distances, distance);
      rollbacksPerformed := rollbacksPerformed + 1;
      averageRollbackDistance :=
        (averageRollbackDistance * (rollbacksPerformed - 1) as real + distance as real) / rollbacksPerformed as real;
      distances := distances + [distance];
    }
  }

  function Reals(s: seq<nat>): (r: seq<real>)
    ensures |r| == |s| && forall k :: 0 <= k < |s| ==> r[k] == s[k] as real
  {
    seq(|s|, k requires 0 <= k < |s| => s[k] as real)
  }

  lemma SumReals(s: seq<nat>, d: nat)
    ensures Sum(Reals(s + [d])) == Sum(Reals(s)) + d as real
  {
    assert Reals(s + [d]) == Reals(s) + [d as real];
    SumSnoc(Reals(s), d as real);
  }
}
