// A networked monster: the monster AI's state machine, its choice of the
// nearest living player in range, the delayed message queue, and how received
// messages update entities the local side has no authority over.
module NetworkedMonster {
  import opened Common

  datatype EntityType = Player | Monster | Projectile

  datatype NetworkAuthority = Local | Remote | Server

  datatype NetworkedEntity = NetworkedEntity(id: nat, position: Vec2, velocity: Vec2, health: real, maxHealth: real,
                                             entityType: EntityType, lastUpdateTime: real, predictedPosition: Vec2,
                                             authority: NetworkAuthority)

  datatype MonsterState =
    | Idle
    | Chasing(targetId: nat)
    | Attacking(targetId: nat, attackTimer: real)
    | Fleeing(fromId: nat)

  /** `a.distance(b) <= r`, stated without a square root. */
  predicate Within(a: Vec2, b: Vec2, r: real) {
    r >= 0.0 && DistSq(a, b) <= r * r
  }

  /** An entity the monster may target: a living player within the detection radius. */
  predicate Candidate(monster: Vec2, e: NetworkedEntity, radius: real) {
    e.entityType == Player && e.health > 0.0 && Within(monster, e.position, radius)
  }

  /**
   * `find_nearest_target`, over the first `n` entities: the index of the
   * candidate closest to the monster, the first one among equally close
   * ones, as `min_by` keeps; `None` when there is no candidate.
   */
  function NearestTarget(monster: Vec2, entities: seq<NetworkedEntity>, radius: real, n: nat): (r: Option<nat>)
    requires n <= |entities|
    ensures r.None? <==> forall j :: 0 <= j < n ==> !Candidate(monster, entities[j], radius)
    ensures r.Some? ==> r.value < n && Candidate(monster, entities[r.value], radius)
    ensures r.Some? ==> forall j :: 0 <= j < n && Candidate(monster, entities[j], radius) ==>
      DistSq(monster, entities[r.value].position) <= DistSq(monster, entities[j].position) &&
      (j < r.value ==> DistSq(monster, entities[r.value].position) < DistSq(monster, entities[j].position))
  {
    if n == 0 then None
    else
      var best := NearestTarget(monster, entities, radius, n - 1);
      var e := entities[n - 1];
      if !Candidate(monster, e, radius) then best
      else if best.None? || DistSq(monster, e.position) < DistSq(monster, entities[best.value].position) then Some(n - 1)
      else best
  }

  /** The first entity with the given id, as `iter().find` returns it. */
  function FindEntity(entities: seq<NetworkedEntity>, id: nat): (r: Option<nat>)
    ensures r.None? <==> forall j :: 0 <= j < |entities| ==> entities[j].id != id
    ensures r.Some? ==> r.value < |entities| && entities[r.value].id == id &&
                        forall j :: 0 <= j < r.value ==> entities[j].id != id
  {
    if entities == [] then None
    else if entities[0].id == id then Some(0)
    else
      var r := FindEntity(entities[1..], id);
      assert forall j :: 1 <= j < |entities| ==> entities[j] == entities[1..][j - 1];
      if r.None? then None else Some(r.value + 1)
  }

  /**
   * `MonsterAI`. Normalising a direction needs a square root, so
   * `Vec2::normalize` is passed to `Update` as `normalize`.
   */
  class MonsterAI {
    var state: MonsterState
    var detectionRadius: real
    var attackRange: real
    var attackDamage: real
    var attackCooldown: real
    var currentCooldown: real
    var moveSpeed: real
    var lastKnownTargetPos: Vec2

    /** `MonsterAI::new`: idle, no cooldown, the fixed tuning values. */
    constructor ()
      ensures state == Idle && detectionRadius == 150.0 && attackRange == 30.0 && attackDamage == 25.0
      ensures attackCooldown == 2.0 && currentCooldown == 0.0 && moveSpeed == 80.0 && lastKnownTargetPos == Zero
    {
      state := Idle;
      detectionRadius, attackRange, attackDamage := 150.0, 30.0, 25.0;
      attackCooldown, currentCooldown, moveSpeed := 2.0, 0.0, 80.0;
      lastKnownTargetPos := Zero;
    }

    /**
     * `MonsterAI::update`: the cooldown runs down by `dt`, then one step of
     * the state machine decides the next state and the monster's velocity.
     * Only the monster's velocity changes.
     */
    method Update(monster: NetworkedEntity, entities: seq<NetworkedEntity>, dt: real, normalize: Vec2 -> Vec2)
      returns (m: NetworkedEntity)
      modifies this
      ensures m == monster.(velocity := m.velocity)
      ensures detectionRadius == old(detectionRadius) && attackRange == old(attackRange)
      ensures attackCooldown == old(attackCooldown) && moveSpeed == old(moveSpeed) && attackDamage == old(attackDamage)
      ensures !(old(state).Chasing? && state.Attacking?) ==> currentCooldown == old(currentCooldown) - dt
      // Idle: take up the nearest target when there is one
      ensures old(state).Idle? ==>
        m.velocity == monster.velocity &&
        var t := NearestTarget(monster.position, entities, detectionRadius, |entities|);
        (t.Some? ==> state == Chasing(entities[t.value].id) && lastKnownTargetPos == entities[t.value].position) &&
        (t.None? ==> state == Idle && lastKnownTargetPos == old(lastKnownTargetPos))
      // Chasing: attack in range when the cooldown has run out, follow in sight, otherwise give up
      ensures old(state).Chasing? ==> ChaseOutcome(old(state).targetId, monster, entities, old(currentCooldown) - dt,
                                                   old(lastKnownTargetPos), normalize, m)
      // Attacking: stand still until the timer runs out, then chase again if the target is still there
      ensures old(state).Attacking? ==>
        m.velocity == Zero && lastKnownTargetPos == old(lastKnownTargetPos) &&
        var timer := old(state).attackTimer - dt;
        (timer > 0.0 ==> state == Attacking(old(state).targetId, timer)) &&
        (timer <= 0.0 && FindEntity(entities, old(state).targetId).Some? ==> state == Chasing(old(state).targetId)) &&
        (timer <= 0.0 && FindEntity(entities, old(state).targetId).None? ==> state == Idle)
      // Fleeing: run from the threat until half as far again as the detection radius
      ensures old(state).Fleeing? ==> (
        lastKnownTargetPos == old(lastKnownTargetPos) &&
        var f := FindEntity(entities, old(state).fromId);
        (f.None? ==> state == Idle && m.velocity == Zero) &&
        (f.Some? && !Within(monster.position, entities[f.value].position, detectionRadius * 1.5) ==>
          state == Idle && m.velocity == Zero) &&
        (f.Some? && Within(monster.position, entities[f.value].position, detectionRadius * 1.5) ==>
          state == Fleeing(old(state).fromId) &&
          m.velocity == Scale(normalize(Sub(monster.position, entities[f.value].position)), moveSpeed * 1.5)))
    {
      currentCooldown := currentCooldown - dt;
      m := monster;
      var current := state;
      state := Idle;
      if current.Idle? {
        var t := NearestTarget(monster.position, entities, detectionRadius, |entities|);
        if t.Some? {
          lastKnownTargetPos := entities[t.value].position;
          state := Chasing(entities[t.value].id);
        } else {
          state := Idle;
        }
      } else if current.Chasing? {
        var f := FindEntity(entities, current.targetId);
        if f.Some? {
          var target := entities[f.value];
          if Within(monster.position, target.position, attackRange) && currentCooldown <= 0.0 {
            currentCooldown := attackCooldown;
            state := Attacking(current.targetId, 1.0);
          } else if Within(monster.position, target.position, detectionRadius) {
            m := m.(velocity := Scale(normalize(Sub(target.position, monster.position)), moveSpeed));
            lastKnownTargetPos := target.position;
            state := Chasing(current.targetId);
          } else {
            m := m.(velocity := Zero);
            state := Idle;
          }
        } else {
          m := m.(velocity := Zero);
          state := Idle;
        }
      } else if current.Attacking? {
        var timer := current.attackTimer - dt;
        m := m.(velocity := Zero);
        if timer <= 0.0 {
          if FindEntity(entities, current.targetId).Some? {
            state := Chasing(current.targetId);
          } else {
            state := Idle;
          }
        } else {
          state := Attacking(current.targetId, timer);
        }
      } else {
        var f := FindEntity(entities, current.fromId);
        if f.Some? {
          var threat := entities[f.value];
          m := m.(velocity := Scale(normalize(Sub(monster.position, threat.position)), moveSpeed * 1.5));
          if !Within(monster.position, threat.position, detectionRadius * 1.5) {
            m := m.(velocity := Zero);
            state := Idle;
          } else {
            state := Fleeing(current.fromId);
          }
        } else {
          m := m.(velocity := Zero);
          state := Idle;
        }
      }
    }

    /**
     * What a chasing monster does, given the cooldown after this frame's
     * decrement: a missing or out-of-sight target sends it back to Idle with
     * zero velocity; in attack range with the cooldown run out it attacks
     * (timer 1.0, cooldown reset); otherwise it heads for the target.
     */
    ghost predicate ChaseOutcome(targetId: nat, monster: NetworkedEntity, entities: seq<NetworkedEntity>, cooldown: real,
                                 oldLastKnown: Vec2, normalize: Vec2 -> Vec2, m: NetworkedEntity)
      reads this
    {
      var f := FindEntity(entities, targetId);
      (f.None? ==> state == Idle && m.velocity == Zero && lastKnownTargetPos == oldLastKnown) &&
      (f.Some? ==>
        var target := entities[f.value];
        (Within(monster.position, target.position, attackRange) && cooldown <= 0.0 ==>
          state == Attacking(targetId, 1.0) && currentCooldown == attackCooldown &&
          m.velocity == monster.velocity && lastKnownTargetPos == oldLastKnown) &&
        (!(Within(monster.position, target.position, attackRange) && cooldown <= 0.0) &&
         Within(monster.position, target.position, detectionRadius) ==>
          state == Chasing(targetId) && lastKnownTargetPos == target.position &&
          m.velocity == Scale(normalize(Sub(target.position, monster.position)), moveSpeed)) &&
        (!(Within(monster.position, target.position, attackRange) && cooldown <= 0.0) &&
         !Within(monster.position, target.position, detectionRadius) ==>
          state == Idle && m.velocity == Zero && lastKnownTargetPos == oldLastKnown))
    }
  }

  /** An attack can only start on a target that is in sight: attack range inside detection radius. */
  lemma AttackImpliesInSight(monster: Vec2, target: Vec2, attackRange: real, detectionRadius: real)
    requires 0.0 <= attackRange <= detectionRadius && Within(monster, target, attackRange)
    ensures Within(monster, target, detectionRadius)
  {
    assert attackRange * attackRange <= detectionRadius * attackRange <= detectionRadius * detectionRadius;
  }

  // ---------------------------------------------------------------------
  // The simulated network
  // ---------------------------------------------------------------------

  datatype NetworkMessageType = PositionUpdate | HealthUpdate | Attack(targetId: nat) | Death

  datatype NetworkMessage = NetworkMessage(entityId: nat, timestamp: real, position: Vec2, velocity: Vec2,
                                           health: real, messageType: NetworkMessageType)

  /** A message has arrived once its latency has elapsed. */
  predicate Arrived(m: NetworkMessage, now: real, latency: real) {
    now >= m.timestamp + latency
  }

  /** `NetworkSimulation`: a FIFO queue of messages in flight. */
  class NetworkSimulation {
    const latency: real
    const packetLoss: real
    var messageQueue: seq<NetworkMessage>

    /** `NetworkSimulation::new`: nothing in flight. */
    constructor (latency: real, packetLoss: real)
      ensures this.latency == latency && this.packetLoss == packetLoss && messageQueue == []
    {
      this.latency := latency;
      this.packetLoss := packetLoss;
      messageQueue := [];
    }

    /** `send_message`, with the random draw given as `roll`: queued unless the draw falls under the loss rate. */
    method SendMessage(message: NetworkMessage, roll: real)
      modifies this
      ensures messageQueue == if roll >= packetLoss then old(messageQueue) + [message] else old(messageQueue)
    {
      if roll >= packetLoss {
        messageQueue := messageQueue + [message];
      }
    }

    /**
     * `receive_messages`: takes, in order, the longest run of arrived
     * messages at the front of the queue; the first message not yet arrived
     * stops it even if later ones have.
     */
    method ReceiveMessages(currentTime: real) returns (received: seq<NetworkMessage>)
      modifies this
      ensures old(messageQueue) == received + messageQueue
      ensures forall k :: 0 <= k < |received| ==> Arrived(received[k], currentTime, latency)
      ensures messageQueue != [] ==> !Arrived(messageQueue[0], currentTime, latency)
    {
      received := [];
      while messageQueue != [] && Arrived(messageQueue[0], currentTime, latency)
        invariant old(messageQueue) == received + messageQueue
        invariant forall k :: 0 <= k < |received| ==> Arrived(received[k], currentTime, latency)
        decreases |messageQueue|
      {
        received := received + [messageQueue[0]];
        messageQueue := messageQueue[1..];
      }
    }
  }

  /** Of two splits of one queue, the shorter front part's remainder starts with the longer one's next element. */
  lemma SplitAt(q: seq<NetworkMessage>, a: seq<NetworkMessage>, ra: seq<NetworkMessage>,
                b: seq<NetworkMessage>, rb: seq<NetworkMessage>)
    requires q == a + ra && q == b + rb && |a| < |b|
    ensures ra != [] && ra[0] == b[|a|]
  {
    assert ra[0] == q[|a|];
  }

  /** Two results of receiving that both meet `ReceiveMessages`' contract are the same split of the queue. */
  lemma ReceiveUnique(q: seq<NetworkMessage>, r1: seq<NetworkMessage>, rest1: seq<NetworkMessage>,
                      r2: seq<NetworkMessage>, rest2: seq<NetworkMessage>, now: real, latency: real)
    requires q == r1 + rest1 && q == r2 + rest2
    requires forall k :: 0 <= k < |r1| ==> Arrived(r1[k], now, latency)
    requires forall k :: 0 <= k < |r2| ==> Arrived(r2[k], now, latency)
    requires rest1 != [] ==> !Arrived(rest1[0], now, latency)
    requires rest2 != [] ==> !Arrived(rest2[0], now, latency)
    ensures r1 == r2 && rest1 == rest2
  {
    if |r1| < |r2| {
      SplitAt(q, r1, rest1, r2, rest2);
      assert false;
    } else if |r2| < |r1| {
      SplitAt(q, r2, rest2, r1, rest1);
      assert false;
    }
    assert r1 == q[..|r1|] && r2 == q[..|r2|];
  }

  // ---------------------------------------------------------------------
  // Applying received messages
  // ---------------------------------------------------------------------

  /** `NetworkedMonsterDemo`, as far as received messages affect it. */
  class NetworkedMonsterDemo {
    var entities: seq<NetworkedEntity>
    const networkSim: NetworkSimulation

    constructor (entities: seq<NetworkedEntity>, networkSim: NetworkSimulation)
      ensures this.entities == entities && this.networkSim == networkSim
    {
      this.entities := entities;
      this.networkSim := networkSim;
    }

    /**
     * `process_network_message`: the first entity with the message's id
     * takes the message's position, velocity, health and time, and predicts
     * ahead by the latency, unless the local side has authority over it.
     * Local entities and unknown ids are left untouched, and so is every
     * other entity.
     */
    method ProcessNetworkMessage(message: NetworkMessage)
      modifies this
      ensures |entities| == |old(entities)|
      ensures var f := FindEntity(old(entities), message.entityId);
        (f.None? || old(entities)[f.value].authority == Local ==> entities == old(entities)) &&
        (f.Some? && old(entities)[f.value].authority != Local ==>
          entities == old(entities)[f.value := old(entities)[f.value].(
            position := message.position, velocity := message.velocity, health := message.health,
            lastUpdateTime := message.timestamp,
            predictedPosition := Add(message.position, Scale(message.velocity, networkSim.latency)))])
    {
      var i := 0;
      while i < |entities| && entities[i].id != message.entityId
        invariant 0 <= i <= |entities|
        invariant forall j :: 0 <= j < i ==> entities[j].id != message.entityId
      {
        i := i + 1;
      }
      if i < |entities| {
        var e := entities[i];
        if e.authority != Local {
          e := e.(position := message.position, velocity := message.velocity, health := message.health,
                  lastUpdateTime := message.timestamp);
          e := e.(predictedPosition := Add(e.position, Scale(e.velocity, networkSim.latency)));
          entities := entities[i := e];
        }
      }
    }
  }
}
