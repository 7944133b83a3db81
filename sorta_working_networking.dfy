// Client-server bookkeeping: packet queues drained in FIFO order, a ping
// sent at most once a second, a bounded buffer of recent inputs and a
// bounded history of predicted states that rollback trims.
module SortaWorkingNetworking {
  import opened Common

  datatype NetworkRole = Server | Client(serverEntityId: nat)

  datatype EntityType = Player | Projectile | Environment

  datatype NetworkedEntity = NetworkedEntity(id: nat, position: Vec2, velocity: Vec2, health: real,
                                             entityType: EntityType, owner: Option<nat>, lastAuthoritativeUpdate: nat)

  datatype PlayerInput = PlayerInput(playerId: nat, tick: nat, moveX: real, jump: bool, shoot: bool, timestamp: real)

  datatype NetworkedGameState = NetworkedGameState(tick: nat, timestamp: real, entities: seq<NetworkedEntity>,
                                                   inputs: seq<PlayerInput>)

  datatype NetworkPacket =
    | StateUpdate(state: NetworkedGameState)
    | InputUpdate(inputs: seq<PlayerInput>)
    | JoinRequest(playerName: string)
    | JoinResponse(playerId: nat, initialState: NetworkedGameState)
    | Ping(timestamp: real)
    | Pong(timestamp: real)

  /** `PlayerInput::new`: no movement, no buttons, time 0. */
  function NewInput(playerId: nat, tick: nat): (i: PlayerInput)
    ensures i.playerId == playerId && i.tick == tick
    ensures i.moveX == 0.0 && !i.jump && !i.shoot && i.timestamp == 0.0
  {
    PlayerInput(playerId, tick, 0.0, false, false, 0.0)
  }

  // ---------------------------------------------------------------------
  // The connection
  // ---------------------------------------------------------------------

  class NetworkConnection {
    var role: NetworkRole
    var localPlayerId: nat
    var outgoingPackets: seq<NetworkPacket>
    var incomingPackets: seq<NetworkPacket>
    var rtt: real
    var lastPingTime: real
    var packetLoss: real

    /** `NetworkConnection::new`: empty queues, 100 ms RTT, 2% loss. */
    constructor (role: NetworkRole, localPlayerId: nat)
      ensures this.role == role && this.localPlayerId == localPlayerId
      ensures outgoingPackets == [] && incomingPackets == [] && rtt == 0.1 && lastPingTime == 0.0 && packetLoss == 0.02
    {
      this.role := role;
      this.localPlayerId := localPlayerId;
      outgoingPackets, incomingPackets := [], [];
      rtt, lastPingTime, packetLoss := 0.1, 0.0, 0.02;
    }

    /** `send_packet`: queued unless the loss draw `roll` (in [0, 1)) falls below the loss rate. */
    method SendPacket(packet: NetworkPacket, roll: real)
      modifies this
      ensures roll >= packetLoss ==> outgoingPackets == old(outgoingPackets) + [packet]
      ensures roll < packetLoss ==> outgoingPackets == old(outgoingPackets)
      ensures incomingPackets == old(incomingPackets) && lastPingTime == old(lastPingTime)
      ensures rtt == old(rtt) && packetLoss == old(packetLoss)
    {
      if roll >= packetLoss {
        outgoingPackets := outgoingPackets + [packet];
      }
    }

    method ReceivePacket(packet: NetworkPacket)
      modifies this
      ensures incomingPackets == old(incomingPackets) + [packet]
      ensures outgoingPackets == old(outgoingPackets) && lastPingTime == old(lastPingTime) && rtt == old(rtt)
    {
      incomingPackets := incomingPackets + [packet];
    }

    /** `process_outgoing_packets`: every queued packet, oldest first, leaving the queue empty. */
    method ProcessOutgoingPackets(now: real) returns (packets: seq<NetworkPacket>)
      modifies this
      ensures packets == old(outgoingPackets) && outgoingPackets == []
      ensures incomingPackets == old(incomingPackets) && lastPingTime == old(lastPingTime) && rtt == old(rtt)
    {
      packets := [];
      while |outgoingPackets| > 0
        invariant packets + outgoingPackets == old(outgoingPackets)
        invariant incomingPackets == old(incomingPackets) && lastPingTime == old(lastPingTime) && rtt == old(rtt)
        decreases |outgoingPackets|
      {
        packets := packets + [outgoingPackets[0]];
        outgoingPackets := outgoingPackets[1..];
      }
    }

    /** `get_incoming_packets`: every received packet, oldest first, leaving the queue empty. */
    method GetIncomingPackets() returns (packets: seq<NetworkPacket>)
      modifies this
      ensures packets == old(incomingPackets) && incomingPackets == []
      ensures outgoingPackets == old(outgoingPackets) && lastPingTime == old(lastPingTime) && rtt == old(rtt)
    {
      packets := [];
      while |incomingPackets| > 0
        invariant packets + incomingPackets == old(incomingPackets)
        invariant outgoingPackets == old(outgoingPackets) && lastPingTime == old(lastPingTime) && rtt == old(rtt)
        decreases |incomingPackets|
      {
        packets := packets + [incomingPackets[0]];
        incomingPackets := incomingPackets[1..];
      }
    }

    /** `measure_ping`: more than a second after the last ping, a new one is sent (subject to loss) and the time noted. */
    method MeasurePing(now: real, roll: real)
      modifies this
      ensures now - old(lastPingTime) > 1.0 ==>
        (lastPingTime == now && outgoingPackets == old(outgoingPackets) + (if roll >= packetLoss then [Ping(now)] else []))
      ensures now - old(lastPingTime) <= 1.0 ==> lastPingTime == old(lastPingTime) && outgoingPackets == old(outgoingPackets)
      ensures incomingPackets == old(incomingPackets) && rtt == old(rtt) && packetLoss == old(packetLoss)
    {
      if now - lastPingTime > 1.0 {
        SendPacket(Ping(now), roll);
        lastPingTime := now;
      }
    }

    method UpdateRtt(pingTimestamp: real, now: real)
      modifies this
      ensures rtt == now - pingTimestamp
      ensures outgoingPackets == old(outgoingPackets) && incomingPackets == old(incomingPackets)
      ensures lastPingTime == old(lastPingTime)
    {
      rtt := now - pingTimestamp;
    }
  }

  /** Two pings within one second: once the first is sent, the second does nothing. */
  method PingTwice(c: NetworkConnection, now: real, later: real, roll: real, roll2: real)
    requires later - now <= 1.0
    modifies c
    ensures now - old(c.lastPingTime) > 1.0 ==>
      c.lastPingTime == now &&
      c.outgoingPackets == old(c.outgoingPackets) + (if roll >= old(c.packetLoss) then [Ping(now)] else [])
  {
    c.MeasurePing(now, roll);
    c.MeasurePing(later, roll2);
  }

  // ---------------------------------------------------------------------
  // Input buffer and predictions
  // ---------------------------------------------------------------------

  /** `iter().find(|input| input.tick == tick)`. */
  function FirstInputFor(s: seq<PlayerInput>, tick: nat): (r: Option<PlayerInput>)
    ensures r.Some? ==> r.value in s && r.value.tick == tick
    ensures r.None? <==> forall k :: 0 <= k < |s| ==> s[k].tick != tick
  {
    if s == [] then None else if s[0].tick == tick then Some(s[0]) else FirstInputFor(s[1..], tick)
  }

  /** The one found is the earliest with that tick. */
  lemma {:induction false} FirstInputForEarliest(s: seq<PlayerInput>, tick: nat, k: nat)
    requires k < |s| && s[k].tick == tick && forall j :: 0 <= j < k ==> s[j].tick != tick
    ensures FirstInputFor(s, tick) == Some(s[k])
  {
    if k > 0 {
      FirstInputForEarliest(s[1..], tick, k - 1);
    }
  }

  class InputBuffer {
    var inputs: seq<PlayerInput>
    const bufferSize: nat

    ghost predicate Valid()
      reads this
    {
      |inputs| <= bufferSize
    }

    constructor (bufferSize: nat)
      ensures Valid() && inputs == [] && this.bufferSize == bufferSize
    {
      inputs := [];
      this.bufferSize := bufferSize;
    }

    /** `add_input`: appended, and the oldest dropped when over capacity. */
    method AddInput(input: PlayerInput)
      requires Valid()
      modifies this
      ensures Valid() && inputs == PushBounded(old(inputs), input, bufferSize)
      ensures bufferSize > 0 ==> GetLatestInput() == Some(input)
    {
      PushBoundedKeeps(inputs, input, bufferSize);
      inputs := inputs + [input];
      if |inputs| > bufferSize {
        inputs := inputs[1..];
      }
    }

    /** `get_input_for_tick`: the oldest buffered input for that tick. */
    function GetInputForTick(tick: nat): (r: Option<PlayerInput>)
      reads this
      ensures r.Some? ==> r.value in inputs && r.value.tick == tick
      ensures r.None? <==> forall k :: 0 <= k < |inputs| ==> inputs[k].tick != tick
    {
      FirstInputFor(inputs, tick)
    }

    /** `get_latest_input`: the newest buffered input, if any. */
    function GetLatestInput(): (r: Option<PlayerInput>)
      reads this
      ensures r.None? <==> inputs == []
      ensures r.Some? ==> r.value == inputs[|inputs| - 1]
    {
      if inputs == [] then None else Some(inputs[|inputs| - 1])
    }
  }

  /** `retain(|state| state.tick <= tick)`. */
  function KeepUpTo(s: seq<NetworkedGameState>, tick: nat): (r: seq<NetworkedGameState>)
    ensures |r| <= |s|
  {
    if s == [] then []
    else KeepUpTo(s[..|s| - 1], tick) + (if s[|s| - 1].tick <= tick then [s[|s| - 1]] else [])
  }

  /** Exactly the states at or before the tick survive, in their order. */
  lemma {:induction false} KeepUpToExactly(s: seq<NetworkedGameState>, tick: nat)
    ensures forall x :: x in KeepUpTo(s, tick) <==> x in s && x.tick <= tick
    ensures forall k :: 0 <= k < |s| && s[k].tick <= tick ==> s[k] in KeepUpTo(s, tick)
    ensures (forall k :: 0 <= k < |s| ==> s[k].tick <= tick) ==> KeepUpTo(s, tick) == s
  {
    if s != [] {
      var n := |s| - 1;
      KeepUpToExactly(s[..n], tick);
      assert s == s[..n] + [s[n]];
      forall x
        ensures x in KeepUpTo(s, tick) <==> x in s && x.tick <= tick
      {
        assert x in s <==> x in s[..n] || x == s[n];
      }
      forall k | 0 <= k < |s| && s[k].tick <= tick
        ensures s[k] in KeepUpTo(s, tick)
      {
        if k < n {
          assert s[k] == s[..n][k];
        }
      }
    }
  }

  /** `iter().find(|state| state.tick == tick)`. */
  function FirstStateFor(s: seq<NetworkedGameState>, tick: nat): (r: Option<NetworkedGameState>)
    ensures r.Some? ==> r.value in s && r.value.tick == tick
    ensures r.None? <==> forall k :: 0 <= k < |s| ==> s[k].tick != tick
  {
    if s == [] then None else if s[0].tick == tick then Some(s[0]) else FirstStateFor(s[1..], tick)
  }

  class PredictionState {
    var predictedStates: seq<NetworkedGameState>
    const maxPredictions: nat

    ghost predicate Valid()
      reads this
    {
      |predictedStates| <= maxPredictions
    }

    constructor (maxPredictions: nat)
      ensures Valid() && predictedStates == [] && this.maxPredictions == maxPredictions
    {
      predictedStates := [];
      this.maxPredictions := maxPredictions;
    }

    /** `add_prediction`: bounded like the input buffer. */
    method AddPrediction(state: NetworkedGameState)
      requires Valid()
      modifies this
      ensures Valid() && predictedStates == PushBounded(old(predictedStates), state, maxPredictions)
    {
      PushBoundedKeeps(predictedStates, state, maxPredictions);
      predictedStates := predictedStates + [state];
      if |predictedStates| > maxPredictions {
        predictedStates := predictedStates[1..];
      }
    }

    function GetPrediction(tick: nat): (r: Option<NetworkedGameState>)
      reads this
      ensures r.Some? ==> r.value in predictedStates && r.value.tick == tick
      ensures r.None? <==> forall k :: 0 <= k < |predictedStates| ==> predictedStates[k].tick != tick
    {
      FirstStateFor(predictedStates, tick)
    }

    /** `clear_predictions_after`: the retain loop, keeping states at or before the tick. */
    method ClearPredictionsAfter(tick: nat)
      requires Valid()
      modifies this
      ensures Valid() && predictedStates == KeepUpTo(old(predictedStates), tick)
      ensures forall k :: 0 <= k < |predictedStates| ==> predictedStates[k].tick <= tick
    {
      var kept: seq<NetworkedGameState> := [];
      var i := 0;
      while i < |predictedStates|
        invariant 0 <= i <= |predictedStates|
        invariant kept == KeepUpTo(predictedStates[..i], tick)
      {
        assert predictedStates[..i + 1][..i] == predictedStates[..i];
        if predictedStates[i].tick <= tick {
          kept := kept + [predictedStates[i]];
        }
        i := i + 1;
      }
      assert predictedStates[..i] == predictedStates;
      KeepUpToExactly(predictedStates, tick);
      predictedStates := kept;
    }
  }
}
