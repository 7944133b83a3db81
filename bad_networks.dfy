// Network resilience under bad conditions: packets that ask for an
// acknowledgement are kept for resending until acknowledged or timed out,
// duplicates are recognised by sequence number, and a congestion window
// grows by one per acknowledgement and collapses on loss. The window's
// rules are the program's own, not those of section 3.1 of RFC 5681.
module BadNetworks {
  import opened Common

  datatype PacketPriority = Critical | Important | Optional

  datatype NetworkPacket = NetworkPacket(id: nat, sequenceNumber: nat, data: seq<bv8>, sendTime: real,
                                         sizeBytes: nat, requiresAck: bool, priority: PacketPriority)

  /** `NetworkPacket::new`: unsent, sized by its data, and reliable exactly when critical. */
  function NewPacket(id: nat, sequenceNumber: nat, data: seq<bv8>, priority: PacketPriority): (p: NetworkPacket)
    ensures p.id == id && p.sequenceNumber == sequenceNumber && p.data == data && p.priority == priority
    ensures p.sendTime == 0.0 && p.sizeBytes == |data|
    ensures p.requiresAck <==> priority == Critical
  {
    NetworkPacket(id, sequenceNumber, data, 0.0, |data|, priority == Critical, priority)
  }

  datatype PacketDelivery = PacketDelivery(packet: NetworkPacket, deliveryTime: real, corrupted: bool, duplicated: bool)

  // ---------------------------------------------------------------------
  // Sequence helpers
  // ---------------------------------------------------------------------

  /** `retain(|&id| id != x)`: s without any x, the rest in order. */
  function RemoveAll(s: seq<nat>, x: nat): (r: seq<nat>)
    ensures |r| <= |s|
  {
    if s == [] then [] else RemoveAll(s[..|s| - 1], x) + (if s[|s| - 1] == x then [] else [s[|s| - 1]])
  }

  /** Removing x leaves no x and every other value as often as before. */
  lemma {:induction false} RemoveAllCounts(s: seq<nat>, x: nat, y: nat)
    ensures x !in RemoveAll(s, x)
    ensures y != x ==> Count(RemoveAll(s, x), y) == Count(s, y)
  {
    if s != [] {
      var n := |s| - 1;
      RemoveAllCounts(s[..n], x, y);
      assert s == s[..n] + [s[n]];
      var tail := if s[n] == x then [] else [s[n]];
      CountAppend(RemoveAll(s[..n], x), tail, y);
      CountAppend(s[..n], [s[n]], y);
    }
  }

  lemma {:induction false} CountAppend(a: seq<nat>, b: seq<nat>, y: nat)
    ensures Count(a + b, y) == Count(a, y) + Count(b, y)
    decreases |b|
  {
    if b != [] {
      var n := |b| - 1;
      assert a + b == (a + b[..n]) + [b[n]];
      assert b == b[..n] + [b[n]];
      CountAppend(a, b[..n], y);
      CountSnoc(a + b[..n], b[n], y);
      CountSnoc(b[..n], b[n], y);
    } else {
      assert a + b == a;
    }
  }

  /** `iter().find(|p| p.id == id)`: the first packet with that id. */
  function FindById(s: seq<NetworkPacket>, id: nat): (r: Option<NetworkPacket>)
    ensures r.Some? ==> r.value in s && r.value.id == id
    ensures r.None? <==> forall k :: 0 <= k < |s| ==> s[k].id != id
  {
    if s == [] then None else if s[0].id == id then Some(s[0]) else FindById(s[1..], id)
  }

  /** The first is the earliest: no packet before the one found has that id. */
  lemma {:induction false} FindByIdFirst(s: seq<NetworkPacket>, id: nat, k: nat)
    requires k < |s| && s[k].id == id && forall j :: 0 <= j < k ==> s[j].id != id
    ensures FindById(s, id) == Some(s[k])
  {
    if k > 0 {
      FindByIdFirst(s[1..], id, k - 1);
    }
  }

  /** How many packets at the front of `sent` have waited longer than the threshold. */
  function TimedOutPrefix(sent: seq<NetworkPacket>, now: real, threshold: real): (n: nat)
    ensures n <= |sent|
    ensures forall k :: 0 <= k < n ==> now - sent[k].sendTime > threshold
    ensures n < |sent| ==> now - sent[n].sendTime <= threshold
  {
    if sent == [] || now - sent[0].sendTime <= threshold then 0
    else 1 + TimedOutPrefix(sent[1..], now, threshold)
  }

  /** The prefix the ensures of TimedOutPrefix describe is the only one. */
  lemma {:induction false} TimedOutPrefixUnique(sent: seq<NetworkPacket>, now: real, threshold: real, n: nat)
    requires n <= |sent| && (forall k :: 0 <= k < n ==> now - sent[k].sendTime > threshold)
    requires n < |sent| ==> now - sent[n].sendTime <= threshold
    ensures TimedOutPrefix(sent, now, threshold) == n
  {
    if n > 0 {
      TimedOutPrefixUnique(sent[1..], now, threshold, n - 1);
    }
  }

  /** How many deliveries at the front of the queue are due by now. */
  function DuePrefix(q: seq<PacketDelivery>, now: real): (n: nat)
    ensures n <= |q|
    ensures forall k :: 0 <= k < n ==> q[k].deliveryTime <= now
    ensures n < |q| ==> q[n].deliveryTime > now
  {
    if q == [] || q[0].deliveryTime > now then 0 else 1 + DuePrefix(q[1..], now)
  }

  lemma {:induction false} DuePrefixUnique(q: seq<PacketDelivery>, now: real, n: nat)
    requires n <= |q| && (forall k :: 0 <= k < n ==> q[k].deliveryTime <= now)
    requires n < |q| ==> q[n].deliveryTime > now
    ensures DuePrefix(q, now) == n
  {
    if n > 0 {
      DuePrefixUnique(q[1..], now, n - 1);
    }
  }

  // ---------------------------------------------------------------------
  // The reliability system
  // ---------------------------------------------------------------------

  /** The fields of a ReliabilitySystem that its operations change. */
  datatype Reliability = Reliability(sentPackets: seq<NetworkPacket>, receivedSequences: set<nat>,
                                     ackWaitingList: seq<nat>, rttEstimate: real)

  /** `receive_ack`: the id leaves the waiting list; a kept packet with that id updates the RTT average. */
  function AckReliability(r: Reliability, id: nat, now: real): (r': Reliability)
    ensures r'.sentPackets == r.sentPackets && r'.receivedSequences == r.receivedSequences
    ensures id !in r'.ackWaitingList
  {
    RemoveAllCounts(r.ackWaitingList, id, id);
    var rtt := match FindById(r.sentPackets, id)
      case Some(p) => r.rttEstimate * 0.9 + (now - p.sendTime) * 0.1
      case None => r.rttEstimate;
    r.(ackWaitingList := RemoveAll(r.ackWaitingList, id), rttEstimate := rtt)
  }

  class ReliabilitySystem {
    var sentPackets: seq<NetworkPacket>
    var receivedSequences: set<nat>
    var ackWaitingList: seq<nat>
    var resendQueue: seq<NetworkPacket>
    var maxResendAttempts: nat
    var rttEstimate: real
    var congestionWindow: nat

    ghost function State(): Reliability
      reads this
    {
      Reliability(sentPackets, receivedSequences, ackWaitingList, rttEstimate)
    }

    /** `ReliabilitySystem::new`: nothing sent or seen, RTT estimate 100 ms. */
    constructor ()
      ensures State() == Reliability([], {}, [], 0.1)
      ensures resendQueue == [] && maxResendAttempts == 5 && congestionWindow == 10
    {
      sentPackets, receivedSequences, ackWaitingList, resendQueue := [], {}, [], [];
      maxResendAttempts, rttEstimate, congestionWindow := 5, 0.1, 10;
    }

    /** `send_packet`: stamps the send time; only packets that need an acknowledgement are kept and awaited. */
    method SendPacket(packet: NetworkPacket, now: real) returns (r: Option<NetworkPacket>)
      modifies this
      ensures r == Some(packet.(sendTime := now))
      ensures packet.requiresAck ==>
        sentPackets == old(sentPackets) + [r.value] && ackWaitingList == old(ackWaitingList) + [packet.id]
      ensures !packet.requiresAck ==> sentPackets == old(sentPackets) && ackWaitingList == old(ackWaitingList)
      ensures receivedSequences == old(receivedSequences) && rttEstimate == old(rttEstimate)
      ensures resendQueue == old(resendQueue)
    {
      var p := packet.(sendTime := now);
      if p.requiresAck {
        sentPackets := sentPackets + [p];
        ackWaitingList := ackWaitingList + [p.id];
      }
      r := Some(p);
    }

    /** `receive_ack`, with the source's retain and find loops. */
    method ReceiveAck(id: nat, now: real)
      modifies this
      ensures State() == AckReliability(old(State()), id, now)
      ensures resendQueue == old(resendQueue)
    {
      var kept: seq<nat> := [];
      var i := 0;
      while i < |ackWaitingList|
        invariant 0 <= i <= |ackWaitingList|
        invariant kept == RemoveAll(ackWaitingList[..i], id)
      {
        assert ackWaitingList[..i + 1][..i] == ackWaitingList[..i];
        if ackWaitingList[i] != id {
          kept := kept + [ackWaitingList[i]];
        }
        i := i + 1;
      }
      assert ackWaitingList[..i] == ackWaitingList;
      ackWaitingList := kept;
      var j := 0;
      while j < |sentPackets| && sentPackets[j].id != id
        invariant 0 <= j <= |sentPackets|
        invariant forall k :: 0 <= k < j ==> sentPackets[k].id != id
      {
        j := j + 1;
      }
      if j < |sentPackets| {
        FindByIdFirst(sentPackets, id, j);
        rttEstimate := rttEstimate * 0.9 + (now - sentPackets[j].sendTime) * 0.1;
      }
    }

    /** `check_timeouts`: pops, in order, every packet at the front that has waited more than twice the RTT estimate. */
    method CheckTimeouts(now: real) returns (timedOut: seq<NetworkPacket>)
      modifies this
      ensures var n := TimedOutPrefix(old(sentPackets), now, 2.0 * old(rttEstimate));
        timedOut == old(sentPackets)[..n] && sentPackets == old(sentPackets)[n..]
      ensures receivedSequences == old(receivedSequences) && ackWaitingList == old(ackWaitingList)
      ensures rttEstimate == old(rttEstimate) && resendQueue == old(resendQueue)
    {
      timedOut := [];
      var threshold := rttEstimate * 2.0;
      var rest := sentPackets;
      while |rest| > 0 && now - rest[0].sendTime > threshold
        invariant |timedOut| <= |sentPackets| && timedOut == sentPackets[..|timedOut|] && rest == sentPackets[|timedOut|..]
        invariant forall k :: 0 <= k < |timedOut| ==> now - sentPackets[k].sendTime > threshold
        decreases |rest|
      {
        timedOut := timedOut + [rest[0]];
        rest := rest[1..];
      }
      TimedOutPrefixUnique(sentPackets, now, threshold, |timedOut|);
      sentPackets := rest;
    }

    /** `process_received_packet`: accepted exactly when the sequence number is new; it is recorded either way. */
    method ProcessReceivedPacket(packet: NetworkPacket) returns (accepted: bool)
      modifies this
      ensures accepted <==> packet.sequenceNumber !in old(receivedSequences)
      ensures receivedSequences == old(receivedSequences) + {packet.sequenceNumber}
      ensures sentPackets == old(sentPackets) && ackWaitingList == old(ackWaitingList)
      ensures rttEstimate == old(rttEstimate) && resendQueue == old(resendQueue)
    {
      if packet.sequenceNumber in receivedSequences {
        return false;
      }
      receivedSequences := receivedSequences + {packet.sequenceNumber};
      accepted := true;
    }
  }

  /** Receiving the same packet twice: the second copy is always discarded. */
  method ProcessTwice(r: ReliabilitySystem, packet: NetworkPacket) returns (first: bool, second: bool)
    modifies r
    ensures first <==> packet.sequenceNumber !in old(r.receivedSequences)
    ensures !second
  {
    first := r.ProcessReceivedPacket(packet);
    second := r.ProcessReceivedPacket(packet);
  }

  // ---------------------------------------------------------------------
  // Congestion control
  // ---------------------------------------------------------------------

  datatype Congestion = Congestion(slowStart: bool, congestionAvoidance: bool, fastRetransmit: bool,
                                   fastRecovery: bool, ssthresh: nat, cwnd: nat, duplicateAckCount: nat)

  /**
   * The states congestion control can reach: a window of at least one, a
   * threshold of at least one, exactly one phase, and the window on the
   * phase's side of the threshold.
   */
  predicate Healthy(c: Congestion) {
    c.cwnd >= 1 && c.ssthresh >= 1 && c.slowStart != c.congestionAvoidance &&
    (c.slowStart ==> c.cwnd <= c.ssthresh) && (c.congestionAvoidance ==> c.cwnd >= c.ssthresh)
  }

  /** `on_packet_loss`: the threshold halves (at least 1), the window restarts at 1, in slow start. */
  function OnLoss(c: Congestion): Congestion {
    c.(ssthresh := MaxN(c.cwnd / 2, 1), cwnd := 1, slowStart := true, congestionAvoidance := false)
  }

  function MaxN(a: nat, b: nat): nat { if a >= b then a else b }

  /** `on_ack_received`: one more in either phase; slow start ends once the window reaches the threshold. */
  function OnAck(c: Congestion): Congestion {
    if c.slowStart then
      if c.cwnd + 1 >= c.ssthresh then c.(cwnd := c.cwnd + 1, slowStart := false, congestionAvoidance := true)
      else c.(cwnd := c.cwnd + 1)
    else if c.congestionAvoidance then c.(cwnd := c.cwnd + 1)
    else c
  }

  /** Loss and acknowledgement keep congestion control healthy; every acknowledgement grows the window by one. */
  lemma CongestionSteps(c: Congestion)
    requires Healthy(c)
    ensures Healthy(OnLoss(c)) && OnLoss(c).cwnd == 1 && OnLoss(c).ssthresh >= 1
    ensures Healthy(OnAck(c)) && OnAck(c).cwnd == c.cwnd + 1
  {
  }

  /** The starting state: slow start towards 64 from a window of 1. */
  const InitialCongestion := Congestion(true, false, false, false, 64, 1, 0)

  /** k acknowledgements from a healthy state grow the window by exactly k, and slow start ends at the first that reaches the threshold. */
  function Acks(c: Congestion, k: nat): Congestion {
    if k == 0 then c else OnAck(Acks(c, k - 1))
  }

  lemma {:induction false} AcksGrow(c: Congestion, k: nat)
    requires Healthy(c)
    ensures Healthy(Acks(c, k)) && Acks(c, k).cwnd == c.cwnd + k
    ensures Acks(c, k).ssthresh == c.ssthresh
    ensures k > 0 && c.cwnd + k >= c.ssthresh ==> Acks(c, k).congestionAvoidance
    ensures c.cwnd + k < c.ssthresh ==> Acks(c, k).slowStart == c.slowStart
  {
    if k > 0 {
      AcksGrow(c, k - 1);
      CongestionSteps(Acks(c, k - 1));
    }
  }

  class CongestionControl {
    var slowStart: bool
    var congestionAvoidance: bool
    var fastRetransmit: bool
    var fastRecovery: bool
    var ssthresh: nat
    var cwnd: nat
    var duplicateAckCount: nat

    ghost function State(): Congestion
      reads this
    {
      Congestion(slowStart, congestionAvoidance, fastRetransmit, fastRecovery, ssthresh, cwnd, duplicateAckCount)
    }

    ghost predicate Valid()
      reads this
    {
      Healthy(State())
    }

    constructor ()
      ensures State() == InitialCongestion && Valid()
    {
      slowStart, congestionAvoidance, fastRetransmit, fastRecovery := true, false, false, false;
      ssthresh, cwnd, duplicateAckCount := 64, 1, 0;
    }

    method OnPacketLoss()
      requires Valid()
      modifies this
      ensures Valid() && State() == OnLoss(old(State()))
    {
      CongestionSteps(State());
      ssthresh := MaxN(cwnd / 2, 1);
      cwnd := 1;
      slowStart := true;
      congestionAvoidance := false;
    }

    method OnAckReceived()
      requires Valid()
      modifies this
      ensures Valid() && State() == OnAck(old(State()))
    {
      CongestionSteps(State());
      if slowStart {
        cwnd := cwnd + 1;
        if cwnd >= ssthresh {
          slowStart := false;
          congestionAvoidance := true;
        }
      } else if congestionAvoidance {
        cwnd := cwnd + 1;
      }
    }

    function GetSendWindow(): (w: nat)
      requires Valid()
      reads this
      ensures w >= 1 && w == State().cwnd
    {
      cwnd
    }
  }

  // ---------------------------------------------------------------------
  // Receiving
  // ---------------------------------------------------------------------

  /** What receiving has produced so far: the accepted packets and the two subsystems' states. */
  datatype Inbox = Inbox(received: seq<NetworkPacket>, reliability: Reliability, congestion: Congestion)

  /** One due delivery: an intact packet with a new sequence number is accepted, and acknowledged if it asks. */
  function Deliver(b: Inbox, d: PacketDelivery, now: real): Inbox {
    var p := d.packet;
    if !d.corrupted && p.sequenceNumber !in b.reliability.receivedSequences then
      var rel := b.reliability.(receivedSequences := b.reliability.receivedSequences + {p.sequenceNumber});
      if p.requiresAck then Inbox(b.received + [p], AckReliability(rel, p.id, now), OnAck(b.congestion))
      else Inbox(b.received + [p], rel, b.congestion)
    else b
  }

  function DeliverAll(b: Inbox, ds: seq<PacketDelivery>, now: real): Inbox
    decreases |ds|
  {
    if ds == [] then b else Deliver(DeliverAll(b, ds[..|ds| - 1], now), ds[|ds| - 1], now)
  }

  /** What receiving promises: every accepted packet was delivered intact, had a sequence number never seen before and now recorded, and no two share one; congestion stays healthy. */
  predicate Accepted(b0: Inbox, b: Inbox, ds: seq<PacketDelivery>) {
    |b0.received| <= |b.received| && b.received[..|b0.received|] == b0.received &&
    b0.reliability.receivedSequences <= b.reliability.receivedSequences &&
    b.reliability.sentPackets == b0.reliability.sentPackets &&
    (Healthy(b0.congestion) ==> Healthy(b.congestion)) &&
    forall k :: |b0.received| <= k < |b.received| ==>
      b.received[k].sequenceNumber !in b0.reliability.receivedSequences &&
      b.received[k].sequenceNumber in b.reliability.receivedSequences &&
      Intact(ds, b.received[k]) &&
      forall k' :: k < k' < |b.received| ==> b.received[k].sequenceNumber != b.received[k'].sequenceNumber
  }

  predicate Intact(ds: seq<PacketDelivery>, p: NetworkPacket) {
    exists j :: 0 <= j < |ds| && ds[j].packet == p && !ds[j].corrupted
  }

  lemma {:induction false} DeliverAllAccepts(b0: Inbox, ds: seq<PacketDelivery>, now: real)
    ensures Accepted(b0, DeliverAll(b0, ds, now), ds)
    decreases |ds|
  {
    if ds != [] {
      var n := |ds| - 1;
      var prev := DeliverAll(b0, ds[..n], now);
      DeliverAllAccepts(b0, ds[..n], now);
      var b := DeliverAll(b0, ds, now);
      var d := ds[n];
      if Healthy(b0.congestion) {
        CongestionSteps(prev.congestion);
      }
      forall k | |b0.received| <= k < |prev.received|
        ensures Intact(ds, prev.received[k])
      {
        var j :| 0 <= j < n && ds[..n][j].packet == prev.received[k] && !ds[..n][j].corrupted;
        assert ds[j] == ds[..n][j];
      }
      if b != prev {
        assert b.received == prev.received + [d.packet];
        assert Intact(ds, d.packet) by { assert ds[n].packet == d.packet; }
        forall k | |b0.received| <= k < |prev.received|
          ensures prev.received[k].sequenceNumber != d.packet.sequenceNumber
        {
        }
      }
    }
  }

  lemma {:induction false} DeliverAllSnoc(b: Inbox, ds: seq<PacketDelivery>, d: PacketDelivery, now: real)
    ensures DeliverAll(b, ds + [d], now) == Deliver(DeliverAll(b, ds, now), d, now)
  {
    assert (ds + [d])[..|ds|] == ds;
  }

  /** The network simulator's state that receiving touches, with the conditions it was last given. */
  class NetworkSimulator {
    var conditions: NetworkCondition
    var packetQueue: seq<PacketDelivery>
    var nextPacketId: nat
    var sequenceCounter: nat
    const reliabilitySystem: ReliabilitySystem
    const congestionControl: CongestionControl
    var currentTime: real

    ghost predicate Valid()
      reads this, congestionControl
    {
      congestionControl.Valid()
    }

    ghost function Box(): Inbox
      reads this, reliabilitySystem, congestionControl
    {
      Inbox([], reliabilitySystem.State(), congestionControl.State())
    }

    /** `NetworkSimulator::new`: an empty queue, fresh subsystems, time 0. */
    constructor (c: NetworkCondition)
      ensures Valid() && conditions == c && packetQueue == [] && nextPacketId == 0 && sequenceCounter == 0
      ensures currentTime == 0.0 && fresh(reliabilitySystem) && fresh(congestionControl)
      ensures reliabilitySystem.State() == Reliability([], {}, [], 0.1) && congestionControl.State() == InitialCongestion
    {
      conditions := c;
      packetQueue := [];
      nextPacketId, sequenceCounter := 0, 0;
      reliabilitySystem := new ReliabilitySystem();
      congestionControl := new CongestionControl();
      currentTime := 0.0;
    }

    /**
     * `receive_packets`: takes, in order, every delivery due by now off the
     * front of the queue and returns the accepted packets.
     */
    method ReceivePackets() returns (received: seq<NetworkPacket>)
      requires Valid()
      modifies this, reliabilitySystem, congestionControl
      ensures Valid() && conditions == old(conditions) && currentTime == old(currentTime)
      ensures nextPacketId == old(nextPacketId) && sequenceCounter == old(sequenceCounter)
      ensures var n := DuePrefix(old(packetQueue), currentTime);
        var b := DeliverAll(old(Box()), old(packetQueue)[..n], currentTime);
        packetQueue == old(packetQueue)[n..] &&
        received == b.received && reliabilitySystem.State() == b.reliability && congestionControl.State() == b.congestion
    {
      ghost var q0 := packetQueue;
      ghost var b0 := Box();
      received := [];
      ghost var i := 0;
      while |packetQueue| > 0 && packetQueue[0].deliveryTime <= currentTime
        invariant i <= |q0| && packetQueue == q0[i..] && congestionControl.Valid()
        invariant forall k :: 0 <= k < i ==> q0[k].deliveryTime <= currentTime
        invariant DeliverAll(b0, q0[..i], currentTime) == Inbox(received, reliabilitySystem.State(), congestionControl.State())
        invariant unchanged(this`conditions, this`nextPacketId, this`sequenceCounter, this`currentTime)
        decreases |packetQueue|
      {
        var d := packetQueue[0];
        packetQueue := packetQueue[1..];
        assert q0[..i + 1] == q0[..i] + [d];
        DeliverAllSnoc(b0, q0[..i], d, currentTime);
        i := i + 1;
        if !d.corrupted {
          var isNew := reliabilitySystem.ProcessReceivedPacket(d.packet);
          if isNew {
            if d.packet.requiresAck {
              reliabilitySystem.ReceiveAck(d.packet.id, currentTime);
              congestionControl.OnAckReceived();
            }
            received := received + [d.packet];
          }
        }
      }
      DuePrefixUnique(q0, currentTime, i);
    }

    method SetConditions(c: NetworkCondition)
      modifies this
      ensures conditions == c && packetQueue == old(packetQueue) && currentTime == old(currentTime)
      ensures nextPacketId == old(nextPacketId) && sequenceCounter == old(sequenceCounter)
    {
      conditions := c;
    }
  }

  // ---------------------------------------------------------------------
  // Network conditions
  // ---------------------------------------------------------------------

  datatype NetworkCondition = NetworkCondition(latencyMs: real, jitterMs: real, packetLossPercent: real,
                                               duplicationPercent: real, corruptionPercent: real,
                                               outOfOrderPercent: real, bandwidthKbps: real)

  const ConditionNames: seq<string> := ["Excellent", "Good", "Poor", "Terrible", "Satellite", "Mobile 4G"]

  /** The preset for each position of the condition list; anything past the list is Good. */
  function Preset(i: nat): NetworkCondition {
    if i == 0 then NetworkCondition(20.0, 2.0, 0.1, 0.0, 0.0, 0.0, 1000.0)
    else if i == 2 then NetworkCondition(200.0, 50.0, 5.0, 1.0, 2.0, 10.0, 100.0)
    else if i == 3 then NetworkCondition(500.0, 200.0, 15.0, 5.0, 10.0, 30.0, 20.0)
    else if i == 4 then NetworkCondition(600.0, 100.0, 2.0, 0.5, 0.5, 5.0, 50.0)
    else if i == 5 then NetworkCondition(80.0, 20.0, 3.0, 0.5, 1.0, 8.0, 200.0)
    else NetworkCondition(50.0, 5.0, 0.5, 0.1, 0.1, 1.0, 500.0)
  }

  /** Latency and loss rise from Excellent to Terrible; Satellite has the worst latency of all. */
  lemma PresetsOrdered(i: nat)
    requires i < |ConditionNames|
    ensures Preset(0).latencyMs < Preset(1).latencyMs < Preset(2).latencyMs < Preset(3).latencyMs
    ensures Preset(0).packetLossPercent < Preset(1).packetLossPercent < Preset(2).packetLossPercent < Preset(3).packetLossPercent
    ensures Preset(i).latencyMs <= Preset(4).latencyMs
  {
  }

  /** The demo: which preset the simulator runs under. */
  class BadNetworksDemo {
    const simulator: NetworkSimulator
    var currentCondition: nat

    ghost predicate Valid()
      reads this, simulator
    {
      currentCondition < |ConditionNames| && simulator.conditions == Preset(currentCondition)
    }

    /** `BadNetworksDemo::new`: under Good conditions, at position 1 of the list. */
    constructor ()
      ensures Valid() && currentCondition == 1 && fresh(simulator)
    {
      simulator := new NetworkSimulator(Preset(1));
      currentCondition := 1;
    }

    /** `cycle_network_condition`: the next preset in the list, wrapping round to Excellent. */
    method CycleNetworkCondition()
      requires Valid()
      modifies this, simulator
      ensures Valid() && currentCondition == (old(currentCondition) + 1) % |ConditionNames|
      ensures simulator.packetQueue == old(simulator.packetQueue) && simulator.currentTime == old(simulator.currentTime)
    {
      currentCondition := (currentCondition + 1) % |ConditionNames|;
      simulator.SetConditions(Preset(currentCondition));
    }
  }
}
