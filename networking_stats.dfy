// Network statistics: packet and byte counters, a bounded window of
// round-trip samples with running minimum, maximum and mean, per-second rates,
// the loss rate, packet compression, adaptive send-rate control, and the
// connection-quality grade built from them.
module NetworkingStats {
  import opened Common

  /** Round-trip samples are kept to the hundred newest. */
  const MaxSamples: nat := 100

  /** The smallest value of a non-empty list. */
  function MinOf(s: seq<real>): (m: real)
    requires s != []
    ensures (forall k :: 0 <= k < |s| ==> m <= s[k]) && exists k :: 0 <= k < |s| && s[k] == m
  {
    if |s| == 1 then s[0]
    else
      var rest := MinOf(s[1..]);
      assert forall k :: 1 <= k < |s| ==> s[k] == s[1..][k - 1];
      MinR(s[0], rest)
  }

  /** The largest value of a list, starting from 0 as `max_rtt` does. */
  function MaxFromZero(s: seq<real>): (m: real)
    ensures m >= 0.0 && forall k :: 0 <= k < |s| ==> s[k] <= m
    ensures m == 0.0 || exists k :: 0 <= k < |s| && s[k] == m
  {
    if s == [] then 0.0
    else
      var rest := MaxFromZero(s[1..]);
      assert forall k :: 1 <= k < |s| ==> s[k] == s[1..][k - 1];
      MaxR(s[0], rest)
  }

  /** The hundred newest values of a list, oldest first. */
  function Window(s: seq<real>): (w: seq<real>)
    ensures |w| == if |s| < MaxSamples then |s| else MaxSamples
  {
    if |s| <= MaxSamples then s else s[|s| - MaxSamples..]
  }

  /** Recording one more value pushes it onto the window, dropping the oldest beyond a hundred. */
  lemma WindowSnoc(s: seq<real>, x: real)
    ensures Window(s + [x]) == PushBounded(Window(s), x, MaxSamples)
  {
    PushBoundedKeeps(Window(s), x, MaxSamples);
    if |s| >= MaxSamples {
      assert Window(s + [x]) == (s + [x])[|s| + 1 - MaxSamples..];
      assert (Window(s) + [x])[1..] == (s + [x])[|s| + 1 - MaxSamples..];
    }
  }

  /** Adding a value to a non-empty list updates the running minimum by one comparison. */
  lemma MinSnoc(s: seq<real>, x: real)
    requires s != []
    ensures MinOf(s + [x]) == MinR(MinOf(s), x)
  {
    hide MinOf;
    var t := s + [x];
    var m, a := MinOf(t), MinOf(s);
    var j :| 0 <= j < |t| && t[j] == m;
    var i :| 0 <= i < |s| && s[i] == a;
    assert t[i] == a && t[|s|] == x;
    if j < |s| {
      assert t[j] == s[j];
    }
  }

  /** Adding a value to the list updates the running maximum by one comparison. */
  lemma MaxSnoc(s: seq<real>, x: real)
    ensures MaxFromZero(s + [x]) == MaxR(MaxFromZero(s), x)
  {
    hide MaxFromZero;
    var t := s + [x];
    var m, a := MaxFromZero(t), MaxFromZero(s);
    assert t[|s|] == x;
    if a != 0.0 {
      var i :| 0 <= i < |s| && s[i] == a;
      assert t[i] == a;
    }
    if m != 0.0 {
      var j :| 0 <= j < |t| && t[j] == m;
      if j < |s| {
        assert t[j] == s[j];
      }
    }
  }

  /** One more recorded round-trip time moves the window, the minimum and the maximum on by one step each. */
  lemma RecordStep(rec: seq<real>, rtt: real, min0: Option<real>, max0: real)
    requires (min0.Some? <==> rec != []) && (rec != [] ==> min0 == Some(MinOf(rec))) && max0 == MaxFromZero(rec)
    ensures MinOf(rec + [rtt]) == if min0.Some? then MinR(min0.value, rtt) else rtt
    ensures MaxFromZero(rec + [rtt]) == MaxR(max0, rtt)
    ensures Window(rec + [rtt]) == PushBounded(Window(rec), rtt, MaxSamples)
  {
    WindowSnoc(rec, rtt);
    MaxSnoc(rec, rtt);
    if rec != [] {
      MinSnoc(rec, rtt);
    } else {
      assert rec + [rtt] == [rtt];
    }
  }

  /** The mean of a non-empty list is its sum over its length. */
  lemma MeanOf(s: seq<real>, sum: real)
    requires s != [] && sum == Sum(s)
    ensures Mean(s) == sum / |s| as real
  {
  }

  /** The window part of `record_rtt`: push the sample, drop the oldest beyond a hundred, and take the mean. */
  method PushSample(window: seq<real>, rtt: real) returns (samples: seq<real>, average: real)
    requires |window| <= MaxSamples
    ensures samples == PushBounded(window, rtt, MaxSamples) && samples[|samples| - 1] == rtt
    ensures average == Mean(samples)
  {
    samples := window + [rtt];
    if |samples| > 100 {
      samples := samples[1..];
    }
    PushBoundedKeeps(window, rtt, MaxSamples);
    var sum := SumOf(samples);
    average := sum / |samples| as real;
    MeanOf(samples, sum);
  }

  /** `NetworkStats`. Every round-trip time ever recorded is kept as ghost `recorded`, to state what the running values are. */
  class NetworkStats {
    var totalPacketsSent: nat
    var totalPacketsReceived: nat
    var totalBytesSent: nat
    var totalBytesReceived: nat
    var packetsLost: nat
    var averageRtt: real
    /** `min_rtt`; `None` stands for the initial `f64::INFINITY`. */
    var minRtt: Option<real>
    var maxRtt: real
    var packetsPerSecond: real
    var bytesPerSecond: real
    var lastUpdateTime: real
    var rttSamples: seq<real>
    ghost var recorded: seq<real>

    /** The window holds the hundred newest samples, the average is their mean, and min and max run over all of them. */
    ghost predicate Valid()
      reads this
    {
      rttSamples == Window(recorded) &&
      averageRtt == Mean(rttSamples) &&
      (minRtt.Some? <==> recorded != []) && (recorded != [] ==> minRtt == Some(MinOf(recorded))) &&
      maxRtt == MaxFromZero(recorded)
    }

    /** `NetworkStats::new`: all counters zero, no samples. */
    constructor ()
      ensures Valid() && recorded == []
      ensures totalPacketsSent == 0 && totalPacketsReceived == 0 && totalBytesSent == 0 && totalBytesReceived == 0
      ensures packetsLost == 0 && lastUpdateTime == 0.0 && packetsPerSecond == 0.0 && bytesPerSecond == 0.0
    {
      totalPacketsSent, totalPacketsReceived, totalBytesSent, totalBytesReceived, packetsLost := 0, 0, 0, 0, 0;
      averageRtt, minRtt, maxRtt := 0.0, None, 0.0;
      packetsPerSecond, bytesPerSecond, lastUpdateTime := 0.0, 0.0, 0.0;
      rttSamples := [];
      recorded := [];
    }

    /** `record_packet_sent`: one more packet and `size` more bytes sent. */
    method RecordPacketSent(size: nat)
      modifies this
      ensures totalPacketsSent == old(totalPacketsSent) + 1 && totalBytesSent == old(totalBytesSent) + size
      ensures totalPacketsReceived == old(totalPacketsReceived) && totalBytesReceived == old(totalBytesReceived)
      ensures packetsLost == old(packetsLost) && rttSamples == old(rttSamples) && recorded == old(recorded)
      ensures averageRtt == old(averageRtt) && minRtt == old(minRtt) && maxRtt == old(maxRtt)
    {
      totalPacketsSent := totalPacketsSent + 1;
      totalBytesSent := totalBytesSent + size;
    }

    /** `record_packet_received`: one more packet and `size` more bytes received. */
    method RecordPacketReceived(size: nat)
      modifies this
      ensures totalPacketsReceived == old(totalPacketsReceived) + 1 && totalBytesReceived == old(totalBytesReceived) + size
      ensures totalPacketsSent == old(totalPacketsSent) && totalBytesSent == old(totalBytesSent)
      ensures packetsLost == old(packetsLost) && rttSamples == old(rttSamples) && recorded == old(recorded)
      ensures averageRtt == old(averageRtt) && minRtt == old(minRtt) && maxRtt == old(maxRtt)
    {
      totalPacketsReceived := totalPacketsReceived + 1;
      totalBytesReceived := totalBytesReceived + size;
    }

    /** `record_packet_lost`: one more lost packet. */
    method RecordPacketLost()
      modifies this
      ensures packetsLost == old(packetsLost) + 1
      ensures totalPacketsSent == old(totalPacketsSent) && totalBytesSent == old(totalBytesSent)
      ensures totalPacketsReceived == old(totalPacketsReceived) && totalBytesReceived == old(totalBytesReceived)
      ensures rttSamples == old(rttSamples) && recorded == old(recorded)
      ensures averageRtt == old(averageRtt) && minRtt == old(minRtt) && maxRtt == old(maxRtt)
    {
      packetsLost := packetsLost + 1;
    }

    /**
     * `record_rtt`: the sample joins the window (the oldest dropped beyond a
     * hundred), the running minimum and maximum take it into account, and
     * the average becomes the window's mean.
     */
    method RecordRtt(rtt: real)
      requires Valid()
      modifies this
      ensures Valid() && recorded == old(recorded) + [rtt]
      ensures rttSamples == PushBounded(old(rttSamples), rtt, MaxSamples)
      ensures rttSamples[|rttSamples| - 1] == rtt
      ensures minRtt == Some(if old(minRtt).Some? then MinR(old(minRtt).value, rtt) else rtt)
      ensures maxRtt == MaxR(old(maxRtt), rtt)
      ensures totalPacketsSent == old(totalPacketsSent) && totalBytesSent == old(totalBytesSent)
      ensures totalPacketsReceived == old(totalPacketsReceived) && totalBytesReceived == old(totalBytesReceived)
      ensures packetsLost == old(packetsLost) && lastUpdateTime == old(lastUpdateTime)
    {
      hide MinOf, MaxFromZero, Window, Mean;
      RecordStep(recorded, rtt, minRtt, maxRtt);
      var samples, average := PushSample(rttSamples, rtt);
      recorded := recorded + [rtt];
      rttSamples := samples;
      minRtt := Some(if minRtt.Some? then MinR(minRtt.value, rtt) else rtt);
      maxRtt := MaxR(maxRtt, rtt);
      averageRtt := average;
    }

    /**
     * `update_rates`: when time has moved on (`dt > 0`) and at least a
     * second has passed since the last update, the per-second rates are
     * taken from the sent counters and the four traffic counters restart
     * from 0; lost packets are never reset.
     */
    method UpdateRates(currentTime: real, dt: real)
      modifies this
      ensures packetsLost == old(packetsLost) && rttSamples == old(rttSamples) && recorded == old(recorded)
      ensures averageRtt == old(averageRtt) && minRtt == old(minRtt) && maxRtt == old(maxRtt)
      ensures var diff := currentTime - old(lastUpdateTime);
        (dt > 0.0 && diff >= 1.0 ==>
          packetsPerSecond == old(totalPacketsSent) as real / diff &&
          bytesPerSecond == old(totalBytesSent) as real / diff &&
          lastUpdateTime == currentTime &&
          totalPacketsSent == 0 && totalBytesSent == 0 && totalPacketsReceived == 0 && totalBytesReceived == 0) &&
        (!(dt > 0.0 && diff >= 1.0) ==>
          packetsPerSecond == old(packetsPerSecond) && bytesPerSecond == old(bytesPerSecond) &&
          lastUpdateTime == old(lastUpdateTime) &&
          totalPacketsSent == old(totalPacketsSent) && totalBytesSent == old(totalBytesSent) &&
          totalPacketsReceived == old(totalPacketsReceived) && totalBytesReceived == old(totalBytesReceived))
    {
      if dt > 0.0 {
        var timeDiff := currentTime - lastUpdateTime;
        if timeDiff >= 1.0 {
          packetsPerSecond := totalPacketsSent as real / timeDiff;
          bytesPerSecond := totalBytesSent as real / timeDiff;
          lastUpdateTime := currentTime;
          totalPacketsSent := 0;
          totalBytesSent := 0;
          totalPacketsReceived := 0;
          totalBytesReceived := 0;
        }
      }
    }

    /** `get_packet_loss_rate`. */
    function PacketLossRate(): real
      reads this
    {
      LossRate(totalPacketsSent, totalPacketsReceived, packetsLost)
    }
  }

  /** The sum of a list, added up from the front as `iter().sum()` does. */
  method SumOf(s: seq<real>) returns (sum: real)
    ensures sum == Sum(s)
  {
    sum := 0.0;
    var i := 0;
    while i < |s|
      invariant 0 <= i <= |s| && sum == Sum(s[..i])
    {
      assert s[..i + 1] == s[..i] + [s[i]];
      SumSnoc(s[..i], s[i]);
      sum := sum + s[i];
      i := i + 1;
    }
    assert s[..i] == s;
  }

  /**
   * The loss rate in percent: lost packets over all packets counted, and 0
   * when none are. It is 0 exactly when nothing was lost, and 100 exactly
   * when every packet counted was lost.
   */
  function LossRate(sent: nat, received: nat, lost: nat): (r: real)
    ensures 0.0 <= r <= 100.0
    ensures r == 0.0 <==> lost == 0
    ensures r == 100.0 <==> lost > 0 && sent + received == 0
  {
    var total := sent + received + lost;
    if total > 0 then lost as real / total as real * 100.0 else 0.0
  }

  // ---------------------------------------------------------------------
  // Packets and the optimiser
  // ---------------------------------------------------------------------

  datatype PacketType = PositionUpdate | InputUpdate | StateSync | Ping | Pong | ChatMessage | EntitySpawn | EntityDestroy

  datatype NetworkPacket = NetworkPacket(id: nat, sizeBytes: nat, sendTime: real, receiveTime: Option<real>,
                                         packetType: PacketType, compressed: bool)

  /** `NetworkPacket::new`: not yet received, not compressed. */
  function NewPacket(id: nat, packetType: PacketType, sizeBytes: nat, sendTime: real): (p: NetworkPacket)
    ensures p.id == id && p.packetType == packetType && p.sizeBytes == sizeBytes && p.sendTime == sendTime
    ensures p.receiveTime.None? && !p.compressed
  {
    NetworkPacket(id, sizeBytes, sendTime, None, packetType, false)
  }

  /** `get_rtt`: the time from sending to receipt, once received; a packet marked received at `t` has round trip `t - sendTime`. */
  function GetRtt(p: NetworkPacket): (r: Option<real>)
    ensures r.Some? <==> p.receiveTime.Some?
    ensures p.receiveTime.Some? ==> p.sendTime + r.value == p.receiveTime.value
  {
    if p.receiveTime.Some? then Some(p.receiveTime.value - p.sendTime) else None
  }

  /** `mark_received`: receipt recorded at `t`; nothing else changes. */
  function MarkReceived(p: NetworkPacket, t: real): (q: NetworkPacket)
    ensures q.receiveTime == Some(t) && q.(receiveTime := p.receiveTime) == p
    ensures GetRtt(q) == Some(t - p.sendTime)
  {
    p.(receiveTime := Some(t))
  }

  /** `NetworkOptimizer`. */
  class NetworkOptimizer {
    var compressionEnabled: bool
    var deltaEncoding: bool
    var interpolationEnabled: bool
    var predictionEnabled: bool
    var adaptiveRateControl: bool
    var targetPacketRate: real
    var currentPacketRate: real

    /** The target rate stays between 10 and 60 packets a second. */
    ghost predicate Valid()
      reads this
    {
      10.0 <= targetPacketRate <= 60.0
    }

    /** `NetworkOptimizer::new`: every optimisation on, 30 packets a second. */
    constructor ()
      ensures Valid() && compressionEnabled && deltaEncoding && interpolationEnabled && predictionEnabled
      ensures adaptiveRateControl && targetPacketRate == 30.0 && currentPacketRate == 30.0
    {
      compressionEnabled, deltaEncoding, interpolationEnabled, predictionEnabled, adaptiveRateControl := true, true, true, true, true;
      targetPacketRate, currentPacketRate := 30.0, 30.0;
    }

    /**
     * `optimize_packet`: with compression on, the size becomes
     * `(size as f32 * 0.7) as u64`, i.e. the floor of 70% of it, and the
     * packet is marked compressed; otherwise it is unchanged.
     */
    function OptimizePacket(p: NetworkPacket): (q: NetworkPacket)
      reads this
      ensures compressionEnabled ==>
        q.compressed && q.sizeBytes * 10 <= p.sizeBytes * 7 < q.sizeBytes * 10 + 10 &&
        q.(sizeBytes := p.sizeBytes, compressed := p.compressed) == p
      ensures !compressionEnabled ==> q == p
    {
      if compressionEnabled then p.(sizeBytes := ToUsize(Trunc(p.sizeBytes as real * 0.7)), compressed := true) else p
    }

    /**
     * `adjust_rate_based_on_stats`: with adaptive control on, a fast
     * lossless link (mean round trip under 0.05 s, loss under 2%) raises the
     * target by 10% up to 60; otherwise a slow or lossy one (over 0.15 s or
     * over 5%) lowers it by 10% down to 10.
     */
    method AdjustRateBasedOnStats(stats: NetworkStats)
      requires Valid()
      modifies this
      ensures Valid()
      ensures var good := adaptiveRateControl && stats.averageRtt < 0.05 && stats.PacketLossRate() < 2.0;
        var bad := adaptiveRateControl && !good && (stats.averageRtt > 0.15 || stats.PacketLossRate() > 5.0);
        (good ==> targetPacketRate == MinR(old(targetPacketRate) * 1.1, 60.0)) &&
        (bad ==> targetPacketRate == MaxR(old(targetPacketRate) * 0.9, 10.0)) &&
        (!good && !bad ==> targetPacketRate == old(targetPacketRate))
      ensures compressionEnabled == old(compressionEnabled) && adaptiveRateControl == old(adaptiveRateControl)
      ensures currentPacketRate == old(currentPacketRate)
    {
      if adaptiveRateControl {
        var loss := stats.PacketLossRate();
        if stats.averageRtt < 0.05 && loss < 2.0 {
          targetPacketRate := MinR(targetPacketRate * 1.1, 60.0);
        } else if stats.averageRtt > 0.15 || loss > 5.0 {
          targetPacketRate := MaxR(targetPacketRate * 0.9, 10.0);
        }
      }
    }
  }

  // ---------------------------------------------------------------------
  // Connection quality
  // ---------------------------------------------------------------------

  datatype ConnectionQuality = Excellent | Good | Fair | Poor

  /** Lower is better. */
  function Rank(q: ConnectionQuality): nat {
    match q
    case Excellent => 0
    case Good => 1
    case Fair => 2
    case Poor => 3
  }

  /** `get_connection_quality` from the mean round trip and the loss rate. */
  function Quality(rtt: real, loss: real): (q: ConnectionQuality)
    ensures q == Excellent <==> rtt < 0.05 && loss < 1.0
    ensures q == Poor <==> !(rtt < 0.2 && loss < 5.0)
  {
    if rtt < 0.05 && loss < 1.0 then Excellent
    else if rtt < 0.1 && loss < 3.0 then Good
    else if rtt < 0.2 && loss < 5.0 then Fair
    else Poor
  }

  /** A slower or lossier link never grades better. */
  lemma QualityMonotone(rtt1: real, loss1: real, rtt2: real, loss2: real)
    requires rtt1 <= rtt2 && loss1 <= loss2
    ensures Rank(Quality(rtt1, loss1)) <= Rank(Quality(rtt2, loss2))
  {
  }

  /** `NetworkMonitor::get_connection_quality`, read off the statistics. */
  function ConnectionQualityOf(stats: NetworkStats): (q: ConnectionQuality)
    reads stats
    ensures q == Quality(stats.averageRtt, stats.PacketLossRate())
    ensures stats.packetsLost == 0 && stats.averageRtt < 0.05 ==> q == Excellent
  {
    Quality(stats.averageRtt, stats.PacketLossRate())
  }
}
