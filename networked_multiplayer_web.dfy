// Browser multiplayer: the network manager's message accounting, round-trip
// measurement and WebRTC/WebSocket connection set-up, and the demo's handling
// of received player updates and chat.
module NetworkedMultiplayerWeb {
  import opened Common

  datatype TransportType = WebRTC | WebSocket | WebTransport

  datatype RtcState = New | Connecting | Connected | Disconnected | Failed | Closed

  datatype ChannelState = ChannelConnecting | ChannelOpen | ChannelClosing | ChannelClosed

  datatype DataChannel = DataChannel(channelLabel: string, id: nat, readyState: ChannelState, bufferedAmount: nat)

  datatype WebRtcConnection = WebRtcConnection(peerId: string, connectionState: RtcState, dataChannel: Option<DataChannel>,
                                               localDescription: Option<string>, remoteDescription: Option<string>,
                                               iceCandidates: seq<string>)

  datatype SocketState = SocketConnecting | SocketOpen | SocketClosing | SocketClosed

  datatype WebSocketConnection = WebSocketConnection(url: string, readyState: SocketState, bufferedAmount: nat,
                                                     lastPing: real, pingInterval: real)

  datatype EntityState = EntityState(id: string, entityType: string, position: Vec2, health: real)

  datatype NetworkMessage =
    | PlayerUpdate(playerId: string, position: Vec2, velocity: Vec2, timestamp: real)
    | GameState(tick: nat, entities: seq<EntityState>, timestamp: real)
    | Chat(playerId: string, message: string, timestamp: real)
    | Ping(timestamp: real)
    | Pong(timestamp: real)
    | JoinGame(playerName: string)
    | LeaveGame(playerId: string)

  /**
   * `estimate_message_size`: a 16-byte header at least; only a ping, a pong,
   * a leave, a join with an empty name and a game state with no entities
   * carry nothing beyond it.
   */
  function EstimateMessageSize(m: NetworkMessage): (n: nat)
    ensures n >= 16
    ensures n == 16 <==> m.Ping? || m.Pong? || m.LeaveGame? || (m.JoinGame? && m.playerName == "") ||
                         (m.GameState? && m.entities == [])
    ensures m.GameState? ==> n == 16 + 32 * |m.entities|
  {
    match m
    case PlayerUpdate(_, _, _, _) => 48
    case GameState(_, entities, _) => 16 + |entities| * 32
    case Chat(_, message, _) => 32 + |message|
    case Ping(_) => 16
    case Pong(_) => 16
    case JoinGame(name) => 16 + |name|
    case LeaveGame(_) => 16
  }

  /** The bandwidth estimate one message adds, in kilobytes per second at 60 messages a second. */
  function Kbps(m: NetworkMessage): real {
    EstimateMessageSize(m) as real / 1024.0 * 60.0
  }

  /** The send time of the first recorded ping, if any. */
  function FirstPingTime(sent: seq<(NetworkMessage, real)>): (t: Option<real>)
    ensures t.Some? <==> exists k :: 0 <= k < |sent| && sent[k].0.Ping?
    ensures t.Some? ==> exists k :: 0 <= k < |sent| && sent[k].0.Ping? && sent[k].1 == t.value &&
                                    forall j :: 0 <= j < k ==> !sent[j].0.Ping?
  {
    if sent == [] then None
    else if sent[0].0.Ping? then Some(sent[0].1)
    else
      var t := FirstPingTime(sent[1..]);
      assert forall k :: 1 <= k < |sent| ==> sent[k] == sent[1..][k - 1];
      t
  }

  /** The sent-message log after `retain`: the entries sent less than 30 s before `now`, in order. */
  function Recent(s: seq<(NetworkMessage, real)>, now: real): (r: seq<(NetworkMessage, real)>)
    ensures |r| <= |s|
    ensures forall k :: 0 <= k < |r| ==> r[k] in s && now - r[k].1 < 30.0
    ensures forall k :: 0 <= k < |s| && now - s[k].1 < 30.0 ==> s[k] in r
  {
    if s == [] then []
    else
      var rest := Recent(s[1..], now);
      assert forall k :: 1 <= k < |s| ==> s[k] == s[1..][k - 1];
      if now - s[0].1 < 30.0 then [s[0]] + rest else rest
  }

  /** `retain` on one entry keeps it exactly when it is under 30 s old. */
  lemma RecentSingle(e: (NetworkMessage, real), now: real)
    ensures Recent([e], now) == if now - e.1 < 30.0 then [e] else []
  {
    assert [e][1..] == [];
  }

  /**
   * `retain` filters each part of a log on its own and keeps the parts in
   * order; with `RecentSingle` this makes it an order- and
   * duplicate-preserving filter.
   */
  lemma {:induction false} RecentAppend(a: seq<(NetworkMessage, real)>, b: seq<(NetworkMessage, real)>, now: real)
    ensures Recent(a + b, now) == Recent(a, now) + Recent(b, now)
  {
    if a == [] {
      assert a + b == b;
    } else {
      assert (a + b)[0] == a[0] && (a + b)[1..] == a[1..] + b;
      RecentAppend(a[1..], b, now);
    }
  }

  /** Whether `update` pings over the WebSocket fallback: it is open and its ping interval has passed. */
  predicate PingDue(ws: Option<WebSocketConnection>, now: real) {
    ws.Some? && ws.value.readyState == SocketOpen && now - ws.value.lastPing > ws.value.pingInterval
  }

  /** Round-trip samples are kept to the ten newest. */
  const MaxRttSamples: nat := 10

  /** `WebNetworkManager`. */
  class WebNetworkManager {
    const transportType: TransportType
    var webrtcConnections: seq<WebRtcConnection>
    var websocketFallback: Option<WebSocketConnection>
    const localPlayerId: string
    var gameRoomId: string
    const isHost: bool
    var messageQueue: seq<NetworkMessage>
    var sentMessages: seq<(NetworkMessage, real)>
    var receivedMessages: seq<NetworkMessage>
    var rttMeasurements: seq<real>
    var bandwidthUpKbps: real
    var bandwidthDownKbps: real

    /** At most ten round-trip samples are kept. */
    ghost predicate Valid()
      reads this
    {
      |rttMeasurements| <= MaxRttSamples
    }

    /** `WebNetworkManager::new`: no connections, empty queues, room "default_room". */
    constructor (transportType: TransportType, localPlayerId: string, isHost: bool)
      ensures Valid()
      ensures this.transportType == transportType && this.localPlayerId == localPlayerId && this.isHost == isHost
      ensures webrtcConnections == [] && websocketFallback.None? && gameRoomId == "default_room"
      ensures messageQueue == [] && sentMessages == [] && receivedMessages == [] && rttMeasurements == []
      ensures bandwidthUpKbps == 0.0 && bandwidthDownKbps == 0.0
    {
      this.transportType := transportType;
      webrtcConnections := [];
      websocketFallback := None;
      this.localPlayerId := localPlayerId;
      gameRoomId := "default_room";
      this.isHost := isHost;
      messageQueue := [];
      sentMessages := [];
      receivedMessages := [];
      rttMeasurements := [];
      bandwidthUpKbps := 0.0;
      bandwidthDownKbps := 0.0;
    }

    /**
     * `connect_to_room`: WebRTC appends exactly one connected peer with an
     * open "game_data" channel; WebSocket installs an open fallback socket
     * for the room; WebTransport only records the room.
     */
    method ConnectToRoom(roomId: string)
      requires Valid()
      modifies this
      ensures Valid() && gameRoomId == roomId
      ensures transportType.WebRTC? ==>
        websocketFallback == old(websocketFallback) &&
        |webrtcConnections| == |old(webrtcConnections)| + 1 &&
        webrtcConnections[..|old(webrtcConnections)|] == old(webrtcConnections) &&
        webrtcConnections[|old(webrtcConnections)|].connectionState == Connected &&
        webrtcConnections[|old(webrtcConnections)|].dataChannel == Some(DataChannel("game_data", 1, ChannelOpen, 0))
      ensures transportType.WebSocket? ==>
        webrtcConnections == old(webrtcConnections) &&
        websocketFallback == Some(WebSocketConnection("wss://game-server.example.com/room/" + roomId, SocketOpen, 0, 0.0, 5.0))
      ensures transportType.WebTransport? ==>
        webrtcConnections == old(webrtcConnections) && websocketFallback == old(websocketFallback)
      ensures messageQueue == old(messageQueue) && sentMessages == old(sentMessages)
      ensures receivedMessages == old(receivedMessages) && rttMeasurements == old(rttMeasurements)
      ensures bandwidthUpKbps == old(bandwidthUpKbps) && bandwidthDownKbps == old(bandwidthDownKbps)
    {
      gameRoomId := roomId;
      if transportType.WebRTC? {
        var connection := WebRtcConnection("remote_player_1", Connecting,
                                           Some(DataChannel("game_data", 1, ChannelConnecting, 0)), None, None, []);
        connection := connection.(connectionState := Connected);
        connection := connection.(dataChannel := Some(connection.dataChannel.value.(readyState := ChannelOpen)));
        webrtcConnections := webrtcConnections + [connection];
      } else if transportType.WebSocket? {
        var socket := WebSocketConnection("wss://game-server.example.com/room/" + roomId, SocketConnecting, 0, 0.0, 5.0);
        websocketFallback := Some(socket.(readyState := SocketOpen));
      }
    }

    /** `send_message`: queued, counted against upload bandwidth, and recorded with its time when it is a ping. */
    method SendMessage(message: NetworkMessage, currentTime: real)
      requires Valid()
      modifies this
      ensures Valid()
      ensures messageQueue == old(messageQueue) + [message]
      ensures sentMessages == if message.Ping? then old(sentMessages) + [(message, currentTime)] else old(sentMessages)
      ensures bandwidthUpKbps == old(bandwidthUpKbps) + Kbps(message)
      ensures bandwidthDownKbps == old(bandwidthDownKbps)
      ensures receivedMessages == old(receivedMessages) && rttMeasurements == old(rttMeasurements)
      ensures webrtcConnections == old(webrtcConnections) && websocketFallback == old(websocketFallback)
      ensures gameRoomId == old(gameRoomId)
    {
      if message.Ping? {
        sentMessages := sentMessages + [(message, currentTime)];
      }
      var size := EstimateMessageSize(message);
      bandwidthUpKbps := bandwidthUpKbps + size as real / 1024.0 * 60.0;
      messageQueue := messageQueue + [message];
    }

    /**
     * `receive_message`: stored and counted against download bandwidth; a
     * pong, when some ping is recorded, adds the time since the first
     * recorded ping as a round-trip sample, dropping the oldest beyond ten.
     */
    method ReceiveMessage(message: NetworkMessage, currentTime: real)
      requires Valid()
      modifies this
      ensures Valid()
      ensures receivedMessages == old(receivedMessages) + [message]
      ensures bandwidthDownKbps == old(bandwidthDownKbps) + Kbps(message)
      ensures message.Pong? && FirstPingTime(sentMessages).Some? ==>
        rttMeasurements == PushBounded(old(rttMeasurements), currentTime - FirstPingTime(sentMessages).value, MaxRttSamples)
      ensures !(message.Pong? && FirstPingTime(sentMessages).Some?) ==> rttMeasurements == old(rttMeasurements)
      ensures sentMessages == old(sentMessages) && messageQueue == old(messageQueue)
      ensures bandwidthUpKbps == old(bandwidthUpKbps)
      ensures webrtcConnections == old(webrtcConnections) && websocketFallback == old(websocketFallback)
      ensures gameRoomId == old(gameRoomId)
    {
      var size := EstimateMessageSize(message);
      bandwidthDownKbps := bandwidthDownKbps + size as real / 1024.0 * 60.0;
      if message.Pong? {
        var i := 0;
        while i < |sentMessages| && !sentMessages[i].0.Ping?
          invariant 0 <= i <= |sentMessages|
          invariant forall j :: 0 <= j < i ==> !sentMessages[j].0.Ping?
        {
          i := i + 1;
        }
        if i < |sentMessages| {
          assert FirstPingTime(sentMessages) == Some(sentMessages[i].1);
          var rtt := currentTime - sentMessages[i].1;
          PushBoundedKeeps(rttMeasurements, rtt, MaxRttSamples);
          rttMeasurements := rttMeasurements + [rtt];
          if |rttMeasurements| > 10 {
            rttMeasurements := rttMeasurements[1..];
          }
        }
      }
      receivedMessages := receivedMessages + [message];
    }

    /**
     * `update`, without its simulated incoming traffic: an open WebSocket
     * whose ping interval has passed records the ping time and sends a ping;
     * then the sent-message log keeps only entries under 30 s old, and both
     * bandwidth estimates decay by 5%.
     */
    method Update(currentTime: real, dt: real)
      requires Valid()
      modifies this
      ensures Valid()
      ensures var pinged := PingDue(old(websocketFallback), currentTime);
              websocketFallback == (if pinged then Some(old(websocketFallback).value.(lastPing := currentTime)) else old(websocketFallback)) &&
              messageQueue == old(messageQueue) + (if pinged then [Ping(currentTime)] else []) &&
              sentMessages == Recent(old(sentMessages) + (if pinged then [(Ping(currentTime), currentTime)] else []), currentTime) &&
              bandwidthUpKbps == (old(bandwidthUpKbps) + (if pinged then Kbps(Ping(currentTime)) else 0.0)) * 0.95
      ensures bandwidthDownKbps == old(bandwidthDownKbps) * 0.95
      ensures receivedMessages == old(receivedMessages) && rttMeasurements == old(rttMeasurements)
      ensures webrtcConnections == old(webrtcConnections) && gameRoomId == old(gameRoomId)
    {
      ghost var pinged := PingDue(websocketFallback, currentTime);
      ghost var logged := sentMessages + (if pinged then [(Ping(currentTime), currentTime)] else []);
      assert !pinged ==> logged == sentMessages;
      assert !pinged ==> messageQueue + [] == messageQueue;
      if websocketFallback.Some? && websocketFallback.value.readyState == SocketOpen {
        var ws := websocketFallback.value;
        if currentTime - ws.lastPing > ws.pingInterval {
          websocketFallback := Some(ws.(lastPing := currentTime));
          SendMessage(Ping(currentTime), currentTime);
        }
      }
      assert sentMessages == logged;
      sentMessages := Recent(sentMessages, currentTime);
      bandwidthUpKbps := bandwidthUpKbps * 0.95;
      bandwidthDownKbps := bandwidthDownKbps * 0.95;
    }

    /** `get_average_rtt`: the mean round-trip sample, 0 with none. */
    function AverageRtt(): (r: real)
      reads this
      ensures rttMeasurements == [] ==> r == 0.0
      ensures rttMeasurements != [] ==> r * |rttMeasurements| as real == Sum(rttMeasurements)
    {
      Mean(rttMeasurements)
    }
  }

  // ---------------------------------------------------------------------
  // The demo's message handling
  // ---------------------------------------------------------------------

  datatype PlayerState = PlayerState(id: string, name: string, position: Vec2, velocity: Vec2, health: real, lastUpdate: real)

  /** `PlayerState::new`: at rest, full health, never updated. */
  function NewPlayer(id: string, name: string, position: Vec2): (p: PlayerState)
    ensures p.id == id && p.name == name && p.position == position
    ensures p.velocity == Zero && p.health == 100.0 && p.lastUpdate == 0.0
  {
    PlayerState(id, name, position, Zero, 100.0, 0.0)
  }

  function Digit(d: nat): char
    requires d < 10
  {
    "0123456789"[d]
  }

  /** A number written in decimal, as `format!` writes it. */
  function Decimal(n: nat): (s: string)
    ensures |s| >= 1
  {
    if n < 10 then [Digit(n)] else Decimal(n / 10) + [Digit(n % 10)]
  }

  /** No two players share an id. */
  predicate UniqueIds(s: seq<PlayerState>) {
    forall i, j :: 0 <= i < j < |s| ==> s[i].id != s[j].id
  }

  predicate HasId(s: seq<PlayerState>, id: string) {
    exists k :: 0 <= k < |s| && s[k].id == id
  }

  /** A chat entry: who, what, and when it arrived. */
  type ChatEntry = (string, string, real)

  /** Chat history is kept to the ten newest messages. */
  const MaxChat: nat := 10

  /** `WebMultiplayerDemo`, as far as received messages affect it; the network manager is not a field of this model. */
  class WebMultiplayerDemo {
    const localPlayerId: string
    var remotePlayers: seq<PlayerState>
    var chatMessages: seq<ChatEntry>
    var currentTime: real

    /** Remote players have distinct ids, none of them the local one, and chat stays within ten entries. */
    ghost predicate Valid()
      reads this
    {
      UniqueIds(remotePlayers) && !HasId(remotePlayers, localPlayerId) && |chatMessages| <= MaxChat
    }

    /** The demo's `new`, with the random local id given: no remote players, no chat, time 0. */
    constructor (localPlayerId: string)
      ensures Valid() && this.localPlayerId == localPlayerId
      ensures remotePlayers == [] && chatMessages == [] && currentTime == 0.0
    {
      this.localPlayerId := localPlayerId;
      remotePlayers := [];
      chatMessages := [];
      currentTime := 0.0;
    }

    /**
     * `process_network_message`: a player update from someone else moves a
     * known remote player or adds a new one at the end; chat is appended,
     * oldest dropped beyond ten; everything else changes nothing.
     */
    method ProcessNetworkMessage(message: NetworkMessage)
      requires Valid()
      modifies this
      ensures Valid() && currentTime == old(currentTime)
      ensures message.PlayerUpdate? && message.playerId != localPlayerId ==>
        chatMessages == old(chatMessages) && HasId(remotePlayers, message.playerId) &&
        (HasId(old(remotePlayers), message.playerId) ==>
          |remotePlayers| == |old(remotePlayers)| &&
          forall k :: 0 <= k < |remotePlayers| ==>
            remotePlayers[k] == if old(remotePlayers)[k].id == message.playerId
                                then old(remotePlayers)[k].(position := message.position, velocity := message.velocity,
                                                            lastUpdate := currentTime)
                                else old(remotePlayers)[k]) &&
        (!HasId(old(remotePlayers), message.playerId) ==>
          remotePlayers == old(remotePlayers) +
            [NewPlayer(message.playerId, "Remote Player " + Decimal(|old(remotePlayers)| + 1), message.position)])
      ensures message.Chat? ==>
        remotePlayers == old(remotePlayers) &&
        chatMessages == PushBounded(old(chatMessages), (message.playerId, message.message, currentTime), MaxChat)
      ensures !message.Chat? && !(message.PlayerUpdate? && message.playerId != localPlayerId) ==>
        remotePlayers == old(remotePlayers) && chatMessages == old(chatMessages)
    {
      if message.PlayerUpdate? {
        if message.playerId != localPlayerId {
          var i := 0;
          while i < |remotePlayers| && remotePlayers[i].id != message.playerId
            invariant 0 <= i <= |remotePlayers|
            invariant forall j :: 0 <= j < i ==> remotePlayers[j].id != message.playerId
          {
            i := i + 1;
          }
          if i < |remotePlayers| {
            var p := remotePlayers[i];
            remotePlayers := remotePlayers[i := p.(position := message.position, velocity := message.velocity,
                                                 lastUpdate := currentTime)];
            assert remotePlayers[i].id == message.playerId;
          } else {
            var player := NewPlayer(message.playerId, "Remote Player " + Decimal(|remotePlayers| + 1), message.position);
            remotePlayers := remotePlayers + [player];
            assert remotePlayers[|remotePlayers| - 1].id == message.playerId;
          }
        }
      } else if message.Chat? {
        PushBoundedKeeps(chatMessages, (message.playerId, message.message, currentTime), MaxChat);
        chatMessages := chatMessages + [(message.playerId, message.message, currentTime)];
        if |chatMessages| > 10 {
          chatMessages := chatMessages[1..];
        }
      }
    }
  }
}
