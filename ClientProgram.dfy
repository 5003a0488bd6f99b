/** The client side (`Program`): its connection manager, its pending table
    for results sent upstream, the command queue with its single executor,
    and the heartbeat handshake gate that decides when the server hears the
    peer's identity. */
module ClientProgram {
  import opened Wrappers
  import opened Frame
  import opened Reliable
  import opened Election
  import opened Channel
  import opened Failover

  /** `MessageTimeout`, sixty seconds. */
  const MessageTimeout: int := 60_000
  /** An entry is dropped on its third retry (`RetryCount > 2`). */
  const RetryCeiling: nat := 2
  /** `HeartbeatAckTimeout`, thirty seconds. */
  const HeartbeatAckTimeout: int := 30_000

  /** A queued command: its text and the payload it arrived as, echoed back
      as its acknowledgement once the result is out. */
  datatype CommandRequest = CommandRequest(command: string, originalPayload: string)

  /** The identity frame body `{ClientId}#{ip}#{user}#{os}`. */
  function Info(clientId: string, ip: string, username: string, os: string): string
  {
    clientId + "#" + ip + "#" + username + "#" + os
  }

  class Client {
    const clientId: string
    /** GetLocalIPAddress, `Environment.UserName`, GetWindowsVersion. */
    const ip: string
    const username: string
    const os: string
    const link: Link
    const conn: Connector
    const table: PendingTable
    /** `_commandQueue`, oldest first. */
    var queue: seq<CommandRequest>
    var isExecutingCommand: bool
    /** The command taken off the queue and not finished yet. */
    ghost var running: Option<CommandRequest>
    var serverAcknowledged: bool
    var initialInfoSent: bool
    /** `_lastHeartbeatAckTime`; `None` is `DateTime.MinValue`. */
    var lastHeartbeatAck: Option<int>

    ghost predicate Valid()
      reads this, conn, table
    {
      conn.link == link && conn.Valid() && !conn.lockWedged &&
      table.Valid() && table.timeout == MessageTimeout && table.ceiling == RetryCeiling &&
      (isExecutingCommand <==> running.Some?) &&
      (initialInfoSent ==> serverAcknowledged)
    }

    constructor (clientId: string, ip: string, username: string, os: string)
      ensures Valid() && fresh(link) && fresh(conn) && fresh(table)
      ensures this.clientId == clientId && this.ip == ip && this.username == username && this.os == os
      ensures !link.connected && link.outbox == [] && table.entries == map[]
      ensures queue == [] && !isExecutingCommand
      ensures !serverAcknowledged && !initialInfoSent && lastHeartbeatAck == None
    {
      this.clientId, this.ip, this.username, this.os := clientId, ip, username, os;
      var l := new Link();
      link := l;
      conn := new Connector(l);
      table := new PendingTable(MessageTimeout, RetryCeiling);
      queue, isExecutingCommand, running := [], false, None;
      serverAcknowledged, initialInfoSent, lastHeartbeatAck := false, false, None;
    }

    /** The reset done on every new connection and on every disconnection:
        the server has to acknowledge a heartbeat again before it is told
        who this peer is. */
    method ResetGate()
      requires Valid()
      modifies this`serverAcknowledged, this`initialInfoSent, this`lastHeartbeatAck
      ensures Valid()
      ensures !serverAcknowledged && !initialInfoSent && lastHeartbeatAck == None
    {
      serverAcknowledged, initialInfoSent, lastHeartbeatAck := false, false, None;
    }

    // ---- connection ----

    /** ConnectWithPriorityFailover on the client: the shared failover, and
        on a new connection the gate is reset. */
    method Connect(outcomes: seq<bool>, now: int) returns (winner: Option<nat>)
      requires Valid()
      modifies conn, link`connected, this`serverAcknowledged, this`initialInfoSent, this`lastHeartbeatAck
      ensures Valid()
      ensures winner == (if old(link.connected) then None else FailoverPlan(outcomes).winner)
      ensures link.connected == (old(link.connected) || winner.Some?)
      ensures winner.Some? ==> conn.brokerIndex == winner.value && !serverAcknowledged && !initialInfoSent &&
                               lastHeartbeatAck == None
      ensures winner.None? ==>
        serverAcknowledged == old(serverAcknowledged) &&
        initialInfoSent == old(initialInfoSent) && lastHeartbeatAck == old(lastHeartbeatAck) &&
        conn.brokerIndex == old(conn.brokerIndex)
      ensures conn.lastConnected == (if winner.Some? then winner else old(conn.lastConnected))
      ensures conn.lastPrimaryCheck ==
        (if winner.Some? && winner.value != 0 then Some(now) else old(conn.lastPrimaryCheck))
    {
      winner := conn.ConnectWithPriorityFailover(outcomes, now);
      if winner.Some? {
        ResetGate();
      }
    }

    /** PersistentReconnectLoop, one wake-up: reconnect when the link is down. */
    method PersistentReconnectStep(outcomes: seq<bool>, now: int)
      requires Valid()
      modifies conn, link`connected, this`serverAcknowledged, this`initialInfoSent, this`lastHeartbeatAck
      ensures Valid()
      ensures old(link.connected) ==>
        link.connected && conn.brokerIndex == old(conn.brokerIndex) &&
        conn.lastConnected == old(conn.lastConnected) && conn.lastPrimaryCheck == old(conn.lastPrimaryCheck) &&
        serverAcknowledged == old(serverAcknowledged) && initialInfoSent == old(initialInfoSent) &&
        lastHeartbeatAck == old(lastHeartbeatAck)
      ensures !old(link.connected) ==>
        var w := FailoverPlan(outcomes).winner;
        link.connected == w.Some? &&
        conn.brokerIndex == (if w.Some? then w.value else old(conn.brokerIndex)) &&
        conn.lastConnected == (if w.Some? then w else old(conn.lastConnected)) &&
        conn.lastPrimaryCheck == (if w.Some? && w.value != 0 then Some(now) else old(conn.lastPrimaryCheck)) &&
        (w.Some? ==> !serverAcknowledged && !initialInfoSent && lastHeartbeatAck == None) &&
        (w.None? ==> serverAcknowledged == old(serverAcknowledged) && initialInfoSent == old(initialInfoSent) &&
                     lastHeartbeatAck == old(lastHeartbeatAck))
    {
      if !link.connected {
        var _ := Connect(outcomes, now);
      }
    }

    /** OnDisconnected: the broker dropped the link, and the gate is reset. */
    method OnDisconnected()
      requires Valid()
      modifies link`connected, this`serverAcknowledged, this`initialInfoSent, this`lastHeartbeatAck
      ensures Valid()
      ensures !link.connected && !serverAcknowledged && !initialInfoSent && lastHeartbeatAck == None
    {
      link.Disconnect();
      ResetGate();
    }

    /** PrimaryBrokerCheckLoop, one wake-up, with the corrected switch: a
        refused switch falls back to the failover instead of waiting on the
        lock it holds, so `conn.lockWedged` stays false. The disconnect from
        the backup fires OnDisconnected; a fallback that connects is a new
        connection. Both reset the gate. */
    method PrimaryCheckStep(now: int, primaryUp: bool, outcomes: seq<bool>, fallback: seq<bool>)
      returns (onPrimary: bool)
      requires Valid()
      modifies conn, link`connected, this`serverAcknowledged, this`initialInfoSent, this`lastHeartbeatAck
      ensures Valid()
      ensures onPrimary <==>
        ProbeDue(old(conn.brokerIndex), old(conn.lastPrimaryCheck), now) && primaryUp &&
        FirstSuccess(outcomes, 0, SwitchAttempts) < SwitchAttempts
      ensures onPrimary ==>
        conn.brokerIndex == 0 && link.connected && conn.lastConnected == Some(0) &&
        conn.lastPrimaryCheck == old(conn.lastPrimaryCheck)
      ensures onPrimary && old(link.connected) ==> !serverAcknowledged && !initialInfoSent && lastHeartbeatAck == None
      ensures onPrimary && !old(link.connected) ==>
        serverAcknowledged == old(serverAcknowledged) && initialInfoSent == old(initialInfoSent) &&
        lastHeartbeatAck == old(lastHeartbeatAck)
      ensures !ProbeDue(old(conn.brokerIndex), old(conn.lastPrimaryCheck), now) ==>
        conn.brokerIndex == old(conn.brokerIndex) && conn.lastPrimaryCheck == old(conn.lastPrimaryCheck) &&
        link.connected == old(link.connected) && serverAcknowledged == old(serverAcknowledged) &&
        initialInfoSent == old(initialInfoSent) && lastHeartbeatAck == old(lastHeartbeatAck)
      ensures ProbeDue(old(conn.brokerIndex), old(conn.lastPrimaryCheck), now) && !primaryUp ==>
        conn.lastPrimaryCheck == Some(now) && conn.brokerIndex == old(conn.brokerIndex) &&
        link.connected == old(link.connected) && serverAcknowledged == old(serverAcknowledged) &&
        initialInfoSent == old(initialInfoSent) && lastHeartbeatAck == old(lastHeartbeatAck)
      ensures ProbeDue(old(conn.brokerIndex), old(conn.lastPrimaryCheck), now) && primaryUp && !onPrimary ==>
        var w := FailoverPlan(fallback).winner;
        link.connected == w.Some? &&
        conn.brokerIndex == (if w.Some? then w.value else old(conn.brokerIndex)) &&
        conn.lastConnected == (if w.Some? then w else old(conn.lastConnected)) &&
        conn.lastPrimaryCheck == (if w.Some? && w.value != 0 then Some(now) else old(conn.lastPrimaryCheck)) &&
        (w.Some? || old(link.connected) ==> !serverAcknowledged && !initialInfoSent && lastHeartbeatAck == None) &&
        (w.None? && !old(link.connected) ==>
           serverAcknowledged == old(serverAcknowledged) && initialInfoSent == old(initialInfoSent) &&
           lastHeartbeatAck == old(lastHeartbeatAck))
    {
      onPrimary := false;
      if !ProbeDue(conn.brokerIndex, conn.lastPrimaryCheck, now) {
        return;
      }
      if !primaryUp {
        conn.lastPrimaryCheck := Some(now);
        return;
      }
      if link.connected {
        ResetGate();
      }
      var winner;
      onPrimary, winner := conn.SwitchToPrimaryBroker(outcomes, fallback, now);
      if winner.Some? {
        ResetGate();
      }
    }

    // ---- heartbeat ----

    /** HeartbeatLoop with SendHeartbeatPing: while connected, a `PING`
        frame under a heartbeat id, at most once and not kept for retry. */
    method SendHeartbeatPing(hbId: string)
      requires IsHeartbeatId(hbId)
      modifies link`outbox
      ensures link.outbox == old(link.outbox) +
        (if link.connected then [Publish(C2S(clientId), Framed(hbId, Ping), AtMostOnce)] else [])
    {
      if link.connected {
        var _ := link.Publish(Publish(C2S(clientId), Framed(hbId, Ping), AtMostOnce));
      }
    }

    /** HeartbeatMonitorLoop, one wake-up: thirty seconds without a heartbeat
        acknowledgement on an acknowledged connection closes the gate again,
        so that the identity is sent again once the server answers. */
    method HeartbeatMonitorStep(now: int)
      requires Valid()
      modifies this`serverAcknowledged, this`initialInfoSent
      ensures Valid()
      ensures var silent := link.connected && lastHeartbeatAck.Some? &&
                           now - lastHeartbeatAck.value > HeartbeatAckTimeout && old(serverAcknowledged);
        (silent ==> !serverAcknowledged && !initialInfoSent) &&
        (!silent ==> serverAcknowledged == old(serverAcknowledged) && initialInfoSent == old(initialInfoSent))
    {
      if link.connected && lastHeartbeatAck.Some? && now - lastHeartbeatAck.value > HeartbeatAckTimeout {
        if serverAcknowledged {
          serverAcknowledged, initialInfoSent := false, false;
        }
      }
    }

    // ---- sending and acknowledgements ----

    /** SendToServerWithRetry: with the link down nothing happens; otherwise
        the data is filed under its fresh id and published upstream. */
    method SendToServerWithRetry(data: string, messageId: string, now: int)
      requires Valid() && IsMessageId(messageId)
      modifies table, link`outbox
      ensures Valid()
      ensures var e := Envelope(messageId, data, C2S(clientId), now, 0, false);
        table.entries == (if link.connected then old(table.entries)[messageId := e] else old(table.entries)) &&
        link.outbox == old(link.outbox) + (if link.connected then [Wire(e)] else [])
    {
      if !link.connected {
        return;
      }
      var e := Envelope(messageId, data, C2S(clientId), now, 0, false);
      table.Insert(e);
      var _ := link.Publish(Wire(e));
    }

    /** SendAck: echo a payload, unchanged, on the given topic. */
    method SendAck(topic: string, originalPayload: string)
      modifies link`outbox
      ensures link.outbox == old(link.outbox) +
        (if link.connected then [Publish(topic, originalPayload, AtLeastOnce)] else [])
    {
      var _ := link.Publish(Publish(topic, originalPayload, AtLeastOnce));
    }

    /** MessageRetryLoop, one pass. */
    method RetryStep(now: int) returns (ghost order: seq<string>)
      requires Valid()
      modifies table, link`outbox
      ensures Valid()
      ensures table.entries == Swept(old(table.entries), now, MessageTimeout, RetryCeiling, link.connected)
      ensures forall k :: k in order <==> k in Retransmitted(old(table.entries), now, MessageTimeout, RetryCeiling)
      ensures link.outbox == old(link.outbox) + (if link.connected then WiresOf(old(table.entries), order) else [])
    {
      order := table.Sweep(link, now);
    }

    // ---- inbound ----

    /** OnMessageReceived. On the command topic the decoded frame's command
        is queued with its payload, duplicates included. On the ack topic, a
        heartbeat acknowledgement stamps the time and, the first time after a
        reset, opens the gate and sends the identity (under `infoId`); any
        other acknowledgement goes to HandleAck. */
    method OnMessageReceived(topic: string, payload: string, now: int, infoId: string)
      requires Valid() && IsMessageId(infoId)
      modifies this`queue, this`serverAcknowledged, this`initialInfoSent, this`lastHeartbeatAck,
               table, link`outbox
      ensures Valid()
      ensures topic == S2C(clientId) ==>
        queue == old(queue) + [CommandRequest(ParseClientFrame(DecodeFromBase64(payload)).command, payload)] &&
        table.entries == old(table.entries) && link.outbox == old(link.outbox) &&
        serverAcknowledged == old(serverAcknowledged) && initialInfoSent == old(initialInfoSent) &&
        lastHeartbeatAck == old(lastHeartbeatAck)
      ensures topic != S2C(clientId) ==> queue == old(queue)
      ensures topic == AckTopic(S2C(clientId)) && IsHeartbeatAck(DecodeFromBase64(payload)) ==>
        lastHeartbeatAck == Some(now) && serverAcknowledged &&
        (var hello := !old(serverAcknowledged) && !old(initialInfoSent);
         (hello ==> initialInfoSent) && (!hello ==> initialInfoSent == old(initialInfoSent)) &&
         (var e := Envelope(infoId, Info(clientId, ip, username, os), C2S(clientId), now, 0, false);
          table.entries == (if hello && link.connected then old(table.entries)[infoId := e] else old(table.entries)) &&
          link.outbox == old(link.outbox) + (if hello && link.connected then [Wire(e)] else [])))
      ensures topic == AckTopic(S2C(clientId)) && !IsHeartbeatAck(DecodeFromBase64(payload)) ==>
        table.entries == Acked(old(table.entries), DecodeFromBase64(payload)) &&
        link.outbox == old(link.outbox) && serverAcknowledged == old(serverAcknowledged) &&
        initialInfoSent == old(initialInfoSent) && lastHeartbeatAck == old(lastHeartbeatAck)
      ensures topic != S2C(clientId) && topic != AckTopic(S2C(clientId)) ==>
        table.entries == old(table.entries) && link.outbox == old(link.outbox) &&
        serverAcknowledged == old(serverAcknowledged) && initialInfoSent == old(initialInfoSent) &&
        lastHeartbeatAck == old(lastHeartbeatAck)
    {
      if topic == S2C(clientId) {
        var frame := ParseClientFrame(DecodeFromBase64(payload));
        queue := queue + [CommandRequest(frame.command, payload)];
      } else if topic == AckTopic(S2C(clientId)) {
        var decoded := DecodeFromBase64(payload);
        if IsHeartbeatAck(decoded) {
          lastHeartbeatAck := Some(now);
          if !serverAcknowledged {
            serverAcknowledged := true;
            if !initialInfoSent {
              SendToServerWithRetry(Info(clientId, ip, username, os), infoId, now);
              initialInfoSent := true;
            }
          }
        } else {
          table.HandleAck(decoded);
        }
      }
    }

    // ---- the command executor ----

    /** CommandExecutionLoop, the dequeue: when idle and something is
        queued, the oldest request is taken and the executor turns busy. */
    method BeginCommand() returns (req: Option<CommandRequest>)
      requires Valid()
      modifies this`queue, this`isExecutingCommand, this`running
      ensures Valid()
      ensures req.Some? <==> |old(queue)| > 0 && !old(isExecutingCommand)
      ensures req.Some? ==> req.value == old(queue)[0] && queue == old(queue)[1..] && running == req
      ensures req.None? ==> queue == old(queue) && isExecutingCommand == old(isExecutingCommand) && running == old(running)
    {
      req := None;
      if |queue| > 0 && !isExecutingCommand {
        req := Some(queue[0]);
        queue := queue[1..];
        isExecutingCommand, running := true, req;
      }
    }

    /** CommandExecutionLoop, after ProcessCommand returned `response`: the
        executor turns idle, the response goes upstream under `responseId`,
        and the command's payload is echoed on the upstream ack topic. */
    method FinishCommand(req: CommandRequest, response: string, responseId: string, now: int)
      requires Valid() && running == Some(req) && IsMessageId(responseId)
      modifies this`isExecutingCommand, this`running, table, link`outbox
      ensures Valid()
      ensures !isExecutingCommand && running == None
      ensures var e := Envelope(responseId, response, C2S(clientId), now, 0, false);
        table.entries == (if link.connected then old(table.entries)[responseId := e] else old(table.entries)) &&
        link.outbox == old(link.outbox) +
          (if link.connected then [Wire(e), Publish(AckTopic(C2S(clientId)), req.originalPayload, AtLeastOnce)]
           else [])
    {
      isExecutingCommand, running := false, None;
      SendToServerWithRetry(response, responseId, now);
      SendAck(AckTopic(C2S(clientId)), req.originalPayload);
    }
  }

  /** Two heartbeat acknowledgements in a row on a fresh connection: the
      identity goes out once, on the first. */
  method HandshakeSentOnce(clientId: string, ip: string, username: string, os: string,
                           hbId: string, infoId: string, laterId: string)
    returns (sent: seq<Publish>)
    requires IsHeartbeatId(hbId) && IsMessageId(infoId) && IsMessageId(laterId)
    ensures sent == [Wire(Envelope(infoId, Info(clientId, ip, username, os), C2S(clientId), 0, 0, false))]
  {
    var c := new Client(clientId, ip, username, os);
    c.link.Connect(true);
    HeartbeatEchoRecognised(hbId);
    var echo := Framed(hbId, Ping);
    c.OnMessageReceived(AckTopic(S2C(clientId)), echo, 0, infoId);
    c.OnMessageReceived(AckTopic(S2C(clientId)), echo, 10_000, laterId);
    sent := c.link.outbox;
  }

  /** A command frame that arrives twice (the server's retransmission after
      its ten-second timeout) is queued twice, and the executor takes the
      first copy and then, while it runs, nothing. */
  method RetransmissionQueuedTwice(clientId: string, payload: string)
    returns (queued: seq<CommandRequest>, first: Option<CommandRequest>, second: Option<CommandRequest>)
    ensures var r := CommandRequest(ParseClientFrame(DecodeFromBase64(payload)).command, payload);
      queued == [r, r] && first == Some(r) && second == None
  {
    var c := new Client(clientId, "", "", "");
    var id := "00000000";
    assert IsMessageId(id);
    c.OnMessageReceived(S2C(clientId), payload, 0, id);
    c.OnMessageReceived(S2C(clientId), payload, 10_000, id);
    queued := c.queue;
    first := c.BeginCommand();
    second := c.BeginCommand();
  }
}
