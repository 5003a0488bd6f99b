/** The server side (`Form1`): its connection manager, its pending table for
    commands sent to peers, the peer list it shows, and the per-peer
    command gate, driven by inbound frames, the one-second tick, the retry
    sweep and the primary-check loop. */
module ServerForm {
  import opened Wrappers
  import opened Frame
  import opened Reliable
  import opened Election
  import opened Registry
  import opened Channel
  import opened Failover

  /** `MessageTimeout`, ten seconds. */
  const MessageTimeout: int := 10_000
  /** An entry is dropped on its fourth retry (`RetryCount > 3`). */
  const RetryCeiling: nat := 3

  /** `_currentBroker`: empty before the first connection. */
  function BrokerText(last: Option<nat>): string
    requires last.Some? ==> last.value < |Brokers|
  {
    if last.Some? then Label(Brokers[last.value]) else ""
  }

  /** The part of UpsertFacts the `Server` invariant needs. */
  lemma UpsertValid(rows: seq<Row>, uuid: string, ip: Option<string>, username: Option<string>,
                    os: Option<string>, broker: string)
    requires UniqueUuids(rows) && Consistent(rows)
    ensures UniqueUuids(Upserted(rows, uuid, ip, username, os, broker))
    ensures Consistent(Upserted(rows, uuid, ip, username, os, broker))
  {
    UpsertFacts(rows, uuid, ip, username, os, broker);
  }

  /** The `foreach … break` over the list view: the first row with this uuid. */
  method FirstRow(rows: seq<Row>, uuid: string) returns (k: Option<nat>)
    ensures k == FindRow(rows, uuid)
  {
    var i := 0;
    while i < |rows|
      invariant 0 <= i <= |rows|
      invariant forall j :: 0 <= j < i ==> rows[j].uuid != uuid
    {
      if rows[i].uuid == uuid {
        return Some(i);
      }
      i := i + 1;
    }
    return None;
  }

  class Server {
    const link: Link
    const conn: Connector
    const table: PendingTable
    /** The rows of `listView1`. */
    var rows: seq<Row>
    /** `_clients`: uuid to the user name given when it was first seen. */
    var clients: map<string, Option<string>>
    /** `_clientStates`. */
    var clientStates: map<string, PeerState>

    ghost predicate Valid()
      reads this, conn, table
    {
      conn.link == link && conn.Valid() && !conn.lockWedged &&
      table.Valid() && table.timeout == MessageTimeout && table.ceiling == RetryCeiling &&
      UniqueUuids(rows) && Consistent(rows)
    }

    constructor ()
      ensures Valid() && fresh(link) && fresh(conn) && fresh(table)
      ensures !link.connected && link.outbox == [] && table.entries == map[]
      ensures rows == [] && clients == map[] && clientStates == map[]
    {
      var l := new Link();
      link := l;
      conn := new Connector(l);
      table := new PendingTable(MessageTimeout, RetryCeiling);
      rows, clients, clientStates := [], map[], map[];
    }

    // ---- the peer list ----

    /** UpdateTimer_Tick: every row counts one more second and takes the
        tier of its new counter. */
    method Tick()
      requires Valid()
      modifies this`rows
      ensures Valid()
      ensures rows == Ticked(old(rows))
    {
      TickFacts(rows);
      var i := 0;
      while i < |rows|
        invariant 0 <= i <= |rows| && |rows| == |old(rows)|
        invariant forall j :: 0 <= j < i ==> rows[j] == TickedRow(old(rows)[j])
        invariant forall j :: i <= j < |rows| ==> rows[j] == old(rows)[j]
      {
        rows := rows[i := TickedRow(rows[i])];
        i := i + 1;
      }
    }

    /** AddOrUpdateClient: remember the peer's user name the first time it
        is seen, then refresh its row with the given columns or append a new
        row stamped with the current broker. */
    method AddOrUpdateClient(uuid: string, ip: Option<string>, username: Option<string>, os: Option<string>)
      requires Valid()
      modifies this`rows, this`clients
      ensures Valid()
      ensures rows == Upserted(old(rows), uuid, ip, username, os, BrokerText(conn.lastConnected))
      ensures clients == if uuid in old(clients) then old(clients) else old(clients)[uuid := username]
    {
      if uuid !in clients {
        clients := clients[uuid := username];
      }
      var broker := BrokerText(conn.lastConnected);
      UpsertValid(rows, uuid, ip, username, os, broker);
      var k := FirstRow(rows, uuid);
      var next;
      match k {
      case Some(i) =>
        next := rows[i := Refreshed(rows[i].(ip := OrElse(ip, rows[i].ip),
                                              username := OrElse(username, rows[i].username),
                                              os := OrElse(os, rows[i].os)))];
      case None =>
        next := rows + [Row(uuid, OrElse(ip, ""), OrElse(username, ""), OrElse(os, ""), broker, 0, Active)];
      }
      assert next == Upserted(rows, uuid, ip, username, os, broker);
      rows := next;
    }

    /** ResetClientTimer: the peer's row, if any, goes back to 0 / Active. */
    method ResetClientTimer(uuid: string)
      requires Valid()
      modifies this`rows
      ensures Valid()
      ensures rows == TimerReset(old(rows), uuid)
    {
      TimerResetFacts(rows, uuid);
      var k := FirstRow(rows, uuid);
      if k.Some? {
        rows := rows[k.value := Refreshed(rows[k.value])];
      }
    }

    // ---- sending ----

    /** SendAck: echo a data frame's payload, unchanged, on the peer's
        downstream ack topic. */
    method SendAck(clientId: string, originalPayload: string)
      modifies link`outbox
      ensures link.outbox == old(link.outbox) +
        (if link.connected then [Publish(AckTopic(S2C(clientId)), originalPayload, AtLeastOnce)] else [])
    {
      if link.connected {
        var _ := link.Publish(Publish(AckTopic(S2C(clientId)), originalPayload, AtLeastOnce));
      }
    }

    /** SendToClientWithRetry: with the link down nothing happens; otherwise
        the message is filed under its fresh id and published as its frame. */
    method SendToClientWithRetry(clientId: string, message: string, messageId: string, now: int)
      requires Valid() && IsMessageId(messageId)
      modifies table, link`outbox
      ensures Valid()
      ensures var e := Envelope(messageId, message, S2C(clientId), now, 0, false);
        table.entries == (if link.connected then old(table.entries)[messageId := e] else old(table.entries)) &&
        link.outbox == old(link.outbox) + (if link.connected then [Wire(e)] else [])
    {
      if !link.connected {
        return;
      }
      var e := Envelope(messageId, message, S2C(clientId), now, 0, false);
      table.Insert(e);
      var _ := link.Publish(Wire(e));
    }

    /** SendMessageToClient: the gate decides; a command that passes marks the
        peer busy and goes out. */
    method SendMessageToClient(clientId: string, text: string, messageId: string, now: int)
      returns (d: Dispatch)
      requires Valid() && IsMessageId(messageId)
      modifies this`clientStates, table, link`outbox
      ensures Valid()
      ensures d == DispatchOf(old(clientStates), clientId, text)
      ensures d.Send? ==>
        d.command == Text.Trim(text) && IsValidCommand(d.command) &&
        clientStates == Started(old(clientStates), clientId, d.command, now) &&
        table.entries == (if link.connected
                          then old(table.entries)[messageId := Envelope(messageId, d.command, S2C(clientId), now, 0, false)]
                          else old(table.entries)) &&
        link.outbox == old(link.outbox) +
          (if link.connected then [Wire(Envelope(messageId, d.command, S2C(clientId), now, 0, false))] else [])
      ensures !d.Send? ==>
        clientStates == old(clientStates) && table.entries == old(table.entries) && link.outbox == old(link.outbox)
    {
      DispatchGate(clientStates, clientId, text);
      d := DispatchOf(clientStates, clientId, text);
      if d.Send? {
        clientStates := Started(clientStates, clientId, d.command, now);
        SendToClientWithRetry(clientId, d.command, messageId, now);
      }
    }

    // ---- the pending table ----

    /** MessageRetryLoop, one pass. */
    method RetryStep(now: int) returns (ghost order: seq<string>)
      requires Valid()
      modifies table, link`outbox
      ensures Valid()
      ensures table.entries == Swept(old(table.entries), now, MessageTimeout, RetryCeiling, link.connected)
      ensures forall k :: k in order <==> k in Retransmitted(old(table.entries), now, MessageTimeout, RetryCeiling)
      ensures link.outbox == old(link.outbox) + (if link.connected then WiresOf(old(table.entries), order) else [])
    {
      order := table.Sweep(link, now);
    }

    /** HandleAck: the echoed frame's entry leaves the table. */
    method HandleAck(ackText: string)
      requires Valid()
      modifies table
      ensures Valid()
      ensures table.entries == Acked(old(table.entries), ackText)
    {
      table.HandleAck(ackText);
    }

    // ---- broker recovery ----

    /** PrimaryBrokerCheckLoop, one wake-up: while on a backup and due, probe
        the primary; if it answers, switch back and, once on it, resend every
        pending message; if not, restart the clock. The switch is the
        corrected one: a refused switch falls back to the failover instead
        of waiting on the lock it holds, so `conn.lockWedged` stays false. */
    method PrimaryCheckStep(now: int, primaryUp: bool, outcomes: seq<bool>, fallback: seq<bool>)
      returns (onPrimary: bool, ghost resent: seq<string>)
      requires Valid()
      modifies conn, link, table
      ensures Valid()
      ensures onPrimary <==>
        ProbeDue(old(conn.brokerIndex), old(conn.lastPrimaryCheck), now) && primaryUp &&
        FirstSuccess(outcomes, 0, SwitchAttempts) < SwitchAttempts
      ensures onPrimary ==>
        conn.brokerIndex == 0 && link.connected && conn.lastConnected == Some(0) &&
        conn.lastPrimaryCheck == old(conn.lastPrimaryCheck) &&
        table.entries == Resent(old(table.entries), now) &&
        (forall k :: k in resent <==> k in old(table.entries)) &&
        link.outbox == old(link.outbox) + WiresOf(old(table.entries), resent)
      ensures !onPrimary ==> table.entries == old(table.entries) && link.outbox == old(link.outbox)
      ensures !ProbeDue(old(conn.brokerIndex), old(conn.lastPrimaryCheck), now) ==>
        conn.brokerIndex == old(conn.brokerIndex) && conn.lastPrimaryCheck == old(conn.lastPrimaryCheck) &&
        conn.lastConnected == old(conn.lastConnected) && link.connected == old(link.connected)
      ensures ProbeDue(old(conn.brokerIndex), old(conn.lastPrimaryCheck), now) && !primaryUp ==>
        conn.lastPrimaryCheck == Some(now) && conn.brokerIndex == old(conn.brokerIndex) &&
        conn.lastConnected == old(conn.lastConnected) && link.connected == old(link.connected)
      ensures ProbeDue(old(conn.brokerIndex), old(conn.lastPrimaryCheck), now) && primaryUp && !onPrimary ==>
        var w := FailoverPlan(fallback).winner;
        link.connected == w.Some? &&
        conn.brokerIndex == (if w.Some? then w.value else old(conn.brokerIndex)) &&
        conn.lastConnected == (if w.Some? then w else old(conn.lastConnected)) &&
        conn.lastPrimaryCheck == (if w.Some? && w.value != 0 then Some(now) else old(conn.lastPrimaryCheck))
    {
      onPrimary, resent := false, [];
      if !ProbeDue(conn.brokerIndex, conn.lastPrimaryCheck, now) {
        return;
      }
      if !primaryUp {
        conn.lastPrimaryCheck := Some(now);
        return;
      }
      var winner;
      onPrimary, winner := conn.SwitchToPrimaryBroker(outcomes, fallback, now);
      if onPrimary {
        resent := table.ResendAll(link, now);
      }
    }

    // ---- inbound ----

    /** The data-frame route of OnMessageReceived, for peer `p`. */
    method OnDataFrame(p: string, payload: string)
      requires Valid()
      modifies this`rows, this`clients, this`clientStates, link`outbox
      ensures Valid()
      ensures var c := Classify(ParseServerFrame(DecodeFromBase64(payload)).data);
        rows == (if c.Handshake? then Upserted(old(rows), c.uuid, Some(c.ip), Some(c.username), Some(c.os),
                                               BrokerText(conn.lastConnected))
                 else if c.Heartbeat? then TimerReset(old(rows), p)
                 else old(rows)) &&
        clientStates == (if ClearsGate(c) then Received(old(clientStates), p) else old(clientStates)) &&
        clients == (if c.Handshake? && c.uuid !in old(clients) then old(clients)[c.uuid := Some(c.username)]
                    else old(clients)) &&
        link.outbox == old(link.outbox) +
          (if link.connected then [Publish(AckTopic(S2C(p)), payload, AtLeastOnce)] else [])
    {
      var frame := ParseServerFrame(DecodeFromBase64(payload));
      var c := Classify(frame.data);
      if c.Handshake? {
        AddOrUpdateClient(c.uuid, Some(c.ip), Some(c.username), Some(c.os));
      } else if c.Heartbeat? {
        ResetClientTimer(p);
      } else if ClearsGate(c) {
        clientStates := Received(clientStates, p);
      }
      SendAck(p, payload);
    }

    /** OnMessageReceived. A data frame from peer `p` (topic depth 3) is
        decoded, split at the first `|` and classified: a handshake adds or
        refreshes the row named in it, a heartbeat refreshes `p`'s row, a
        result clears `p`'s gate; every data frame is then acknowledged.
        An acknowledgement (depth 4, `ack`) is handed to HandleAck. Any
        other topic is ignored. */
    method OnMessageReceived(topic: string, payload: string)
      requires Valid()
      modifies this`rows, this`clients, this`clientStates, table, link`outbox
      ensures Valid()
      ensures RouteOf(topic).DataFrom? ==>
        var p, c := RouteOf(topic).peer, Classify(ParseServerFrame(DecodeFromBase64(payload)).data);
        rows == (if c.Handshake? then Upserted(old(rows), c.uuid, Some(c.ip), Some(c.username), Some(c.os),
                                               BrokerText(conn.lastConnected))
                 else if c.Heartbeat? then TimerReset(old(rows), p)
                 else old(rows)) &&
        clientStates == (if ClearsGate(c) then Received(old(clientStates), p) else old(clientStates)) &&
        table.entries == old(table.entries) &&
        link.outbox == old(link.outbox) +
          (if link.connected then [Publish(AckTopic(S2C(p)), payload, AtLeastOnce)] else [])
      ensures RouteOf(topic).AckFrom? ==>
        table.entries == Acked(old(table.entries), DecodeFromBase64(payload)) &&
        rows == old(rows) && clientStates == old(clientStates) && link.outbox == old(link.outbox)
      ensures RouteOf(topic).Ignored? ==>
        table.entries == old(table.entries) && rows == old(rows) &&
        clientStates == old(clientStates) && link.outbox == old(link.outbox)
      ensures var c := Classify(ParseServerFrame(DecodeFromBase64(payload)).data);
        clients == (if RouteOf(topic).DataFrom? && c.Handshake? && c.uuid !in old(clients)
                    then old(clients)[c.uuid := Some(c.username)] else old(clients))
    {
      match RouteOf(topic)
      case DataFrom(p) =>
        OnDataFrame(p, payload);
      case AckFrom(_) =>
        HandleAck(DecodeFromBase64(payload));
      case Ignored =>
    }
  }
}
