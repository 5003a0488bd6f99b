/** The two stateful pieces both programs share: the MQTT connection as far as
    publishing goes (`Link`: connected or not, and the log of what went out),
    and the pending-message table with its send, acknowledge, sweep and
    resend operations, proved against the functions of `Reliable`. */
module Channel {
  import opened Wrappers
  import opened Frame
  import opened Reliable

  /** The connection: `PublishAsync` goes out only while connected (it throws
      otherwise, and every caller swallows the exception). */
  class Link {
    var connected: bool
    var outbox: seq<Publish>

    constructor ()
      ensures !connected && outbox == []
    {
      connected := false;
      outbox := [];
    }

    /** One `ConnectAsync`: it connects exactly when the broker accepts. */
    method Connect(accepted: bool)
      requires !connected
      modifies this`connected
      ensures connected == accepted
    {
      connected := accepted;
    }

    /** `DisconnectAsync`, or the broker dropping the connection. */
    method Disconnect()
      modifies this`connected
      ensures !connected
    {
      connected := false;
    }

    method Publish(p: Publish) returns (sent: bool)
      modifies this`outbox
      ensures sent == connected
      ensures outbox == old(outbox) + (if sent then [p] else [])
    {
      sent := connected;
      if sent {
        outbox := outbox + [p];
      }
    }
  }

  /** `.ToList()` of a set of ids: each once, in an order the model leaves
      open (the dictionary's enumeration order). */
  method ToList(s: set<string>) returns (ids: seq<string>)
    ensures Distinct(ids)
    ensures forall k :: k in ids <==> k in s
  {
    var todo := s;
    ids := [];
    while todo != {}
      invariant todo <= s && Distinct(ids)
      invariant forall k :: k in ids <==> k in s && k !in todo
      decreases |todo|
    {
      var k :| k in todo;
      DistinctSnoc(ids, k);
      ids := ids + [k];
      todo := todo - {k};
    }
  }

  /** The `foreach` of ResendPendingMessages over the listed ids: each is
      published again and, when that went out, stamped `now`. */
  method ResendEach(link: Link, m: map<string, Envelope>, now: int, ids: seq<string>)
    returns (r: map<string, Envelope>)
    requires Distinct(ids) && forall k :: k in ids ==> k in m && !m[k].ackReceived
    modifies link`outbox
    ensures r == if link.connected then ResentOver(m, now, ids) else m
    ensures link.outbox == old(link.outbox) + (if link.connected then WiresOf(m, ids) else [])
  {
    ghost var c, out0 := link.connected, link.outbox;
    r := m;
    var i := 0;
    while i < |ids|
      invariant 0 <= i <= |ids|
      invariant link.connected == c
      invariant c ==> r == ResentOver(m, now, ids[..i])
      invariant !c ==> r == m
      invariant link.outbox == out0 + (if c then WiresOf(m, ids[..i]) else [])
    {
      var k := ids[i];
      assert k in m && !m[k].ackReceived;
      ResentOverStep(m, now, ids, i);
      WiresOfSnoc(m, ids[..i], k, out0);
      assert ids[..i] + [k] == ids[..i + 1];
      var sent := link.Publish(Wire(m[k]));
      if sent {
        r := r[k := m[k].(sentTime := now)];
      }
      i := i + 1;
    }
    assert ids[..i] == ids;
  }

  /** The body of the sweep's `foreach` for one due entry: count the retry,
      then drop the entry past the ceiling or publish it again as the same
      frame, refreshing `SentTime` only when that went out. */
  method RetryEntry(link: Link, m: map<string, Envelope>, k: string, now: int, ceiling: nat)
    returns (r: map<string, Envelope>, resent: bool)
    requires k in m
    modifies link`outbox
    ensures resent == !Exhausted(m[k], ceiling)
    ensures r == if resent then m[k := Retried(m[k], now, link.connected)] else m - {k}
    ensures link.outbox == old(link.outbox) + (if resent && link.connected then [Wire(m[k])] else [])
  {
    var e := m[k];
    resent := e.retryCount + 1 <= ceiling;
    if !resent {
      r := m - {k};
    } else {
      var sent := link.Publish(Wire(e));
      r := m[k := Retried(e, now, sent)];
    }
  }

  /** The sweep's `foreach` over the listed due ids; `order` records the ones
      published again. */
  method SweepEach(link: Link, m: map<string, Envelope>, now: int, timeout: int, ceiling: nat,
                   due: seq<string>)
    returns (r: map<string, Envelope>, ghost order: seq<string>)
    requires Distinct(due) && forall k :: k in due ==> k in m && TimedOut(m[k], now, timeout)
    modifies link`outbox
    ensures r == SweptOver(m, now, timeout, ceiling, link.connected, due)
    ensures forall k :: k in order <==> k in due && !Exhausted(m[k], ceiling)
    ensures Distinct(order)
    ensures link.outbox == old(link.outbox) + (if link.connected then WiresOf(m, order) else [])
  {
    ghost var c, out0 := link.connected, link.outbox;
    assert SweptOver(m, now, timeout, ceiling, c, []) == m;
    r, order := m, [];
    var i := 0;
    while i < |due|
      invariant 0 <= i <= |due|
      invariant link.connected == c
      invariant r == SweptOver(m, now, timeout, ceiling, c, due[..i])
      invariant forall k :: k in order <==> k in due[..i] && !Exhausted(m[k], ceiling)
      invariant Distinct(order)
      invariant link.outbox == out0 + (if c then WiresOf(m, order) else [])
    {
      var k := due[i];
      SweptOverStep(m, now, timeout, ceiling, c, due, i);
      WiresOfSnoc(m, order, k, out0);
      assert due[..i + 1] == due[..i] + [k];
      var resent;
      r, resent := RetryEntry(link, r, k, now, ceiling);
      if resent {
        DistinctSnoc(order, k);
        order := order + [k];
      }
      i := i + 1;
    }
    assert due[..i] == due;
  }

  /** `_pendingMessages` with the side's timeout and retry ceiling
      (10 s and 3 on the server, 60 s and 2 on the client). */
  class PendingTable {
    const timeout: int
    const ceiling: nat
    var entries: map<string, Envelope>

    ghost predicate Valid()
      reads this
    {
      TableInvariant(entries, ceiling) && forall k :: k in entries ==> IsMessageId(k)
    }

    constructor (timeout: int, ceiling: nat)
      ensures Valid() && this.timeout == timeout && this.ceiling == ceiling && entries == map[]
    {
      this.timeout := timeout;
      this.ceiling := ceiling;
      entries := map[];
    }

    /** A new entry, filed under its id; an id already present is overwritten,
        as the dictionary indexer does. */
    method Insert(e: Envelope)
      requires Valid() && IsMessageId(e.id) && e.retryCount == 0 && !e.ackReceived
      modifies this
      ensures Valid()
      ensures entries == old(entries)[e.id := e]
    {
      entries := entries[e.id := e];
    }

    /** HandleAck: drop the entry named before the first `|`, if any. */
    method HandleAck(ackText: string)
      requires Valid()
      modifies this
      ensures Valid()
      ensures entries == Acked(old(entries), ackText)
    {
      var messageId := AckedId(ackText);
      if messageId in entries {
        entries := entries - {messageId};
      }
    }

    /** One pass of MessageRetryLoop: every entry that is due counts one more
        retry and is dropped past the ceiling or published again as the same
        frame. The due entries are listed first and then visited in that
        list's order; `order` records the ones published again. */
    method Sweep(link: Link, now: int) returns (ghost order: seq<string>)
      requires Valid()
      modifies this, link`outbox
      ensures Valid()
      ensures entries == Swept(old(entries), now, timeout, ceiling, link.connected)
      ensures forall k :: k in order <==> k in Retransmitted(old(entries), now, timeout, ceiling)
      ensures Distinct(order)
      ensures link.outbox == old(link.outbox) + (if link.connected then WiresOf(old(entries), order) else [])
    {
      var due := ToList(set k | k in entries && TimedOut(entries[k], now, timeout));
      SweptOverEnds(entries, now, timeout, ceiling, link.connected, due);
      SweepKeepsInvariant(entries, now, timeout, ceiling, link.connected);
      SweepKeys(entries, now, timeout, ceiling, link.connected);
      entries, order := SweepEach(link, entries, now, timeout, ceiling, due);
    }

    /** ResendPendingMessages: every un-acknowledged entry is published again
        and, when that went out, stamped `now`. */
    method ResendAll(link: Link, now: int) returns (ghost order: seq<string>)
      requires Valid()
      modifies this, link`outbox
      ensures Valid()
      ensures entries == (if link.connected then Resent(old(entries), now) else old(entries))
      ensures forall k :: k in order <==> k in old(entries)
      ensures Distinct(order)
      ensures link.outbox == old(link.outbox) + (if link.connected then WiresOf(old(entries), order) else [])
    {
      var ids := ToList(set k | k in entries && !entries[k].ackReceived);
      ResentOverEnds(entries, now, ids);
      ResentFacts(entries, now, ceiling);
      entries := ResendEach(link, entries, now, ids);
      order := ids;
    }
  }
}
