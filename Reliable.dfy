/** The pending-message table both sides keep for at-least-once delivery:
    the envelope, the frame that carries it, and what one retry sweep, one
    acknowledgement and one resend-after-migration do to the table, as
    functions over `map<string, Envelope>`. Times are integer milliseconds. */
module Reliable {
  import opened Wrappers
  import Text
  import opened Frame

  /** `PendingMessage`: the id, the body to resend, the topic, when it was
      last sent, how often it was retried, and whether it was acknowledged. */
  datatype Envelope = Envelope(id: string, payload: string, topic: string,
                               sentTime: int, retryCount: nat, ackReceived: bool)

  datatype Qos = AtMostOnce | AtLeastOnce

  /** One outbound publish: topic, text payload, quality of service. */
  datatype Publish = Publish(topic: string, payload: string, qos: Qos)

  /** The frame an envelope goes out as, on the first send and on every
      retransmission alike. */
  function Wire(e: Envelope): Publish
  {
    Publish(e.topic, Framed(e.id, e.payload), AtLeastOnce)
  }

  /** The frames of the entries named by `ids`, in that order. */
  function WiresOf(m: map<string, Envelope>, ids: seq<string>): seq<Publish>
    requires forall k :: k in ids ==> k in m
  {
    seq(|ids|, i requires 0 <= i < |ids| => Wire(m[ids[i]]))
  }

  lemma WiresOfSnoc(m: map<string, Envelope>, ids: seq<string>, k: string, prefix: seq<Publish>)
    requires forall j :: j in ids ==> j in m
    requires k in m
    ensures prefix + WiresOf(m, ids + [k]) == (prefix + WiresOf(m, ids)) + [Wire(m[k])]
  {
    assert WiresOf(m, ids + [k]) == WiresOf(m, ids) + [Wire(m[k])];
  }

  /** No id twice. */
  predicate Distinct(ids: seq<string>)
  {
    forall i, j :: 0 <= i < j < |ids| ==> ids[i] != ids[j]
  }

  lemma DistinctSnoc(ids: seq<string>, k: string)
    requires Distinct(ids) && k !in ids
    ensures Distinct(ids + [k])
  {
  }

  /** The table's own invariant: every entry is filed under its id, is not yet
      acknowledged (HandleAck removes an entry in the same step it marks it),
      and has been retried no more than the ceiling. */
  ghost predicate TableInvariant(m: map<string, Envelope>, ceiling: nat)
  {
    forall k :: k in m ==> m[k].id == k && !m[k].ackReceived && m[k].retryCount <= ceiling
  }

  /** The sweep's selection: un-acked and older than the timeout. */
  predicate TimedOut(e: Envelope, now: int, timeout: int)
  {
    now - e.sentTime > timeout && !e.ackReceived
  }

  /** A timed-out entry whose incremented count passes the ceiling is dropped. */
  predicate Exhausted(e: Envelope, ceiling: nat)
  {
    e.retryCount + 1 > ceiling
  }

  /** A timed-out entry that survives: one more retry, and a fresh `SentTime`
      only when the publish went out (a publish while disconnected throws and
      the source's catch skips the assignment). */
  function Retried(e: Envelope, now: int, published: bool): Envelope
  {
    e.(retryCount := e.retryCount + 1, sentTime := if published then now else e.sentTime)
  }

  /** The table after one sweep of MessageRetryLoop. */
  function Swept(m: map<string, Envelope>, now: int, timeout: int, ceiling: nat, connected: bool): map<string, Envelope>
  {
    map k | k in m && !(TimedOut(m[k], now, timeout) && Exhausted(m[k], ceiling)) ::
      if TimedOut(m[k], now, timeout) then Retried(m[k], now, connected) else m[k]
  }

  /** The table part-way through a sweep: the due entries listed in `done`
      have been handled, the others not yet. */
  function SweptOver(m: map<string, Envelope>, now: int, timeout: int, ceiling: nat, connected: bool,
                     done: seq<string>): map<string, Envelope>
  {
    map k | k in m && !(k in done && TimedOut(m[k], now, timeout) && Exhausted(m[k], ceiling)) ::
      if k in done && TimedOut(m[k], now, timeout) then Retried(m[k], now, connected) else m[k]
  }

  lemma SweptOverStep(m: map<string, Envelope>, now: int, timeout: int, ceiling: nat, connected: bool,
                      ids: seq<string>, i: nat)
    requires i < |ids| && Distinct(ids) && ids[i] in m && TimedOut(m[ids[i]], now, timeout)
    ensures ids[i] in SweptOver(m, now, timeout, ceiling, connected, ids[..i])
    ensures SweptOver(m, now, timeout, ceiling, connected, ids[..i])[ids[i]] == m[ids[i]]
    ensures SweptOver(m, now, timeout, ceiling, connected, ids[..i + 1]) ==
      if Exhausted(m[ids[i]], ceiling) then SweptOver(m, now, timeout, ceiling, connected, ids[..i]) - {ids[i]}
      else SweptOver(m, now, timeout, ceiling, connected, ids[..i])[ids[i] := Retried(m[ids[i]], now, connected)]
  {
    assert ids[..i + 1] == ids[..i] + [ids[i]];
  }

  lemma SweptOverEnds(m: map<string, Envelope>, now: int, timeout: int, ceiling: nat, connected: bool,
                      ids: seq<string>)
    requires forall k :: k in ids <==> k in m && TimedOut(m[k], now, timeout)
    ensures SweptOver(m, now, timeout, ceiling, connected, []) == m
    ensures SweptOver(m, now, timeout, ceiling, connected, ids) == Swept(m, now, timeout, ceiling, connected)
  {
  }

  /** The ids one sweep retransmits. */
  function Retransmitted(m: map<string, Envelope>, now: int, timeout: int, ceiling: nat): set<string>
  {
    set k | k in m && TimedOut(m[k], now, timeout) && !Exhausted(m[k], ceiling)
  }

  /** The ids one sweep drops. */
  function Dropped(m: map<string, Envelope>, now: int, timeout: int, ceiling: nat): set<string>
  {
    set k | k in m && TimedOut(m[k], now, timeout) && Exhausted(m[k], ceiling)
  }

  /** The table after HandleAck: the entry named by the text before the first
      `|` is removed; an unknown id changes nothing. */
  function Acked(m: map<string, Envelope>, ackText: string): map<string, Envelope>
  {
    m - {AckedId(ackText)}
  }

  /** The table after ResendPendingMessages: every un-acked entry gets `now`
      as its `SentTime`. */
  function Resent(m: map<string, Envelope>, now: int): map<string, Envelope>
  {
    map k | k in m :: if !m[k].ackReceived then m[k].(sentTime := now) else m[k]
  }

  /** The table part-way through a resend: the entries listed in `done`
      have been stamped. */
  function ResentOver(m: map<string, Envelope>, now: int, done: seq<string>): map<string, Envelope>
  {
    map k | k in m :: if k in done && !m[k].ackReceived then m[k].(sentTime := now) else m[k]
  }

  lemma ResentOverStep(m: map<string, Envelope>, now: int, ids: seq<string>, i: nat)
    requires i < |ids| && ids[i] in m && Distinct(ids)
    ensures ids[i] in ResentOver(m, now, ids[..i]) && ResentOver(m, now, ids[..i])[ids[i]] == m[ids[i]]
    ensures ResentOver(m, now, ids[..i + 1]) ==
      if m[ids[i]].ackReceived then ResentOver(m, now, ids[..i])
      else ResentOver(m, now, ids[..i])[ids[i] := m[ids[i]].(sentTime := now)]
  {
    assert ids[..i + 1] == ids[..i] + [ids[i]];
  }

  lemma ResentOverEnds(m: map<string, Envelope>, now: int, ids: seq<string>)
    requires forall k :: k in ids <==> k in m && !m[k].ackReceived
    ensures ResentOver(m, now, []) == m
    ensures ResentOver(m, now, ids) == Resent(m, now)
  {
  }

  // ---- properties of one sweep ----

  /** A sweep removes exactly the dropped entries and adds none. */
  lemma SweepKeys(m: map<string, Envelope>, now: int, timeout: int, ceiling: nat, connected: bool)
    ensures Swept(m, now, timeout, ceiling, connected).Keys == m.Keys - Dropped(m, now, timeout, ceiling)
  {
  }

  /** Entries that are not due are left exactly as they were. */
  lemma SweepLeavesOthers(m: map<string, Envelope>, now: int, timeout: int, ceiling: nat, connected: bool, k: string)
    requires k in m && !TimedOut(m[k], now, timeout)
    ensures k in Swept(m, now, timeout, ceiling, connected)
    ensures Swept(m, now, timeout, ceiling, connected)[k] == m[k]
  {
  }

  /** A retried entry keeps its id, body and topic (so it goes out as the same
      frame), counts one more retry, and is stamped `now` when connected. */
  lemma SweepRetries(m: map<string, Envelope>, now: int, timeout: int, ceiling: nat, connected: bool, k: string)
    requires k in Retransmitted(m, now, timeout, ceiling)
    ensures k in Swept(m, now, timeout, ceiling, connected)
    ensures var e, e' := m[k], Swept(m, now, timeout, ceiling, connected)[k];
      && e'.id == e.id && e'.payload == e.payload && e'.topic == e.topic
      && e'.retryCount == e.retryCount + 1 && Wire(e') == Wire(e)
      && e'.sentTime == (if connected then now else e.sentTime)
  {
  }

  /** A dropped entry is one whose incremented count passed the ceiling. */
  lemma SweepDrops(m: map<string, Envelope>, now: int, timeout: int, ceiling: nat, connected: bool, k: string)
    requires k in Dropped(m, now, timeout, ceiling)
    ensures k !in Swept(m, now, timeout, ceiling, connected)
    ensures m[k].retryCount + 1 > ceiling
  {
  }

  /** An id no longer in the table (acknowledged or dropped) is never
      retransmitted and never comes back. */
  lemma SweepNeverRevives(m: map<string, Envelope>, now: int, timeout: int, ceiling: nat, connected: bool, k: string)
    requires k !in m
    ensures k !in Swept(m, now, timeout, ceiling, connected)
    ensures k !in Retransmitted(m, now, timeout, ceiling)
  {
  }

  /** The sweep keeps the table invariant, retry ceiling included. */
  lemma SweepKeepsInvariant(m: map<string, Envelope>, now: int, timeout: int, ceiling: nat, connected: bool)
    requires TableInvariant(m, ceiling)
    ensures TableInvariant(Swept(m, now, timeout, ceiling, connected), ceiling)
  {
  }

  /** The sweep's selection is complete: every id of the table is retransmitted,
      dropped or left alone, and no id is both. */
  lemma SweepPartition(m: map<string, Envelope>, now: int, timeout: int, ceiling: nat)
    ensures Retransmitted(m, now, timeout, ceiling) !! Dropped(m, now, timeout, ceiling)
    ensures Retransmitted(m, now, timeout, ceiling) + Dropped(m, now, timeout, ceiling)
         == set k | k in m && TimedOut(m[k], now, timeout)
  {
  }

  // ---- properties of an acknowledgement ----

  /** An acknowledgement echoing a frame removes exactly that frame's entry
      and leaves every other entry as it was. */
  lemma AckRemovesNamedOnly(m: map<string, Envelope>, messageId: string, body: string)
    requires '|' !in messageId
    ensures Acked(m, DecodeFromBase64(Framed(messageId, body))) == m - {messageId}
  {
    AckedIdOfFrame(messageId, body);
  }

  /** An acknowledgement whose id is not in the table changes nothing. */
  lemma AckUnknownIgnored(m: map<string, Envelope>, ackText: string)
    requires AckedId(ackText) !in m
    ensures Acked(m, ackText) == m
  {
  }

  /** An acknowledgement keeps the table invariant. */
  lemma AckKeepsInvariant(m: map<string, Envelope>, ackText: string, ceiling: nat)
    requires TableInvariant(m, ceiling)
    ensures TableInvariant(Acked(m, ackText), ceiling)
  {
  }

  /** An acknowledged entry is gone for good: a later sweep does not resend it. */
  lemma AckedNeverRetransmitted(m: map<string, Envelope>, messageId: string, body: string,
                                now: int, timeout: int, ceiling: nat)
    requires '|' !in messageId
    ensures messageId !in Retransmitted(Acked(m, DecodeFromBase64(Framed(messageId, body))), now, timeout, ceiling)
  {
    AckRemovesNamedOnly(m, messageId, body);
  }

  /** Resending after migration keeps the keys, ids, bodies and topics of the
      table, stamps every entry with `now` and keeps the invariant. */
  lemma ResentFacts(m: map<string, Envelope>, now: int, ceiling: nat)
    requires TableInvariant(m, ceiling)
    ensures Resent(m, now).Keys == m.Keys
    ensures forall k :: k in m ==> Resent(m, now)[k] == m[k].(sentTime := now)
    ensures TableInvariant(Resent(m, now), ceiling)
  {
  }
}
