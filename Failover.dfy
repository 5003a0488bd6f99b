/** The connection manager both programs carry, written once: the priority
    failover of ConnectWithPriorityFailover, the per-broker attempts of
    TryConnectToBroker, and the move back to the primary of
    SwitchToPrimaryBroker, both as the source has it and corrected.

    `_connectionLock` is a `SemaphoreSlim(1, 1)`, which is not reentrant.
    SwitchToPrimaryBroker holds it and, when the primary refuses, calls
    ConnectWithPriorityFailover, which waits for it again: that call never
    returns, the lock is never released, and every later connection attempt
    waits behind it. `lockWedged` records that a caller is stuck there so;
    once it is set, nothing that takes the lock has any effect. */
module Failover {
  import opened Wrappers
  import opened Election
  import opened Channel

  class Connector {
    const link: Link
    /** `_currentBrokerIndex`. */
    var brokerIndex: nat
    /** The broker of the last successful attempt (the server's `_currentBroker`). */
    var lastConnected: Option<nat>
    /** `_lastPrimaryCheckTime`; `None` is `DateTime.MinValue`. */
    var lastPrimaryCheck: Option<int>
    /** Some task is blocked forever on `_connectionLock` while holding it. */
    var lockWedged: bool
    /** Every connection attempt made so far, by broker index. */
    ghost var tried: seq<nat>

    ghost predicate Valid()
      reads this
    {
      brokerIndex < |Brokers| && (lastConnected.Some? ==> lastConnected.value < |Brokers|)
    }

    constructor (link: Link)
      ensures Valid() && this.link == link
      ensures brokerIndex == 0 && lastConnected == None && lastPrimaryCheck == None
      ensures !lockWedged && tried == []
    {
      this.link := link;
      brokerIndex := 0;
      lastConnected := None;
      lastPrimaryCheck := None;
      lockWedged := false;
      tried := [];
    }

    /** TryConnectToBroker: up to `attempts` connection attempts on one
        broker, stopping at the first that is accepted. The attempts are the
        ones numbered `from` onwards in `outcomes`; `next` is the number of
        the first attempt not made. */
    method TryConnectToBroker(index: nat, attempts: nat, outcomes: seq<bool>, from: nat)
      returns (ok: bool, next: nat)
      requires Valid() && index < |Brokers| && !link.connected
      modifies link`connected, this`lastConnected, this`tried
      ensures Valid()
      ensures ok <==> FirstSuccess(outcomes, from, from + attempts) < from + attempts
      ensures next == if ok then FirstSuccess(outcomes, from, from + attempts) + 1 else from + attempts
      ensures link.connected == ok
      ensures tried == old(tried) + seq(next - from, _ => index)
      ensures lastConnected == if ok then Some(index) else old(lastConnected)
    {
      var attempt := 1;
      while attempt <= attempts
        invariant 1 <= attempt <= attempts + 1
        invariant forall j :: from <= j < from + attempt - 1 ==> !Succeeds(outcomes, j)
        invariant !link.connected && lastConnected == old(lastConnected)
        invariant tried == old(tried) + seq(attempt - 1, _ => index)
      {
        var k := from + attempt - 1;
        var accepted := Succeeds(outcomes, k);
        assert seq(attempt - 1, _ => index) + [index] == seq(attempt, _ => index);
        tried := tried + [index];
        link.Connect(accepted);
        if accepted {
          lastConnected := Some(index);
          ok, next := true, k + 1;
          return;
        }
        attempt := attempt + 1;
      }
      ok, next := false, from + attempts;
    }

    /** The body of ConnectWithPriorityFailover once the lock is held and the
        link is down: the primary `PrimaryAttempts` times, then each backup
        once, in order; a backup win starts the primary-check clock. The
        attempts made and the winner are those of `FailoverPlan`. */
    method FailoverLocked(outcomes: seq<bool>, now: int) returns (winner: Option<nat>)
      requires Valid() && !link.connected
      modifies link`connected, this`lastConnected, this`tried, this`brokerIndex, this`lastPrimaryCheck
      ensures Valid()
      ensures winner == FailoverPlan(outcomes).winner
      ensures tried == old(tried) + FailoverPlan(outcomes).tried
      ensures link.connected == winner.Some?
      ensures brokerIndex == if winner.Some? then winner.value else old(brokerIndex)
      ensures lastConnected == if winner.Some? then winner else old(lastConnected)
      ensures lastPrimaryCheck == if winner.Some? && winner.value != 0 then Some(now) else old(lastPrimaryCheck)
    {
      var ok, next := TryConnectToBroker(0, PrimaryAttempts, outcomes, 0);
      PrimaryPhase(outcomes);
      if ok {
        brokerIndex := 0;
        winner := Some(0);
        return;
      }
      var i := 1;
      while i < |Brokers|
        invariant 1 <= i <= |Brokers| && next == PrimaryAttempts + i - 1
        invariant FirstSuccess(outcomes, 0, next) == next
        invariant tried == old(tried) + Schedule()[..next]
        invariant !link.connected && brokerIndex == old(brokerIndex)
        invariant lastConnected == old(lastConnected) && lastPrimaryCheck == old(lastPrimaryCheck)
      {
        PlanStep(outcomes, next);
        assert seq(BackupAttempts, _ => i) == [Schedule()[next]];
        ok, next := TryConnectToBroker(i, BackupAttempts, outcomes, next);
        if ok {
          brokerIndex := i;
          lastPrimaryCheck := Some(now);
          winner := Some(i);
          return;
        }
        i := i + 1;
      }
      assert Schedule()[..next] == Schedule();
      winner := None;
    }

    /** ConnectWithPriorityFailover: nothing while the lock is wedged or the
        link is up, otherwise the failover above. */
    method ConnectWithPriorityFailover(outcomes: seq<bool>, now: int) returns (winner: Option<nat>)
      requires Valid()
      modifies link`connected, this`lastConnected, this`tried, this`brokerIndex, this`lastPrimaryCheck
      ensures Valid()
      ensures old(lockWedged) || old(link.connected) ==>
        winner == None && link.connected == old(link.connected) && tried == old(tried) &&
        brokerIndex == old(brokerIndex) && lastConnected == old(lastConnected) &&
        lastPrimaryCheck == old(lastPrimaryCheck)
      ensures !old(lockWedged) && !old(link.connected) ==>
        winner == FailoverPlan(outcomes).winner && tried == old(tried) + FailoverPlan(outcomes).tried &&
        link.connected == winner.Some? &&
        brokerIndex == (if winner.Some? then winner.value else old(brokerIndex)) &&
        lastConnected == (if winner.Some? then winner else old(lastConnected)) &&
        lastPrimaryCheck == (if winner.Some? && winner.value != 0 then Some(now) else old(lastPrimaryCheck))
    {
      if lockWedged || link.connected {
        winner := None;
        return;
      }
      winner := FailoverLocked(outcomes, now);
    }

    /** SwitchToPrimaryBroker as written: drop the backup, give the primary
        `SwitchAttempts` attempts, and on failure call back into
        ConnectWithPriorityFailover under the lock, which wedges it. */
    method SwitchToPrimaryAsWritten(outcomes: seq<bool>) returns (onPrimary: bool)
      requires Valid()
      modifies link`connected, this`lastConnected, this`tried, this`brokerIndex, this`lockWedged
      ensures Valid()
      ensures onPrimary <==> !old(lockWedged) && FirstSuccess(outcomes, 0, SwitchAttempts) < SwitchAttempts
      ensures onPrimary ==> link.connected && brokerIndex == 0 && lastConnected == Some(0)
      ensures !onPrimary && !old(lockWedged) ==>
        lockWedged && !link.connected && brokerIndex == old(brokerIndex) && lastConnected == old(lastConnected)
      ensures old(lockWedged) ==> lockWedged && link.connected == old(link.connected) && tried == old(tried)
    {
      if lockWedged {
        onPrimary := false;
        return;
      }
      if link.connected {
        link.Disconnect();
      }
      var ok, _ := TryConnectToBroker(0, SwitchAttempts, outcomes, 0);
      if ok {
        brokerIndex := 0;
        onPrimary := true;
      } else {
        lockWedged := true;
        onPrimary := false;
      }
    }

    /** SwitchToPrimaryBroker corrected: when the primary refuses, the
        failover runs under the lock already held, with its own attempts
        `fallback`. */
    method SwitchToPrimaryBroker(outcomes: seq<bool>, fallback: seq<bool>, now: int)
      returns (onPrimary: bool, winner: Option<nat>)
      requires Valid()
      modifies link`connected, this`lastConnected, this`tried, this`brokerIndex, this`lastPrimaryCheck
      ensures Valid()
      ensures old(lockWedged) ==>
        !onPrimary && winner == None && link.connected == old(link.connected) &&
        brokerIndex == old(brokerIndex) && tried == old(tried) &&
        lastConnected == old(lastConnected) && lastPrimaryCheck == old(lastPrimaryCheck)
      ensures onPrimary <==> !old(lockWedged) && FirstSuccess(outcomes, 0, SwitchAttempts) < SwitchAttempts
      ensures onPrimary ==>
        link.connected && brokerIndex == 0 && lastConnected == Some(0) && winner == None &&
        lastPrimaryCheck == old(lastPrimaryCheck) &&
        tried == old(tried) + seq(FirstSuccess(outcomes, 0, SwitchAttempts) + 1, _ => 0)
      ensures !onPrimary && !old(lockWedged) ==>
        winner == FailoverPlan(fallback).winner && link.connected == winner.Some? &&
        brokerIndex == (if winner.Some? then winner.value else old(brokerIndex)) &&
        lastConnected == (if winner.Some? then winner else old(lastConnected)) &&
        lastPrimaryCheck == (if winner.Some? && winner.value != 0 then Some(now) else old(lastPrimaryCheck)) &&
        tried == old(tried) + seq(SwitchAttempts, _ => 0) + FailoverPlan(fallback).tried
    {
      onPrimary, winner := false, None;
      if lockWedged {
        return;
      }
      if link.connected {
        link.Disconnect();
      }
      var ok, _ := TryConnectToBroker(0, SwitchAttempts, outcomes, 0);
      if ok {
        brokerIndex := 0;
        onPrimary := true;
      } else {
        winner := FailoverLocked(fallback, now);
      }
    }
  }

  /** The deadlock, on one run: connected to backup 1 after the primary failed
      three times, the switch back finds the primary gone again; from then
      on a failover with every broker up connects nowhere. */
  method SwitchFailureWedges() returns (connectedAfter: bool)
    ensures !connectedAfter
  {
    var link := new Link();
    var c := new Connector(link);
    ScheduleIs();
    var w := c.ConnectWithPriorityFailover([false, false, false, true], 0);
    var onPrimary := c.SwitchToPrimaryAsWritten([]);
    var w2 := c.ConnectWithPriorityFailover([true, true, true, true, true], 1000);
    connectedAfter := link.connected;
  }

  /** The same run with the corrected switch: it falls back to backup 1. */
  method SwitchFailureFallsBack() returns (connectedAfter: bool, on: nat)
    ensures connectedAfter && on == 1
  {
    var link := new Link();
    var c := new Connector(link);
    ScheduleIs();
    var w := c.ConnectWithPriorityFailover([false, false, false, true], 0);
    var o := [false, false, false, true];
    assert FirstSuccess(o, 3, 5) == 3 && FirstSuccess(o, 0, 5) == 3;
    assert FirstSuccess([], 0, SwitchAttempts) == SwitchAttempts;
    var onPrimary, w2 := c.SwitchToPrimaryBroker([], o, 60_000);
    connectedAfter, on := link.connected, c.brokerIndex;
  }
}
