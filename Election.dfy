/** Broker election: the ordered broker list, and which broker each connection
    attempt of `ConnectWithPriorityFailover` targets. Whether an attempt
    succeeds comes from an oracle: `outcomes[k]` is the result of the k-th
    attempt of one call, and attempts past its end fail. */
module Election {
  import opened Wrappers

  datatype Broker = Broker(host: string, port: nat)

  /** Index 0 is the primary; the others are backups, tried in this order. */
  const Brokers: seq<Broker> := [
    Broker("broker.hivemq.com", 1883),
    Broker("test.mosquitto.org", 1883),
    Broker("broker.emqx.io", 1883)
  ]

  /** The decimal digits of `n`, as `int.ToString()` writes them. */
  function Decimal(n: nat): (r: string)
    ensures |r| > 0 && forall k :: 0 <= k < |r| ==> '0' <= r[k] <= '9'
  {
    var d := ['0' + (n % 10) as char];
    if n < 10 then d else Decimal(n / 10) + d
  }

  /** The number a string of decimal digits spells. */
  function DigitsValue(r: string): int
  {
    if |r| == 0 then 0 else DigitsValue(r[..|r| - 1]) * 10 + (r[|r| - 1] as int - '0' as int)
  }

  /** `Decimal` spells `n`, without leading zeros. */
  lemma {:induction false} DecimalValue(n: nat)
    ensures DigitsValue(Decimal(n)) == n
    ensures |Decimal(n)| > 1 ==> Decimal(n)[0] != '0'
    ensures n >= 10 ==> |Decimal(n)| > 1
  {
    var d := ['0' + (n % 10) as char];
    if n >= 10 {
      var h := Decimal(n / 10);
      DecimalValue(n / 10);
      assert Decimal(n) == h + d;
      assert (h + d)[..|h + d| - 1] == h;
      assert Decimal(n)[0] == h[0];
    }
  }

  /** The port of every broker in the list is written `1883`. */
  lemma PortText()
    ensures Decimal(1883) == "1883"
  {
  }

  /** `$"{Host}:{Port}"`, the text the server shows and stamps on new rows. */
  function Label(b: Broker): string
  {
    b.host + ":" + Decimal(b.port)
  }

  const PrimaryAttempts: nat := 3
  const BackupAttempts: nat := 1
  /** The attempts SwitchToPrimaryBroker gives the primary. */
  const SwitchAttempts: nat := 2
  /** `PrimaryCheckInterval`, one minute. */
  const PrimaryCheckInterval: int := 60_000

  predicate Succeeds(outcomes: seq<bool>, k: nat)
  {
    k < |outcomes| && outcomes[k]
  }

  /** The first succeeding attempt in `[lo, hi)`, or `hi` if there is none. */
  function FirstSuccess(outcomes: seq<bool>, lo: nat, hi: nat): (k: nat)
    requires lo <= hi
    ensures lo <= k <= hi
    ensures forall j :: lo <= j < k ==> !Succeeds(outcomes, j)
    ensures k < hi ==> Succeeds(outcomes, k)
    decreases hi - lo
  {
    if lo == hi || Succeeds(outcomes, lo) then lo else FirstSuccess(outcomes, lo + 1, hi)
  }

  /** Splitting the range at `mid`: the first success of the whole range is
      the first in `[lo, mid)` if there is one, else the first in `[mid, hi)`. */
  lemma {:induction false} FirstSuccessSplit(outcomes: seq<bool>, lo: nat, mid: nat, hi: nat)
    requires lo <= mid <= hi
    ensures FirstSuccess(outcomes, lo, hi) ==
      if FirstSuccess(outcomes, lo, mid) < mid then FirstSuccess(outcomes, lo, mid) else FirstSuccess(outcomes, mid, hi)
    decreases mid - lo
  {
    if lo < mid && !Succeeds(outcomes, lo) {
      FirstSuccessSplit(outcomes, lo + 1, mid, hi);
    }
  }

  /** The broker each attempt of one failover targets, in order: the primary
      `PrimaryAttempts` times, then every backup `BackupAttempts` (once). */
  function Schedule(): (s: seq<nat>)
    ensures |s| == PrimaryAttempts + |Brokers| - 1
    ensures forall j :: 0 <= j < |s| ==> s[j] < |Brokers|
    ensures forall j :: 0 <= j < |s| ==> (s[j] == 0 <==> j < PrimaryAttempts)
    ensures forall j :: PrimaryAttempts <= j < |s| ==> s[j] == j - PrimaryAttempts + 1
  {
    seq(PrimaryAttempts, _ => 0) + seq(|Brokers| - 1, i => i + 1)
  }

  /** The schedule written out: three primary attempts, then backups 1 and 2. */
  lemma ScheduleIs()
    ensures Schedule() == [0, 0, 0, 1, 2]
  {
  }

  /** What one failover does: the brokers it tries, attempt by attempt, and
      the one it ends connected to. */
  datatype Plan = Plan(tried: seq<nat>, winner: Option<nat>)

  function FailoverPlan(outcomes: seq<bool>): Plan
  {
    var s := Schedule();
    var k := FirstSuccess(outcomes, 0, |s|);
    if k < |s| then Plan(s[..k + 1], Some(s[k])) else Plan(s, None)
  }

  /** The plan when one of the primary's attempts succeeds: only primary
      attempts, up to that one; when none does, the schedule so far is the
      primary's three attempts. */
  lemma PrimaryPhase(outcomes: seq<bool>)
    ensures var k := FirstSuccess(outcomes, 0, PrimaryAttempts);
      k < PrimaryAttempts ==> FailoverPlan(outcomes) == Plan(seq(k + 1, _ => 0), Some(0))
    ensures Schedule()[..PrimaryAttempts] == seq(PrimaryAttempts, _ => 0)
  {
    ScheduleIs();
    FirstSuccessSplit(outcomes, 0, PrimaryAttempts, |Schedule()|);
  }

  /** After `next` failed attempts the plan hangs on attempt `next`: a
      success there ends it on that attempt's broker, a failure makes the
      run of failures one longer. */
  lemma PlanStep(outcomes: seq<bool>, next: nat)
    requires next < |Schedule()| && FirstSuccess(outcomes, 0, next) == next
    ensures Schedule()[..next + 1] == Schedule()[..next] + [Schedule()[next]]
    ensures Succeeds(outcomes, next) ==>
      FailoverPlan(outcomes) == Plan(Schedule()[..next + 1], Some(Schedule()[next]))
    ensures !Succeeds(outcomes, next) ==> FirstSuccess(outcomes, 0, next + 1) == next + 1
  {
    FirstSuccessSplit(outcomes, 0, next, |Schedule()|);
    FirstSuccessSplit(outcomes, 0, next, next + 1);
  }

  /** The primary is tried first, `PrimaryAttempts` times in a row, and a
      backup only once all of those failed. */
  lemma {:induction false} PrimaryTriedFirst(outcomes: seq<bool>)
    ensures var p := FailoverPlan(outcomes);
      forall j :: 0 <= j < |p.tried| ==> (p.tried[j] == 0 <==> j < PrimaryAttempts)
    ensures var p := FailoverPlan(outcomes);
      (exists j :: 0 <= j < |p.tried| && p.tried[j] != 0) ==>
        forall j :: 0 <= j < PrimaryAttempts ==> !Succeeds(outcomes, j)
  {
    var s, p := Schedule(), FailoverPlan(outcomes);
    var k := FirstSuccess(outcomes, 0, |s|);
    assert forall j :: 0 <= j < |p.tried| ==> p.tried[j] == s[j];
    if exists j :: 0 <= j < |p.tried| && p.tried[j] != 0 {
      var j :| 0 <= j < |p.tried| && p.tried[j] != 0;
      assert j >= PrimaryAttempts;
      assert j <= k;
    }
  }

  /** The backups are tried in list order, each once. */
  lemma BackupsInOrder(outcomes: seq<bool>)
    ensures var p := FailoverPlan(outcomes);
      forall j :: PrimaryAttempts <= j < |p.tried| ==> p.tried[j] == j - PrimaryAttempts + 1
  {
  }

  /** The failover ends on the broker of the first successful attempt, every
      attempt before it having failed; it ends on none only when all failed. */
  lemma WinnerIsFirstSuccess(outcomes: seq<bool>)
    ensures var p := FailoverPlan(outcomes);
      |p.tried| >= 1 &&
      (p.winner.Some? ==> p.winner.value == p.tried[|p.tried| - 1] && Succeeds(outcomes, |p.tried| - 1))
    ensures var p := FailoverPlan(outcomes);
      forall j :: 0 <= j < |p.tried| - 1 ==> !Succeeds(outcomes, j)
    ensures var p := FailoverPlan(outcomes);
      p.winner.None? <==> forall j :: 0 <= j < |Schedule()| ==> !Succeeds(outcomes, j)
  {
  }

  /** Brokers [down, up, up]: three failures on the primary, then success on
      the first backup at its first attempt. */
  lemma DownUpUp()
    ensures FailoverPlan([false, false, false, true, true]) == Plan([0, 0, 0, 1], Some(1))
  {
    var o := [false, false, false, true, true];
    assert FirstSuccess(o, 3, 5) == 3;
    assert FirstSuccess(o, 0, 5) == 3;
    assert Schedule() == [0, 0, 0, 1, 2];
    assert Schedule()[..4] == [0, 0, 0, 1];
  }

  /** All brokers down: five attempts, no winner. */
  lemma AllDown()
    ensures FailoverPlan([]) == Plan([0, 0, 0, 1, 2], None)
  {
    assert FirstSuccess([], 0, 5) == 5;
    assert Schedule() == [0, 0, 0, 1, 2];
  }

  /** Whether PrimaryBrokerCheckLoop probes the primary now: only while on a
      backup, and at least a minute after the last check (never checked
      counts as long ago, like `DateTime.MinValue`). */
  predicate ProbeDue(brokerIndex: nat, lastCheck: Option<int>, now: int)
  {
    brokerIndex != 0 && (lastCheck.None? || now - lastCheck.value >= PrimaryCheckInterval)
  }

  /** No probe while on the primary, and no two probes within a minute. */
  lemma ProbeRateLimited(brokerIndex: nat, last: int, now: int)
    ensures !ProbeDue(0, Some(last), now)
    ensures now - last < PrimaryCheckInterval ==> !ProbeDue(brokerIndex, Some(last), now)
    ensures brokerIndex != 0 && now - last >= PrimaryCheckInterval ==> ProbeDue(brokerIndex, Some(last), now)
  {
  }
}
