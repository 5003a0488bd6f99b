/** The server's bookkeeping of its peers: the list-view rows with their
    "last seen" counter and tier, the per-peer command gate, the command
    filter, and how an inbound topic and an inbound data frame are
    classified. Everything here is a value; the `Server` class applies it. */
module Registry {
  import opened Wrappers
  import opened Text
  import opened Frame

  // ---- rows and tiers ----

  datatype Tier = Active | Idle | Offline

  /** The tier a row shows after `elapsed` one-second ticks without news:
      Offline above 60, Idle above 30, Active otherwise. */
  function TierOf(elapsed: int): Tier
  {
    if elapsed > 60 then Offline else if elapsed > 30 then Idle else Active
  }

  /** Tiers only get worse as the counter grows. */
  function Rank(t: Tier): nat
  {
    match t
    case Active => 0
    case Idle => 1
    case Offline => 2
  }

  /** The thresholds: 30 is still Active, 31 Idle, 60 still Idle, 61 Offline,
      and the tier never improves as time passes. */
  lemma TierThresholds(a: int, b: int)
    ensures TierOf(30) == Active && TierOf(31) == Idle
    ensures TierOf(60) == Idle && TierOf(61) == Offline
    ensures a <= b ==> Rank(TierOf(a)) <= Rank(TierOf(b))
  {
  }

  /** One list-view row: uuid, ip, user name, OS, the broker the server was on
      when the row was created, seconds since last news, and the tier. */
  datatype Row = Row(uuid: string, ip: string, username: string, os: string,
                     broker: string, elapsed: int, status: Tier)

  /** Every row shows the tier of its own counter. */
  predicate Consistent(rows: seq<Row>)
  {
    forall i :: 0 <= i < |rows| ==> rows[i].status == TierOf(rows[i].elapsed)
  }

  /** At most one row per uuid. */
  predicate UniqueUuids(rows: seq<Row>)
  {
    forall i, j :: 0 <= i < j < |rows| ==> rows[i].uuid != rows[j].uuid
  }

  /** One tick of UpdateTimer_Tick on one row. */
  function TickedRow(r: Row): Row
  {
    r.(elapsed := r.elapsed + 1, status := TierOf(r.elapsed + 1))
  }

  /** One tick on every row. */
  function Ticked(rows: seq<Row>): (t: seq<Row>)
  {
    seq(|rows|, i requires 0 <= i < |rows| => TickedRow(rows[i]))
  }

  /** `n` ticks in a row. */
  function TickedTimes(rows: seq<Row>, n: nat): seq<Row>
  {
    if n == 0 then rows else Ticked(TickedTimes(rows, n - 1))
  }

  /** A tick keeps the uuids and the other columns, counts one more second on
      every row and leaves each row on the tier of its new counter. */
  lemma TickFacts(rows: seq<Row>)
    ensures |Ticked(rows)| == |rows|
    ensures forall i :: 0 <= i < |rows| ==>
      var r, r' := rows[i], Ticked(rows)[i];
      r'.uuid == r.uuid && r'.ip == r.ip && r'.username == r.username && r'.os == r.os &&
      r'.broker == r.broker && r'.elapsed == r.elapsed + 1
    ensures Consistent(Ticked(rows))
    ensures UniqueUuids(rows) ==> UniqueUuids(Ticked(rows))
  {
  }

  /** A row reset to 0 turns Idle on the 31st silent tick and Offline on the
      61st: after `n` ticks it is on tier `TierOf(n)`. */
  lemma {:induction false} SilentRowAges(rows: seq<Row>, n: nat)
    requires forall i :: 0 <= i < |rows| ==> rows[i].elapsed == 0
    ensures |TickedTimes(rows, n)| == |rows|
    ensures forall i :: 0 <= i < |rows| ==>
      TickedTimes(rows, n)[i].elapsed == n && TickedTimes(rows, n)[i].status == (if n == 0 then rows[i].status else TierOf(n))
    ensures forall i :: 0 <= i < |rows| ==> TickedTimes(rows, n)[i].uuid == rows[i].uuid
  {
    if n > 0 {
      SilentRowAges(rows, n - 1);
    }
  }

  /** The first row with this uuid, as the `foreach … break` finds it. */
  function FindRow(rows: seq<Row>, uuid: string): (r: Option<nat>)
    ensures r.None? <==> forall i :: 0 <= i < |rows| ==> rows[i].uuid != uuid
    ensures r.Some? ==> (r.value < |rows| && rows[r.value].uuid == uuid &&
                         forall i :: 0 <= i < r.value ==> rows[i].uuid != uuid)
  {
    if |rows| == 0 then None
    else if rows[0].uuid == uuid then Some(0)
    else match FindRow(rows[1..], uuid)
      case None => None
      case Some(k) => Some(k + 1)
  }

  /** A row with fresh news: counter 0, Active. */
  function Refreshed(r: Row): Row
  {
    r.(elapsed := 0, status := Active)
  }

  /** An optional column value: `null` keeps what the row had. */
  function OrElse(v: Option<string>, keep: string): string
  {
    if v.Some? then v.value else keep
  }

  /** AddOrUpdateClient: the first row with this uuid gets the non-null
      columns and is refreshed; with no such row a new Active row is
      appended, stamped with the current broker. */
  function Upserted(rows: seq<Row>, uuid: string, ip: Option<string>, username: Option<string>,
                    os: Option<string>, broker: string): seq<Row>
  {
    match FindRow(rows, uuid)
    case Some(k) =>
      rows[k := Refreshed(rows[k].(ip := OrElse(ip, rows[k].ip),
                                   username := OrElse(username, rows[k].username),
                                   os := OrElse(os, rows[k].os)))]
    case None =>
      rows + [Row(uuid, OrElse(ip, ""), OrElse(username, ""), OrElse(os, ""), broker, 0, Active)]
  }

  /** AddOrUpdateClient keeps one row per uuid and every row on its tier;
      afterwards the peer's row exists, is at 0 / Active and holds each given
      column (the old value where none was given); every other row is as it
      was. */
  lemma UpsertFacts(rows: seq<Row>, uuid: string, ip: Option<string>, username: Option<string>,
                    os: Option<string>, broker: string)
    requires UniqueUuids(rows) && Consistent(rows)
    ensures var rows' := Upserted(rows, uuid, ip, username, os, broker);
      UniqueUuids(rows') && Consistent(rows') && FindRow(rows', uuid).Some?
    ensures var rows', k := Upserted(rows, uuid, ip, username, os, broker), FindRow(Upserted(rows, uuid, ip, username, os, broker), uuid);
      k.Some? && rows'[k.value].elapsed == 0 && rows'[k.value].status == Active &&
      (ip.Some? ==> rows'[k.value].ip == ip.value) &&
      (username.Some? ==> rows'[k.value].username == username.value) &&
      (os.Some? ==> rows'[k.value].os == os.value)
    ensures var rows' := Upserted(rows, uuid, ip, username, os, broker);
      forall i :: 0 <= i < |rows| && rows[i].uuid != uuid ==> rows'[i] == rows[i]
    ensures var rows' := Upserted(rows, uuid, ip, username, os, broker);
      |rows'| == |rows| + (if FindRow(rows, uuid).Some? then 0 else 1)
  {
    var rows' := Upserted(rows, uuid, ip, username, os, broker);
    match FindRow(rows, uuid)
    case Some(k) =>
      assert rows'[k].uuid == uuid;
      assert forall i :: 0 <= i < |rows'| ==> rows'[i].uuid == rows[i].uuid;
      assert FindRow(rows', uuid) == Some(k);
    case None =>
      assert rows'[|rows|].uuid == uuid;
      assert FindRow(rows', uuid) == Some(|rows|);
  }

  /** ResetClientTimer: the first row with this uuid is refreshed; an unknown
      uuid changes nothing. */
  function TimerReset(rows: seq<Row>, uuid: string): seq<Row>
  {
    match FindRow(rows, uuid)
    case Some(k) => rows[k := Refreshed(rows[k])]
    case None => rows
  }

  /** The reset keeps uniqueness and tiers, refreshes only the peer's row and
      leaves the row list alone for an unknown peer. */
  lemma TimerResetFacts(rows: seq<Row>, uuid: string)
    requires UniqueUuids(rows) && Consistent(rows)
    ensures var rows' := TimerReset(rows, uuid);
      |rows'| == |rows| && UniqueUuids(rows') && Consistent(rows')
    ensures var rows' := TimerReset(rows, uuid);
      forall i :: 0 <= i < |rows| ==>
        rows'[i] == (if rows[i].uuid == uuid then Refreshed(rows[i]) else rows[i])
  {
  }

  // ---- the command filter and the per-peer gate ----

  /** The commands the server agrees to send. */
  const ValidCommands: seq<string> :=
    ["shell", "screenshot", "dir", "whoami", "download", "upload", "tasklist", "systeminfo"]

  /** IsValidCommand: the first space-delimited token, lower-cased, is one of
      the valid commands. */
  predicate IsValidCommand(message: string)
  {
    ToLower(Split(message, ' ')[0]) in ValidCommands
  }

  /** The first field of `t` is the space-free `c` exactly when `t` is `c` or
      starts with `c` and a space. */
  lemma FirstFieldIs(t: string, c: string)
    requires ' ' !in c
    ensures FirstField(t, ' ') == c <==> (t == c || StartsWith(t, c + " "))
  {
    var r := FirstField(t, ' ');
    if StartsWith(t, c + " ") {
      assert t[|c|] == ' ';
      assert |r| == |c|;
      assert r == t[..|r|] == t[..|c|] == c;
    }
    if r == c && t != c {
      assert ' ' in t;
      assert t[..|c| + 1] == c + " ";
    }
  }

  /** Lower-casing commutes with taking the first space-delimited field. */
  lemma LowerFirstField(m: string)
    ensures ToLower(FirstField(m, ' ')) == FirstField(ToLower(m), ' ')
  {
    var r := FirstField(m, ' ');
    var L := ToLower(m);
    assert ' ' !in ToLower(r) by {
      forall k | 0 <= k < |r| ensures ToLower(r)[k] != ' ' {
        assert r[k] != ' ';
      }
    }
    if ' ' in m {
      assert L[..|r| + 1] == ToLower(r) + " " by {
        forall k | 0 <= k < |r| + 1 ensures L[..|r| + 1][k] == (ToLower(r) + " ")[k] {
          if k < |r| { assert m[k] == r[k]; }
        }
      }
    } else {
      assert ToLower(r) == L;
    }
    FirstFieldIs(L, ToLower(r));
  }

  /** An independent reading of IsValidCommand: lower-cased, the message is a
      valid command on its own or a valid command followed by a space. */
  lemma ValidCommandShape(message: string)
    ensures IsValidCommand(message) <==>
      exists c :: c in ValidCommands && (ToLower(message) == c || StartsWith(ToLower(message), c + " "))
  {
    LowerFirstField(message);
    assert Split(message, ' ')[0] == FirstField(message, ' ');
    forall c | c in ValidCommands
      ensures FirstField(ToLower(message), ' ') == c <==> (ToLower(message) == c || StartsWith(ToLower(message), c + " "))
    {
      FirstFieldIs(ToLower(message), c);
    }
  }

  /** `_clientStates[clientId]`: whether a command is out, which one, and
      when it was sent. */
  datatype PeerState = PeerState(isExecutingCommand: bool, currentCommand: Option<string>, commandStartTime: int)

  /** What SendMessageToClient does with the text typed for a peer. */
  datatype Dispatch = Blank | Busy | Help | Rejected | Send(command: string)

  predicate Executing(states: map<string, PeerState>, clientId: string)
  {
    clientId in states && states[clientId].isExecutingCommand
  }

  /** The decision of SendMessageToClient, in the source's order: blank text,
      a peer still executing, a help request, an unknown command, or send. */
  function DispatchOf(states: map<string, PeerState>, clientId: string, text: string): Dispatch
  {
    var message := Trim(text);
    if |message| == 0 then Blank
    else if Executing(states, clientId) then Busy
    else if EqualsIgnoreCase(message, "help") || StartsWith(ToLower(message), "help ") then Help
    else if !IsValidCommand(message) then Rejected
    else Send(message)
  }

  /** No valid command is a help request: none of them is "help" or starts
      with an `h`. */
  lemma ValidIsNotHelp(m: string)
    requires IsValidCommand(m)
    ensures |m| > 0
    ensures !EqualsIgnoreCase(m, "help") && !StartsWith(ToLower(m), "help ")
  {
    ValidCommandShape(m);
    var t := ToLower(m);
    var c :| c in ValidCommands && (t == c || StartsWith(t, c + " "));
    CommandInitial(c);
    assert t[0] == c[0];
    assert ToLower("help")[0] == ToLowerChar('h') == 'h';
  }

  lemma CommandInitial(c: string)
    requires c in ValidCommands
    ensures |c| > 0 && c[0] != 'h'
  {
  }

  /** A command goes out exactly when the trimmed text is a valid command and
      the peer is not executing one; what goes out is the trimmed text. */
  lemma DispatchGate(states: map<string, PeerState>, clientId: string, text: string)
    ensures DispatchOf(states, clientId, text).Send? <==>
      !Executing(states, clientId) && IsValidCommand(Trim(text))
    ensures DispatchOf(states, clientId, text).Send? ==> DispatchOf(states, clientId, text).command == Trim(text)
  {
    if IsValidCommand(Trim(text)) {
      ValidIsNotHelp(Trim(text));
    }
  }

  /** The state SendMessageToClient leaves for the peer it sent to. */
  function Started(states: map<string, PeerState>, clientId: string, command: string, now: int): map<string, PeerState>
  {
    states[clientId := PeerState(true, Some(command), now)]
  }

  /** What AddClientMessage does to the gate for a message from the peer: the
      flag and the current command are cleared; a peer without state is left
      without. */
  function Received(states: map<string, PeerState>, clientId: string): map<string, PeerState>
  {
    if clientId in states
    then states[clientId := states[clientId].(isExecutingCommand := false, currentCommand := None)]
    else states
  }

  /** Single flight per peer: once a command is out, nothing more is sent to
      that peer until a result comes back, and then the gate is open again;
      other peers are not affected either way. */
  lemma GateSingleFlight(states: map<string, PeerState>, clientId: string, other: string,
                         command: string, now: int, text: string)
    requires other != clientId
    ensures !DispatchOf(Started(states, clientId, command, now), clientId, text).Send?
    ensures !Executing(Received(Started(states, clientId, command, now), clientId), clientId)
    ensures Executing(Started(states, clientId, command, now), other) == Executing(states, other)
    ensures Executing(Received(states, clientId), other) == Executing(states, other)
  {
  }

  // ---- inbound routing and classification ----

  /** Where an inbound topic is routed: depth 3 is a data frame from peer
      `parts[2]`, depth 4 ending in `ack` an acknowledgement from it, anything
      else (shorter in particular) is ignored. */
  datatype Route = DataFrom(peer: string) | AckFrom(peer: string) | Ignored

  function RouteOf(topic: string): Route
  {
    var parts := Split(topic, '/');
    if |parts| < 3 then Ignored
    else if |parts| == 3 then DataFrom(parts[2])
    else if |parts| == 4 && parts[3] == "ack" then AckFrom(parts[2])
    else Ignored
  }

  /** The client's two upstream topics route back to that client. */
  lemma RouteOfClientTopics(peer: string)
    requires '/' !in peer
    ensures RouteOf(C2S(peer)) == DataFrom(peer)
    ensures RouteOf(AckTopic(C2S(peer))) == AckFrom(peer)
  {
    TopicLevels(peer);
  }

  /** Topics of fewer than three levels are ignored. */
  lemma ShortTopicIgnored(topic: string)
    requires |Split(topic, '/')| < 3
    ensures RouteOf(topic) == Ignored
  {
  }

  /** What the body of an inbound data frame is taken for. */
  datatype Inbound =
    | Handshake(uuid: string, ip: string, username: string, os: string)
    | MalformedHandshake
    | Heartbeat
    | Screenshot(filename: string, content: string)
    | FileResult(filename: string, content: string)
    | MalformedBinary
    | TextResult(text: string)

  const ScreenshotTag: string := "SCREENSHOT:"
  const FileTag: string := "FILE:"

  /** The classification of OnMessageReceived, in the source's order: any `#`
      makes a handshake (used only with at least four fields), then an exact
      `PING`, then the `SCREENSHOT:` and `FILE:` results (used only when split
      in three at `:`), then plain text. */
  function Classify(data: string): Inbound
  {
    if '#' in data then
      var f := Split(data, '#');
      if |f| >= 4 then Handshake(f[0], f[1], f[2], f[3]) else MalformedHandshake
    else if data == Ping then Heartbeat
    else if StartsWith(data, ScreenshotTag) then
      match SplitFirst(data[|ScreenshotTag|..], ':')
      case Some(p) => Screenshot(p.0, p.1)
      case None => MalformedBinary
    else if StartsWith(data, FileTag) then
      match SplitFirst(data[|FileTag|..], ':')
      case Some(p) => FileResult(p.0, p.1)
      case None => MalformedBinary
    else TextResult(data)
  }

  /** The classes that reach AddClientMessage and so clear the peer's gate. */
  predicate ClearsGate(i: Inbound)
  {
    i.Screenshot? || i.FileResult? || i.TextResult?
  }

  /** The client's handshake `{uuid}#{ip}#{user}#{os}` is read back field by
      field whenever no field holds a `#`. */
  lemma {:induction false} HandshakeRoundTrip(uuid: string, ip: string, username: string, os: string)
    requires '#' !in uuid && '#' !in ip && '#' !in username && '#' !in os
    ensures Classify(uuid + "#" + ip + "#" + username + "#" + os) == Handshake(uuid, ip, username, os)
  {
    var parts := [uuid, ip, username, os];
    assert Join(parts, '#') == uuid + "#" + ip + "#" + username + "#" + os by {
      assert parts[1..] == [ip, username, os];
      assert [ip, username, os][1..] == [username, os];
      assert [username, os][1..] == [os];
      assert Join([username, os], '#') == username + "#" + os;
      assert Join([ip, username, os], '#') == ip + "#" + (username + "#" + os);
    }
    SplitOfJoin(parts, '#');
    assert '#' in uuid + "#" + ip + "#" + username + "#" + os by {
      assert (uuid + "#" + ip + "#" + username + "#" + os)[|uuid|] == '#';
    }
  }

  /** An exact `PING` is a heartbeat and nothing else is; text without `#` or
      either tag is a result that clears the gate; text with a `#` never does,
      even when it was meant as a command result. */
  lemma ClassifyCases(data: string)
    ensures Classify(data) == Heartbeat <==> data == Ping
    ensures '#' !in data && data != Ping && !StartsWith(data, ScreenshotTag) && !StartsWith(data, FileTag)
      ==> Classify(data) == TextResult(data)
    ensures '#' in data ==> !ClearsGate(Classify(data))
  {
  }

  /** A screenshot result `SCREENSHOT:{name}:{content}` is recognised with
      its name and content when the name holds no `:` and neither holds a `#`. */
  lemma ScreenshotRecognised(name: string, content: string)
    requires ':' !in name && '#' !in name && '#' !in content
    ensures Classify(ScreenshotTag + name + ":" + content) == Screenshot(name, content)
  {
    var data := ScreenshotTag + name + ":" + content;
    TaggedBody(ScreenshotTag, name, content);
    assert data[0] != Ping[0];
  }

  /** A file result `FILE:{name}:{content}` likewise. */
  lemma FileRecognised(name: string, content: string)
    requires ':' !in name && '#' !in name && '#' !in content
    ensures Classify(FileTag + name + ":" + content) == FileResult(name, content)
  {
    var data := FileTag + name + ":" + content;
    TaggedBody(FileTag, name, content);
    assert data[0] != Ping[0];
    assert data[0] != ScreenshotTag[0];
  }

  lemma TaggedBody(tag: string, name: string, content: string)
    requires tag == ScreenshotTag || tag == FileTag
    requires ':' !in name && '#' !in name && '#' !in content
    ensures var data := tag + name + ":" + content;
      '#' !in data && StartsWith(data, tag) && SplitFirst(data[|tag|..], ':') == Some((name, content))
  {
    var data := tag + name + ":" + content;
    assert data[..|tag|] == tag;
    assert data[|tag|..] == name + [':'] + content;
    SplitFirstOfJoin(name, ':', content);
    assert '#' !in tag;
  }

  /** A result holding a single `#` (a shell listing, say) is taken for a
      handshake with too few fields: it is dropped and the gate stays shut. */
  lemma OneHashSwallowed(before: string, after: string)
    requires '#' !in before && '#' !in after
    ensures Classify(before + "#" + after) == MalformedHandshake
  {
    assert Join([before, after], '#') == before + "#" + after by {
      assert [before, after][1..] == [after];
    }
    SplitOfJoin([before, after], '#');
    assert (before + "#" + after)[|before|] == '#';
  }
}
