# BeeHive messaging layer, modelled in Dafny

BeeHive is a remote-administration pair: a WinForms server (`Form1`) and a
console client (`Program`) that talk through a public MQTT broker. On top of
the broker both sides run the same hand-written messaging layer, and that
layer is what this project models and proves things about:

- **Framing.** Every payload is `{messageId}|{body}`, UTF-8 encoded and then
  base64 encoded. Decoding falls back to the input text when it is not base64.
  Topics are `demo/c2s/{id}`, `demo/s2c/{id}`, and each with `/ack` appended.
- **Pending-message table.** Each side keeps a table for at-least-once
  delivery:
  - a send files an entry;
  - an echoed acknowledgement removes it;
  - a periodic sweep retransmits each overdue entry as the same frame, or
    drops it past a retry ceiling (3 on the server, 2 on the client);
  - after moving back to the primary broker, the server resends everything.
- **Broker failover.**
  - The primary gets three attempts, then each backup one, in list order.
  - While on a backup, the primary is probed at most once a minute.
  - When the probe succeeds, the program switches back with two attempts.
- **Client heartbeat gate.**
  - Pings go out every ten seconds.
  - The first echoed ping after a reset opens the gate and sends the client's
    identity `{uuid}#{ip}#{user}#{os}` once.
  - A disconnect, a new connection or thirty seconds without an echo resets
    the gate.
- **Client command queue.** Commands are queued in arrival order and run one
  at a time. After each, the result goes upstream and the command's frame is
  echoed as its acknowledgement.
- **Server peer registry.**
  - Inbound frames are routed by topic depth.
  - They are classified in order: handshake (`#`), `PING`, `SCREENSHOT:`,
    `FILE:`, text.
  - Each listed peer counts seconds of silence, shown as Active, Idle (over
    30 s) or Offline (over 60 s).
  - A per-peer gate lets one valid command out at a time.

Time is an integer number of milliseconds passed in as `now`.
`DateTime.MinValue` ("never") is `None`.

The outcome of every connection attempt comes from an oracle, `outcomes: seq<bool>`. Entry `k` is the result of the `k`-th attempt of one call, and attempts past its end fail.

Outbound traffic is the append-only log `Link.outbox`. A publish reaches it exactly when the link is connected, because `PublishAsync` throws otherwise and every caller swallows the exception.

Fresh GUID-derived ids are parameters:
- `IsMessageId` means eight lower-case hex digits.
- `IsHeartbeatId` means `HB` followed by six such digits.

Each background loop is one step method called with the current time.

| file | module | models |
|---|---|---|
| Wrappers.dfy | Wrappers | `Option`, `byte` |
| Base64.dfy | Base64 | `Convert.ToBase64String` / `FromBase64String` (RFC 4648, section 4) |
| Utf8.dfy | Utf8 | `Encoding.UTF8.GetBytes` / `GetString` (RFC 3629) |
| Text.dfy | Text | `Split`, `Split(…, 2)`, `Trim`, `ToLower`, `StartsWith` |
| Frame.dfy | Frame | base64 framing, both sides' frame split, message ids, topics |
| Reliable.dfy | Reliable | the envelope and the sweep, ack and resend as functions on the table |
| Election.dfy | Election | the broker list, the failover schedule, the probe rate limit |
| Registry.dfy | Registry | peer rows and tiers, routing, classification, the command gate |
| Channel.dfy | Channel | the link (`Link`) and the pending table (`PendingTable`) as classes |
| Failover.dfy | Failover | the connection manager (`Connector`) both programs share |
| ServerForm.dfy | ServerForm | the server (`Server`) |
| ClientProgram.dfy | ClientProgram | the client (`Client`) |
| Protocol.dfy | Protocol | how each side reads the other's frames |

## Model

| member | source | states |
|---|---|---|
| Base64.Encode | Server/Form1.cs:683-695 | the encoding is padded: four characters per started group of three bytes |
| Base64.EncodeAlphabet | Server/Form1.cs:683-695 | the encoding uses only the 64 alphabet characters and `=` |
| Base64.CharToIndex | Server/Form1.cs:697-709 | the character decoding inverts the alphabet: `IndexToChar(CharToIndex(c)) == c` |
| Base64.StripSkipped | Server/Form1.cs:697-709 | decoding skips spaces, tabs, CR and LF, and skips nothing else |
| Base64.StripSkippedAppend | Server/Form1.cs:697-709 | skipping works character by character: a skipped character vanishes, any other is kept, and the pieces of a text keep their order |
| Base64.GroupsRoundTrip | Server/Form1.cs:683-709 | the group decoder returns exactly the bytes encoded, for every byte sequence |
| Base64.RoundTrip | Server/Form1.cs:683-709 | `FromBase64String(ToBase64String(b)) == b` |
| Base64.BadLengthFails | Server/Form1.cs:697-709 | a text whose significant length is not a multiple of four is rejected |
| Utf8.DecodeFirstOfEncoding | Server/Form1.cs:683-709 | decoding the first character of an encoding gives that character, using exactly its bytes |
| Utf8.RoundTrip | Server/Form1.cs:683-709 | `GetString(GetBytes(s)) == s` for every string of scalar values |
| Utf8.StrayContinuation | Server/Form1.cs:697-709 | a lone continuation byte decodes to one U+FFFD and decoding goes on |
| Text.SplitFirst | Server/Form1.cs:547-549 | `Split(new[]{c}, 2)`: no separator gives none; otherwise the head has no separator and head + separator + tail is the input |
| Text.SplitFirstOfJoin | Server/Form1.cs:547-549 | splitting `a + c + b` with `c` not in `a` gives back `(a, b)` |
| Text.FirstField | Server/Form1.cs:664-665 | `parts[0]` of a split: it holds no separator; it is the whole text when there is none, otherwise a proper prefix ending just before the first one |
| Text.Split | Server/Form1.cs:984 | `Split(c)`: at least one part, no part holds `c`, and joining the parts with `c` gives the input |
| Text.SplitOfJoin | Server/Form1.cs:562-563 | splitting a join of `c`-free parts gives the parts back |
| Text.Trim | Server/Form1.cs:904 | `Trim()`: the result is no longer than the input, starts and ends with a non-white-space character, and is empty only when every input character is white space |
| Text.TrimSlice | Server/Form1.cs:904 | `Trim()` is a slice of the input with only white space before and after it; with Text.Trim this fixes it as the input minus its white-space ends |
| Text.ToLower | Server/Form1.cs:984 | `ToLower()` keeps the length and lowers each ASCII letter in place |
| Frame.RoundTrip | Server/Form1.cs:683-709 | `DecodeFromBase64(EncodeToBase64(s)) == s` |
| Frame.InvalidDecodesToItself | Server/Form1.cs:697-709 | text that is not base64 decodes to itself, without failing |
| Frame.GarbageDecodesToItself | Client/Program.cs:1002-1013 | two concrete non-base64 texts come back unchanged |
| Frame.ParseServerFrame | Server/Form1.cs:544-555 | with no `\|` the id is null and the data is the whole text; otherwise id, `\|` and data rebuild the text and the id holds no `\|` |
| Frame.ParseClientFrame | Client/Program.cs:571-574 | with no `\|` both the id and the command are the whole text; otherwise id, `\|` and command rebuild it |
| Frame.ParseClientAck | Client/Program.cs:590-594 | with no `\|` the ack data is empty; otherwise id, `\|` and data rebuild the text |
| Frame.DecodeFramed | Server/Form1.cs:1479-1485 | a frame decodes to `{id}\|{body}` and splits back into `(id, body)` |
| Frame.ServerFrameRoundTrip | Server/Form1.cs:544-555 | the server reads back the id and the body of every frame whose id has no `\|` |
| Frame.ClientFrameRoundTrip | Client/Program.cs:571-574 | the client reads back the id and the whole command, `\|` characters included |
| Frame.AckedIdOfFrame | Server/Form1.cs:662-668 | echoing a frame back as its acknowledgement names exactly that frame's id |
| Frame.SidesDisagreeWithoutSeparator | Client/Program.cs:571-574 | on text without `\|`, the server sees no id while the client takes the whole text for the id; both take the whole text as the body |
| Frame.HeartbeatEchoRecognised | Client/Program.cs:594-597 | the echo of a heartbeat ping passes the client's heartbeat-ack test |
| Frame.DataEchoNotHeartbeat | Client/Program.cs:594-597 | the echo of a frame with a hex id never passes the heartbeat-ack test, whatever its body |
| Frame.TopicLevels | Client/Program.cs:45-48 | the four topics of a peer without `/` split into `demo`, the direction, the peer and, for acks, `ack` |
| Reliable.SweepKeys | Server/Form1.cs:402-415 | a sweep removes exactly the dropped entries and adds none |
| Reliable.SweepLeavesOthers | Server/Form1.cs:402-405 | an entry that is not overdue stays in the table exactly as it was |
| Reliable.SweepRetries | Server/Form1.cs:407-431 | an overdue entry under the ceiling stays with its retry count one higher; it goes out again as the very same frame (same id, topic and body), and `SentTime` is refreshed only if that publish went out |
| Reliable.SweepDrops | Server/Form1.cs:409-415 | an overdue entry whose count passes the ceiling is removed |
| Reliable.SweepNeverRevives | Server/Form1.cs:402-436 | a sweep never brings back an entry that is not in the table |
| Reliable.SweepKeepsInvariant | Server/Form1.cs:402-436 | the table invariant survives a sweep: each entry filed under its own id, un-acknowledged, with its count at most the ceiling |
| Reliable.SweepPartition | Server/Form1.cs:402-436 | the retransmitted and the dropped entries split the overdue entries between them |
| Reliable.AckRemovesNamedOnly | Server/Form1.cs:662-679 | the echo of a frame removes exactly that frame's entry |
| Reliable.AckUnknownIgnored | Server/Form1.cs:662-679 | an acknowledgement naming no entry leaves the table unchanged |
| Reliable.AckKeepsInvariant | Server/Form1.cs:662-679 | an acknowledgement keeps the table invariant |
| Reliable.AckedNeverRetransmitted | Server/Form1.cs:662-679 | an acknowledged frame is never retransmitted by a later sweep |
| Reliable.ResentFacts | Server/Form1.cs:449-478 | a resend keeps the keys and stamps every entry `now`, leaving all else as it was; it keeps the invariant |
| Reliable.SweptOverEnds | Server/Form1.cs:407-436 | visiting every overdue entry once, in any order, gives the whole sweep |
| Reliable.ResentOverEnds | Server/Form1.cs:453-476 | visiting every un-acked entry once, in any order, gives the whole resend |
| Election.FirstSuccess | Server/Form1.cs:250-288 | the first accepted attempt in a range, or the range's end: every attempt before it failed |
| Election.FirstSuccessSplit | Server/Form1.cs:210-226 | the first success over two consecutive ranges is that of the first range, else that of the second |
| Election.Schedule | Server/Form1.cs:210-226 | the failover's attempt targets: 5 attempts; an attempt targets the primary exactly when it is among the first three |
| Election.PrimaryTriedFirst | Server/Form1.cs:210-217 | the primary is tried three times first; any backup attempt means all three failed |
| Election.BackupsInOrder | Server/Form1.cs:222-232 | the backups are tried once each, in list order |
| Election.WinnerIsFirstSuccess | Server/Form1.cs:210-237 | the failover ends on the broker of the first accepted attempt, after only failures; it ends on none exactly when all five fail |
| Election.DownUpUp | Server/Form1.cs:210-232 | brokers [down, up, up]: three failures on the primary, then the first backup wins |
| Election.AllDown | Server/Form1.cs:210-237 | every broker down: five attempts, no winner |
| Election.ProbeRateLimited | Server/Form1.cs:303-308 | no probe while on the primary and none within a minute of the last; a probe is due on a backup a minute or more after the last |
| Election.Decimal | Server/Form1.cs:268 | a port's decimal text is non-empty and all digits |
| Election.DecimalValue | Server/Form1.cs:268 | the digits spell the port number, with no leading zero |
| Election.PortText | Server/Form1.cs:37-41 | the brokers' port 1883 is written `1883` |
| Registry.TierThresholds | Server/Form1.cs:156-170 | `TierOf` is Active up to 30, Idle from 31 to 60, Offline from 61; it never improves with time |
| Registry.TickFacts | Server/Form1.cs:150-170 | a tick counts one more second on every row, keeps every other column, leaves each row on its counter's tier, and keeps uuids unique |
| Registry.SilentRowAges | Server/Form1.cs:150-170 | a row reset to 0 is on tier `TierOf(n)` after `n` silent ticks: Idle at 31, Offline at 61 |
| Registry.FindRow | Server/Form1.cs:1392-1400 | the first row with the uuid, or none exactly when no row has it |
| Registry.UpsertFacts | Server/Form1.cs:1385-1427 | AddOrUpdateClient keeps one row per uuid and each row on its tier. Afterwards the peer's row exists at 0 / Active. It holds every non-null column given. Every other row is unchanged, and a row is added only for a new uuid |
| Registry.TimerResetFacts | Server/Form1.cs:1430-1448 | ResetClientTimer refreshes only the peer's row and keeps uniqueness and tiers |
| Registry.ValidCommandShape | Server/Form1.cs:981-987 | a message is a valid command exactly when, lowercased, it is one of the eight commands or starts with one followed by a space |
| Registry.LowerFirstField | Server/Form1.cs:984 | the lowered first token equals `c` exactly when the lowered text is `c` or starts with `c` and a space |
| Registry.ValidIsNotHelp | Server/Form1.cs:916-940 | no valid command is caught by either help branch |
| Registry.DispatchGate | Server/Form1.cs:902-951 | a command goes out exactly when the trimmed text is a valid command and the peer is not executing; what goes out is the trimmed text |
| Registry.GateSingleFlight | Server/Form1.cs:943-996 | once a command is out, nothing more goes to that peer until a result arrives; the result reopens the gate; other peers are unaffected |
| Registry.RouteOfClientTopics | Server/Form1.cs:534-545 | a peer's data topic routes as data from it, and its ack topic as an ack from it |
| Registry.ShortTopicIgnored | Server/Form1.cs:534-536 | topics of fewer than three levels are ignored |
| Registry.HandshakeRoundTrip | Server/Form1.cs:558-565 | the identity `{uuid}#{ip}#{user}#{os}` is read back field by field when no field holds `#` |
| Registry.ClassifyCases | Server/Form1.cs:558-625 | exactly `PING` is a heartbeat; text without `#`, `PING` or a tag is a plain result; text with `#` never clears the gate |
| Registry.ScreenshotRecognised | Server/Form1.cs:579-590 | `SCREENSHOT:{name}:{content}` is a screenshot with that name and content, when the name holds no `:` and neither holds `#` |
| Registry.FileRecognised | Server/Form1.cs:593-604 | `FILE:{name}:{content}` is a file result with that name and content, under the same conditions |
| Registry.OneHashSwallowed | Server/Form1.cs:558-565 | a result with a single `#` is taken for a malformed handshake and dropped |
| Channel.Link.Publish | Server/Form1.cs:1490-1512 | a publish goes out, and is logged, exactly when the link is connected |
| Channel.ToList | Server/Form1.cs:403-405 | `.ToList()` of the selected ids: each id once, exactly the selected ones |
| Channel.RetryEntry | Server/Form1.cs:409-431 | the loop body on one entry: drop it past the ceiling; otherwise count the retry, republish its frame and refresh `SentTime` if that went out |
| Channel.SweepEach | Server/Form1.cs:407-436 | the `foreach` leaves the table partially swept over the listed ids; the frames it publishes are those of the retransmitted entries, in visiting order |
| Channel.ResendEach | Server/Form1.cs:453-476 | the `foreach` leaves the listed entries stamped and publishes their frames in order |
| Channel.PendingTable.Insert | Server/Form1.cs:1485-1497 | a new entry is filed under its id, overwriting any entry already there, and the invariant is kept |
| Channel.PendingTable.HandleAck | Server/Form1.cs:662-679 | the table becomes `Acked(old, text)`, removing the entry named before the first `\|` |
| Channel.PendingTable.Sweep | Server/Form1.cs:394-447 | the table becomes `Swept(old)`. The outbox gains exactly the frames of the retransmitted entries, each once, when connected. The invariant is kept |
| Channel.PendingTable.ResendAll | Server/Form1.cs:449-478 | the table becomes `Resent(old)` when connected. The outbox gains the frame of every entry, each once. The invariant is kept |
| Failover.Connector.TryConnectToBroker | Server/Form1.cs:244-291 | the attempts stop at the first accepted one. Success holds exactly when one of the `attempts` is accepted. The attempts made are logged, and the link ends up connected exactly on success |
| Failover.Connector.FailoverLocked | Server/Form1.cs:208-237 | the attempts made and the winner are those of `FailoverPlan`. The index moves to the winner. `_lastPrimaryCheckTime` is stamped only on a backup win |
| Failover.Connector.ConnectWithPriorityFailover | Server/Form1.cs:198-242 | already connected (or wedged): no attempt, nothing changes; otherwise the failover above |
| Failover.Connector.SwitchToPrimaryAsWritten | Server/Form1.cs:364-390 | the switch succeeds exactly when one of two primary attempts is accepted; on failure the lock is wedged and the link is down |
| Failover.Connector.SwitchToPrimaryBroker | Client/Program.cs:414-437 | corrected switch. A success puts the index on 0 and leaves the check time alone. On failure the failover runs under the held lock: the link, index, last broker and check time are those of its plan (the check time is stamped on a backup win), and the attempts are the two on the primary followed by the plan's |
| Failover.SwitchFailureWedges | Server/Form1.cs:364-390 | after a failed switch, a failover with every broker up never connects |
| Failover.SwitchFailureFallsBack | Server/Form1.cs:364-390 | with the corrected switch the same run ends connected to backup 1 |
| ServerForm.FirstRow | Server/Form1.cs:1392-1400 | the `foreach … break` finds `FindRow` |
| ServerForm.Server.Tick | Server/Form1.cs:148-170 | the rows become `Ticked(old)` |
| ServerForm.Server.AddOrUpdateClient | Server/Form1.cs:1378-1428 | the rows become `Upserted(old)` with the current broker's label; the user name is recorded only for a new uuid |
| ServerForm.Server.ResetClientTimer | Server/Form1.cs:1430-1448 | the rows become `TimerReset(old, uuid)` |
| ServerForm.Server.SendAck | Server/Form1.cs:1452-1470 | when connected, the original payload goes out unchanged on `demo/s2c/{peer}/ack` |
| ServerForm.Server.SendToClientWithRetry | Server/Form1.cs:1472-1513 | disconnected: nothing. Otherwise one entry under the new id with count 0 and topic `demo/s2c/{peer}`, and its frame goes out |
| ServerForm.Server.SendMessageToClient | Server/Form1.cs:902-979 | the gate's decision. Only a valid command to an idle peer is sent, marks the peer busy with that command, and files it; when connected, its frame goes out. For every other decision nothing changes |
| ServerForm.Server.RetryStep | Server/Form1.cs:394-447 | one sweep with the 10 s timeout and ceiling 3 |
| ServerForm.Server.HandleAck | Server/Form1.cs:662-679 | the table becomes `Acked(old, text)` |
| ServerForm.Server.PrimaryCheckStep | Server/Form1.cs:295-333 | with the corrected switch. Not due: nothing. A failed probe stamps the check time. A successful switch puts the index on 0 and resends every pending entry, stamped `now`. It succeeds exactly when the probe and a switch attempt succeed. A failed switch leaves link, index, last broker and check time as the fallback failover's plan makes them, and the table untouched |
| ServerForm.Server.OnMessageReceived | Server/Form1.cs:528-642 | a data frame is classified and handled: handshake, heartbeat or result. Every data frame is then echoed on the peer's ack topic. An ack goes to HandleAck, and any other topic changes nothing. The user-name map gains an entry only for the handshake of a new uuid |
| ClientProgram.Client.ResetGate | Client/Program.cs:553-557 | both gate flags cleared, last ack time `MinValue` |
| ClientProgram.Client.Connect | Client/Program.cs:270-317 | the shared failover; a new connection resets the gate, records the winner as the last broker and, on a backup, stamps the primary-check time. No connection leaves gate, index, last broker and check time alone |
| ClientProgram.Client.PersistentReconnectStep | Client/Program.cs:166-185 | connected: nothing, including the ack time, the last broker and the check time. Disconnected: the failover runs; a win puts the index and the last broker on the winner, resets the gate and, on a backup, stamps the check time; no win leaves all of them alone |
| ClientProgram.Client.OnDisconnected | Client/Program.cs:550-560 | the link is down and the gate is reset |
| ClientProgram.Client.PrimaryCheckStep | Client/Program.cs:355-386 | as on the server, with the corrected switch and without a resend. Dropping the backup link resets the gate, ack time included, and so does a new connection from the fallback. With the link already down, a switch or a fallback that does not connect leaves the gate as it was |
| ClientProgram.Client.SendHeartbeatPing | Client/Program.cs:245-266 | when connected, one `PING` frame under the heartbeat id, at most once, not filed in the table |
| ClientProgram.Client.HeartbeatMonitorStep | Client/Program.cs:213-243 | both flags are cleared exactly when connected, an ack was seen more than 30 s ago, and the gate is acknowledged |
| ClientProgram.Client.SendToServerWithRetry | Client/Program.cs:441-480 | disconnected: nothing. Otherwise one entry under the new id on `demo/c2s/{id}`, and its frame goes out |
| ClientProgram.Client.SendAck | Client/Program.cs:647-660 | when connected, the payload goes out unchanged on the given topic |
| ClientProgram.Client.RetryStep | Client/Program.cs:482-528 | one sweep with the 60 s timeout and ceiling 2 |
| ClientProgram.Client.OnMessageReceived | Client/Program.cs:562-626 | a command frame appends exactly one request at the tail. A heartbeat ack stamps the time, and the first after a reset sends the identity once; a later one leaves the gate flags as they were. Any other ack goes to HandleAck. Outside the heartbeat-ack route the gate flags and the ack time stay as they were |
| ClientProgram.Client.BeginCommand | Client/Program.cs:126-133 | the oldest request is taken exactly when the queue is non-empty and the executor idle |
| ClientProgram.Client.FinishCommand | Client/Program.cs:136-148 | the executor turns idle, the response is filed and sent, then the original payload is echoed on `demo/c2s/{id}/ack` |
| ClientProgram.HandshakeSentOnce | Client/Program.cs:597-615 | two heartbeat acks in a row send the identity once |
| ClientProgram.RetransmissionQueuedTwice | Client/Program.cs:578-587 | a frame received twice is queued twice; the second copy waits while the first runs |
| Protocol.HandshakeRegisters | Client/Program.cs:603-611 | the client's identity frame is routed as data from that client and read as a handshake with the same four fields |
| Protocol.HeartbeatAnswered | Client/Program.cs:245-266 | a ping is read by the server as a heartbeat, and the server's echo passes the client's heartbeat-ack test |
| Protocol.EchoAcknowledges | Client/Program.cs:616-645 | the echo of a data frame is no heartbeat ack and removes exactly its entry |
| Protocol.CommandAndResultRoundTrip | Client/Program.cs:569-588 | a command arrives whole at the client's queue, and the result arrives as data from that client |

## Left out

- The MQTT client itself is not modelled: connecting, publishing, subscribing, the probe client of IsPrimaryBrokerAvailable, keep-alive and QoS delivery.
  - A connection attempt is an oracle outcome.
  - The probe is the `primaryUp` parameter.
  - A publish is an entry in `Link.outbox`.
  - A broker drop is `Link.Disconnect`.
- The transport payload is modelled as the text `Encoding.UTF8.GetString` would give. Its byte form is not.
- Concurrency is not modelled. Each `Task.Run` loop is one step method, and the model does not capture:
  - `Task.Delay` pauses;
  - `CancellationTokenSource`;
  - the `lock` around the queue;
  - the races on the unguarded `_pendingMessages` dictionaries;
  - `_isReconnecting`, which is always false between steps of a sequential model.
- The server's OnDisconnected (Server/Form1.cs:515-526) is not a separate member. It only schedules `ConnectWithPriorityFailover` after a delay, which is `Connector.ConnectWithPriorityFailover` called by the environment.
- `SemaphoreSlim` is modelled only through its one observable effect here, the wedge described under Findings.
- ProcessCommand and everything it runs are left out: processes, screenshots, files, system information. They are operating-system effects. The response is the `response` parameter of FinishCommand.
- Host identity is a set of constructor parameters: the client's uuid, IP address, user name and OS version.
- GUID generation is left out. Fresh ids are parameters, and nothing checks them for collisions, as in the source.
- The command executor's `catch` (Client/Program.cs:155-161) is left out. Every call it guards catches its own exceptions, so it only clears a flag that is already clear.
- The WinForms UI is left out: tabs, chat history, help text, the status bar, context menus and logging. So are the files SaveScreenshot and SaveDownloadedFile write. SendCommandToClient (Server/Form1.cs:1143-1146) is SendToClientWithRetry without the gate.
- `_lastPrimaryCheckTime` is compared as `now - last >= 60000` in milliseconds; `DateTime` ticks are not modelled.
- Text.ToLower and EqualsIgnoreCase fold only ASCII letters. Culture-sensitive and non-ASCII folding are left out.
- Text.StartsWith is an ordinal prefix test. The source's `StartsWith(string)` (Server/Form1.cs:579 and 595, Client/Program.cs:597) compares with the current culture, which ignores characters such as U+00AD; culture-sensitive comparison is not modelled, so a tag preceded by such a character is not recognised here.
- PrimaryCheckStep (ServerForm.Server.PrimaryCheckStep and ClientProgram.Client.PrimaryCheckStep) calls the corrected switch, not the switch as written: the deadlock of the written code is shown separately, under Findings, by Failover.Connector.SwitchToPrimaryAsWritten. In the Server and Client classes the lock is therefore never wedged.
- Utf8.Decode follows the .NET Core replacement of maximal ill-formed subparts by U+FFFD. Lone surrogates cannot occur in a Dafny string, so their encoding is left out. The UTF-8 layer is modelled concretely rather than as an abstract injective map; its injectivity is Utf8.RoundTrip.
- Client/Windowsapihelper.cs, Server/UploadForm.cs and Server/DownloadForm.cs are not part of this model.

## Findings

| source | as written | input that shows it | evidently intended | confidence | as-written member | corrected member |
|---|---|---|---|---|---|---|
| Server/Form1.cs:364-390 | SwitchToPrimaryBroker holds `_connectionLock`, a `SemaphoreSlim(1, 1)`, and on failure calls ConnectWithPriorityFailover, which waits on the same lock (lines 366 and 200). The same happens in Client/Program.cs:414-437 (lines 416 and 272) | on backup 1, probe succeeds, both switch attempts fail: the call never returns and the lock is never released, so no later reconnect runs | fall back to a backup under the lock already held | high; not executed | Failover.Connector.SwitchToPrimaryAsWritten, Failover.SwitchFailureWedges | Failover.Connector.SwitchToPrimaryBroker, Failover.SwitchFailureFallsBack |
