/** The messaging layer's framing: the base64-over-UTF-8 text encoding of
    payloads, the `{messageId}|{body}` envelope and how each side splits it,
    the `demo/{c2s|s2c}/{id}[/ack]` topic names, and the shape of message ids. */
module Frame {
  import opened Wrappers
  import opened Text
  import Base64
  import Utf8

  /** `EncodeToBase64`: the UTF-8 bytes of the text, in base64. The source's
      fallback to the plain text on an exception is unreachable here, since
      every Dafny string has a UTF-8 encoding. */
  function EncodeToBase64(plain: string): string
  {
    Base64.Encode(Utf8.Encode(plain))
  }

  /** `DecodeFromBase64`: valid base64 is decoded and read as UTF-8; anything
      else is returned unchanged (the source's catch branch). */
  function DecodeFromBase64(text: string): string
  {
    match Base64.Decode(text)
    case Some(bytes) => Utf8.Decode(bytes)
    case None => text
  }

  /** Decoding an encoded text gives the text back. */
  lemma RoundTrip(s: string)
    ensures DecodeFromBase64(EncodeToBase64(s)) == s
  {
    Base64.RoundTrip(Utf8.Encode(s));
    Utf8.RoundTrip(s);
  }

  /** Text that is not base64 decodes to itself, without failing. */
  lemma InvalidDecodesToItself(text: string)
    requires Base64.Decode(text).None?
    ensures DecodeFromBase64(text) == text
  {
  }

  /** Two concrete instances: a text of the wrong length, and one with a
      character outside the alphabet. */
  lemma GarbageDecodesToItself()
    ensures DecodeFromBase64("oops!") == "oops!"
    ensures DecodeFromBase64("ab!d") == "ab!d"
  {
    Base64.StripNothing("oops!");
    Base64.StripNothing("ab!d");
  }

  /** The payload of a data frame: `{messageId}|{body}`, encoded. */
  function Framed(messageId: string, body: string): string
  {
    EncodeToBase64(messageId + "|" + body)
  }

  /** How the server splits a decoded data frame (Server/Form1.cs:547-555):
      no `|` means no id and the whole text as data. */
  datatype ServerFrame = ServerFrame(messageId: Option<string>, data: string)

  function ParseServerFrame(decoded: string): (f: ServerFrame)
    ensures f.messageId.None? <==> '|' !in decoded
    ensures f.messageId.None? ==> f.data == decoded
    ensures f.messageId.Some? ==> '|' !in f.messageId.value && decoded == f.messageId.value + "|" + f.data
  {
    match SplitFirst(decoded, '|')
    case None => ServerFrame(None, decoded)
    case Some(p) => ServerFrame(Some(p.0), p.1)
  }

  /** How the client splits a decoded command frame (Client/Program.cs:572-574):
      with no `|`, both the id and the command are the whole text. */
  datatype ClientFrame = ClientFrame(messageId: string, command: string)

  function ParseClientFrame(decoded: string): (f: ClientFrame)
    ensures '|' !in decoded ==> f.messageId == decoded && f.command == decoded
    ensures '|' in decoded ==> '|' !in f.messageId && decoded == f.messageId + "|" + f.command
  {
    match SplitFirst(decoded, '|')
    case None => ClientFrame(decoded, decoded)
    case Some(p) => ClientFrame(p.0, p.1)
  }

  /** How the client splits a decoded acknowledgement (Client/Program.cs:592-594):
      with no `|`, the data part is empty. */
  function ParseClientAck(decoded: string): (f: ClientFrame)
    ensures '|' !in decoded ==> f.messageId == decoded && f.command == ""
    ensures '|' in decoded ==> '|' !in f.messageId && decoded == f.messageId + "|" + f.command
  {
    match SplitFirst(decoded, '|')
    case None => ClientFrame(decoded, "")
    case Some(p) => ClientFrame(p.0, p.1)
  }

  /** The id an acknowledgement names, as HandleAck computes it on both sides. */
  function AckedId(decoded: string): string
  {
    FirstField(decoded, '|')
  }

  /** The liveness marker, both as ping body and in the echoed ack. */
  const Ping: string := "PING"

  /** The heartbeat-ack test of the client (Client/Program.cs:597). */
  predicate IsHeartbeatAck(decoded: string)
  {
    var f := ParseClientAck(decoded);
    StartsWith(f.messageId, "HB") && f.command == Ping
  }

  /** Decoding a frame gives its `{messageId}|{body}` text. */
  lemma DecodeFramed(messageId: string, body: string)
    requires '|' !in messageId
    ensures DecodeFromBase64(Framed(messageId, body)) == messageId + "|" + body
    ensures SplitFirst(messageId + "|" + body, '|') == Some((messageId, body))
  {
    RoundTrip(messageId + "|" + body);
    SplitFirstOfJoin(messageId, '|', body);
  }

  /** The server reads back the id and the body of every frame whose id has no `|`. */
  lemma ServerFrameRoundTrip(messageId: string, body: string)
    requires '|' !in messageId
    ensures ParseServerFrame(DecodeFromBase64(Framed(messageId, body))) == ServerFrame(Some(messageId), body)
  {
    RoundTrip(messageId + "|" + body);
    SplitFirstOfJoin(messageId, '|', body);
  }

  /** The client reads back the id and the whole command, `|` characters in it included. */
  lemma ClientFrameRoundTrip(messageId: string, command: string)
    requires '|' !in messageId
    ensures ParseClientFrame(DecodeFromBase64(Framed(messageId, command))) == ClientFrame(messageId, command)
  {
    RoundTrip(messageId + "|" + command);
    SplitFirstOfJoin(messageId, '|', command);
  }

  /** Echoing a frame back as its acknowledgement names exactly that frame's id. */
  lemma AckedIdOfFrame(messageId: string, body: string)
    requires '|' !in messageId
    ensures AckedId(DecodeFromBase64(Framed(messageId, body))) == messageId
  {
    RoundTrip(messageId + "|" + body);
    SplitFirstOfJoin(messageId, '|', body);
  }

  /** On a decoded text without `|` the two sides disagree: the server has no
      id, the client takes the whole text as the id. */
  lemma SidesDisagreeWithoutSeparator(decoded: string)
    requires '|' !in decoded
    ensures ParseServerFrame(decoded).messageId == None
    ensures ParseClientFrame(decoded).messageId == decoded
    ensures ParseServerFrame(decoded).data == ParseClientFrame(decoded).command == decoded
  {
  }

  // ---- message ids ----

  predicate IsHexDigit(ch: char)
  {
    ('0' <= ch <= '9') || ('a' <= ch <= 'f')
  }

  /** `Guid.NewGuid().ToString("N").Substring(0, 8)`: eight lower-case hex digits. */
  predicate IsMessageId(id: string)
  {
    |id| == 8 && forall k :: 0 <= k < |id| ==> IsHexDigit(id[k])
  }

  /** `"HB" + Guid.NewGuid().ToString("N").Substring(0, 6)`. */
  predicate IsHeartbeatId(id: string)
  {
    |id| == 8 && id[..2] == "HB" && forall k :: 2 <= k < |id| ==> IsHexDigit(id[k])
  }

  /** The acknowledgement of a heartbeat ping passes the heartbeat-ack test. */
  lemma HeartbeatEchoRecognised(hbId: string)
    requires IsHeartbeatId(hbId)
    ensures IsHeartbeatAck(DecodeFromBase64(Framed(hbId, Ping)))
  {
    assert '|' !in hbId by {
      forall k | 0 <= k < |hbId| ensures hbId[k] != '|' {
        if k < 2 { assert hbId[k] == hbId[..2][k]; }
      }
    }
    RoundTrip(hbId + "|" + Ping);
    SplitFirstOfJoin(hbId, '|', Ping);
  }

  /** The acknowledgement of an ordinary frame never passes it, whatever its
      body: hex ids cannot start with `HB`. */
  lemma DataEchoNotHeartbeat(messageId: string, body: string)
    requires IsMessageId(messageId)
    ensures !IsHeartbeatAck(DecodeFromBase64(Framed(messageId, body)))
  {
    assert '|' !in messageId by {
      forall k | 0 <= k < |messageId| ensures messageId[k] != '|' {
        assert IsHexDigit(messageId[k]);
      }
    }
    var decoded := messageId + "|" + body;
    DecodeFramed(messageId, body);
    assert ParseClientAck(decoded).messageId == messageId;
    assert messageId[..2] != "HB" by {
      assert IsHexDigit(messageId[0]) && messageId[..2][0] == messageId[0];
    }
  }

  // ---- topics ----

  const Namespace: string := "demo"

  /** `demo/c2s/{peer}`: what an endpoint sends on. */
  function C2S(peer: string): string { Namespace + "/" + "c2s" + "/" + peer }

  /** `demo/s2c/{peer}`: what the controller sends to one endpoint on. */
  function S2C(peer: string): string { Namespace + "/" + "s2c" + "/" + peer }

  /** The acknowledgement topic of a data topic. */
  function AckTopic(topic: string): string { topic + "/ack" }

  /** Topic levels of the four topic shapes, for a peer id without `/`. */
  lemma TopicLevels(peer: string)
    requires '/' !in peer
    ensures Split(C2S(peer), '/') == ["demo", "c2s", peer]
    ensures Split(AckTopic(C2S(peer)), '/') == ["demo", "c2s", peer, "ack"]
    ensures Split(S2C(peer), '/') == ["demo", "s2c", peer]
    ensures Split(AckTopic(S2C(peer)), '/') == ["demo", "s2c", peer, "ack"]
  {
    var c, s := ["demo", "c2s", peer], ["demo", "s2c", peer];
    JoinLevels("c2s", peer);
    JoinLevels("s2c", peer);
    assert c + ["ack"] == ["demo", "c2s", peer, "ack"];
    assert s + ["ack"] == ["demo", "s2c", peer, "ack"];
    SplitOfJoin(c, '/');
    SplitOfJoin(c + ["ack"], '/');
    SplitOfJoin(s, '/');
    SplitOfJoin(s + ["ack"], '/');
  }

  lemma JoinLevels(dir: string, peer: string)
    ensures Join(["demo", dir, peer], '/') == Namespace + "/" + dir + "/" + peer
    ensures Join(["demo", dir, peer, "ack"], '/') == AckTopic(Namespace + "/" + dir + "/" + peer)
  {
    assert Join([peer], '/') == peer;
    assert Join([peer, "ack"], '/') == peer + "/" + Join(["ack"], '/');
    assert ["demo", dir, peer][1..] == [dir, peer];
    assert [dir, peer][1..] == [peer];
    assert ["demo", dir, peer, "ack"][1..] == [dir, peer, "ack"];
    assert [dir, peer, "ack"][1..] == [peer, "ack"];
    assert [peer, "ack"][1..] == ["ack"];
  }
}
