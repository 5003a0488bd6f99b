/** How the two sides read each other's frames: what the client sends is
    routed and classified by the server as the client means it, and each
    side's acknowledgement of a frame is recognised by the other. */
module Protocol {
  import opened Text
  import opened Frame
  import opened Reliable
  import opened Registry
  import ClientProgram

  lemma NoBarInMessageId(id: string)
    requires IsMessageId(id)
    ensures '|' !in id
  {
    forall k | 0 <= k < |id| ensures id[k] != '|' {
      assert IsHexDigit(id[k]);
    }
  }

  lemma NoBarInHeartbeatId(id: string)
    requires IsHeartbeatId(id)
    ensures '|' !in id
  {
    forall k | 0 <= k < |id| ensures id[k] != '|' {
      if k < 2 { assert id[k] == id[..2][k]; }
    }
  }

  /** The identity the client sends once the server answers its heartbeat
      arrives at the server as a data frame from that client and is read as
      a handshake with the same four fields. */
  lemma HandshakeRegisters(clientId: string, ip: string, username: string, os: string, infoId: string)
    requires '/' !in clientId && IsMessageId(infoId)
    requires '#' !in clientId && '#' !in ip && '#' !in username && '#' !in os
    ensures RouteOf(C2S(clientId)) == DataFrom(clientId)
    ensures var e := Envelope(infoId, ClientProgram.Info(clientId, ip, username, os), C2S(clientId), 0, 0, false);
      Classify(ParseServerFrame(DecodeFromBase64(Wire(e).payload)).data) == Handshake(clientId, ip, username, os)
  {
    RouteOfClientTopics(clientId);
    NoBarInMessageId(infoId);
    ServerFrameRoundTrip(infoId, ClientProgram.Info(clientId, ip, username, os));
    HandshakeRoundTrip(clientId, ip, username, os);
  }

  /** A heartbeat ping is read by the server as a heartbeat of its sender,
      and the server's echo of it, on the client's ack topic, passes the
      client's heartbeat-ack test. */
  lemma HeartbeatAnswered(clientId: string, hbId: string)
    requires '/' !in clientId && IsHeartbeatId(hbId)
    ensures RouteOf(C2S(clientId)) == DataFrom(clientId)
    ensures Classify(ParseServerFrame(DecodeFromBase64(Framed(hbId, Ping))).data) == Heartbeat
    ensures IsHeartbeatAck(DecodeFromBase64(Framed(hbId, Ping)))
  {
    RouteOfClientTopics(clientId);
    NoBarInHeartbeatId(hbId);
    ServerFrameRoundTrip(hbId, Ping);
    HeartbeatEchoRecognised(hbId);
  }

  /** The echo of any data frame, sent back as its acknowledgement, is not
      taken for a heartbeat ack and removes exactly that frame's entry from
      the sender's table. */
  lemma EchoAcknowledges(m: map<string, Envelope>, e: Envelope)
    requires IsMessageId(e.id)
    ensures !IsHeartbeatAck(DecodeFromBase64(Wire(e).payload))
    ensures Acked(m, DecodeFromBase64(Wire(e).payload)) == m - {e.id}
  {
    NoBarInMessageId(e.id);
    DataEchoNotHeartbeat(e.id, e.payload);
    AckRemovesNamedOnly(m, e.id, e.payload);
  }

  /** A command the server sends reaches the client's queue whole, `|`
      characters included, and the client's result comes back to the
      server as a data frame from that client with the result as its data. */
  lemma CommandAndResultRoundTrip(clientId: string, commandId: string, command: string,
                                  resultId: string, result: string)
    requires '/' !in clientId && IsMessageId(commandId) && IsMessageId(resultId)
    ensures ParseClientFrame(DecodeFromBase64(Framed(commandId, command))).command == command
    ensures RouteOf(C2S(clientId)) == DataFrom(clientId)
    ensures ParseServerFrame(DecodeFromBase64(Framed(resultId, result))).data == result
    ensures RouteOf(AckTopic(C2S(clientId))) == AckFrom(clientId)
  {
    NoBarInMessageId(commandId);
    NoBarInMessageId(resultId);
    ClientFrameRoundTrip(commandId, command);
    ServerFrameRoundTrip(resultId, result);
    RouteOfClientTopics(clientId);
  }
}
