/** The `RigWebSocket` actor of v1/src/handlers/ws_rig.rs: every text frame is
    acknowledged to the sender; everything else is ignored. */
module RigSocket {
  import opened Values
  import opened Connections

  const AckPrefix: string := "Command '"
  const AckSuffix: string := "' sent to rigs"

  /** The acknowledgement of one inbound frame. */
  function CommandAck(frame: Frame): (r: Option<string>)
    ensures r.Some? <==> frame.Text?
    ensures r.Some? ==>
      && |r.value| == |AckPrefix| + |frame.text| + |AckSuffix|
      && r.value[..|AckPrefix|] == AckPrefix
      && r.value[|AckPrefix|..|AckPrefix| + |frame.text|] == frame.text
      && r.value[|AckPrefix| + |frame.text|..] == AckSuffix
  {
    if frame.Text? then Some(AckPrefix + frame.text + AckSuffix) else None
  }

  /** The command can be read back from its acknowledgement. */
  function CommandOfAck(ack: string): Option<string>
  {
    if |AckPrefix| + |AckSuffix| <= |ack|
       && ack[..|AckPrefix|] == AckPrefix
       && ack[|ack| - |AckSuffix|..] == AckSuffix
    then Some(ack[|AckPrefix|..|ack| - |AckSuffix|])
    else None
  }

  lemma CommandAckRoundTrip(text: string)
    ensures CommandAck(Text(text)).Some?
    ensures CommandOfAck(CommandAck(Text(text)).value) == Some(text)
  {
    var ack := CommandAck(Text(text)).value;
    assert ack[|ack| - |AckSuffix|..] == AckSuffix;
  }

  /** The stream handler of connection `self`: a text frame writes exactly one
      acknowledgement to the sender's socket; the client list is not touched. */
  method HandleFrame(socks: Sockets, self: ConnId, frame: Frame)
    modifies socks
    ensures frame.Text? ==>
      socks.wire == old(socks.wire)[self := old(socks.Sent(self)) + [TextOut(CommandAck(frame).value)]]
    ensures !frame.Text? ==> socks.wire == old(socks.wire)
    ensures socks.mailbox == old(socks.mailbox)
  {
    if frame.Text? {
      socks.Write(self, TextOut(AckPrefix + frame.text + AckSuffix));
    }
  }
}
