/** The `MyWebSocket` actor of v1/src/handlers/server_websocket.rs and its copy
    in v1/src/handlers/websocket_handler.rs: each connection answers text that
    is not GPU telemetry with an acknowledgement and pings with pongs, and the
    server can broadcast a command to every registered connection. */
module EchoSocket {
  import opened Values
  import opened Connections
  import opened Registry

  const ReceivedPrefix: string := "Server received: "

  /** The reply to one inbound frame. `isGpuData(t)` says whether `t`
      deserialises as a `GpuData` record (name, temp, watt, fan_speed);
      telemetry is only logged. */
  function EchoReply(frame: Frame, isGpuData: string -> bool): (r: Option<Outbound>)
    ensures r.Some? <==> (frame.Text? && !isGpuData(frame.text)) || frame.Ping?
    ensures frame.Text? && r.Some? ==> r.value.TextOut? && r.value.text == ReceivedPrefix + frame.text
    ensures frame.Ping? ==> r == Some(PongOut(frame.payload))
  {
    match frame
    case Text(text) => if isGpuData(text) then None else Some(TextOut(ReceivedPrefix + text))
    case Ping(payload) => Some(PongOut(payload))
    case _ => None
  }

  /** The acknowledgement carries the received text: stripping the prefix gives it back. */
  lemma EchoReplyRecoversText(frame: Frame, isGpuData: string -> bool)
    requires EchoReply(frame, isGpuData).Some? && EchoReply(frame, isGpuData).value.TextOut?
    ensures frame.Text?
    ensures var t := EchoReply(frame, isGpuData).value.text;
      |ReceivedPrefix| <= |t| && t[..|ReceivedPrefix|] == ReceivedPrefix && t[|ReceivedPrefix|..] == frame.text
  {
    var t := EchoReply(frame, isGpuData).value.text;
    assert t == ReceivedPrefix + frame.text;
  }

  /** Different texts get different acknowledgements. */
  lemma EchoReplyInjective(a: string, b: string, isGpuData: string -> bool)
    requires !isGpuData(a) && !isGpuData(b)
    requires EchoReply(Text(a), isGpuData) == EchoReply(Text(b), isGpuData)
    ensures a == b
  {
    EchoReplyRecoversText(Text(a), isGpuData);
    EchoReplyRecoversText(Text(b), isGpuData);
  }

  /** The stream handler of connection `self`: the reply, if any, is written to
      that connection's socket only, and no mailbox changes. */
  method HandleFrame(socks: Sockets, self: ConnId, frame: Frame, isGpuData: string -> bool)
    modifies socks
    ensures var r := EchoReply(frame, isGpuData);
      socks.wire == if r.Some? then old(socks.wire)[self := old(socks.Sent(self)) + [r.value]] else old(socks.wire)
    ensures socks.mailbox == old(socks.mailbox)
  {
    match frame
    case Text(text) =>
      if !isGpuData(text) {
        socks.Write(self, TextOut(ReceivedPrefix + text));
      }
    case Ping(payload) =>
      socks.Write(self, PongOut(payload));
    case _ =>
  }

  /** `send_command_to_rigs`: post `ServerMessage(command)` once to every
      address registered at call time; the registry is not changed. */
  method SendCommandToRigs(clients: ClientSet, socks: Sockets, command: string)
    modifies socks
    ensures socks.mailbox == PostedToAll(old(socks.mailbox), clients.members, command)
    ensures socks.wire == old(socks.wire)
  {
    var remaining := clients.members;
    ghost var sent: set<ConnId> := {};
    PostedToNone(socks.mailbox, command);
    while remaining != {}
      invariant remaining !! sent && remaining + sent == clients.members
      invariant socks.mailbox == PostedToAll(old(socks.mailbox), sent, command)
      invariant socks.wire == old(socks.wire)
      decreases remaining
    {
      var c :| c in remaining;
      PostedToAllStep(old(socks.mailbox), sent, command, c);
      socks.Post(c, command);
      remaining := remaining - {c};
      sent := sent + {c};
    }
  }
}
