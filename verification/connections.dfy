/** What the websocket actors of v1/src/handlers share: connection addresses,
    the frames a connection receives, and the two queues of every connection —
    its actor mailbox (messages posted with `do_send`) and the frames written
    to its socket (`ctx.text`, `ctx.pong`). */
module Connections {

  /** The address (`Addr<...>`) of one connection's actor; only equality is used. */
  type ConnId = nat

  newtype byte = x: int | 0 <= x < 256

  /** One item of a connection's inbound stream: a decoded websocket message,
      or `ProtocolError` for an `Err(ws::ProtocolError)` item. */
  datatype Frame =
    | Text(text: string)
    | Binary(data: seq<byte>)
    | Continuation
    | Ping(payload: seq<byte>)
    | Pong(payload: seq<byte>)
    | Close
    | Nop
    | ProtocolError

  /** A frame written back to a connection's socket. */
  datatype Outbound = TextOut(text: string) | PongOut(payload: seq<byte>)

  /** The queue `m` holds for connection `c`; a connection never written to has an empty one. */
  function Queue<T>(m: map<ConnId, seq<T>>, c: ConnId): seq<T>
  {
    if c in m then m[c] else []
  }

  /** The mailboxes `m` after `msg` was posted once to every connection in `members`. */
  function PostedToAll(m: map<ConnId, seq<string>>, members: set<ConnId>, msg: string): map<ConnId, seq<string>>
  {
    map c | c in m.Keys + members :: Queue(m, c) + (if c in members then [msg] else [])
  }

  /** Posting to every member appends exactly one copy of the message to each
      member's mailbox, at its end, and leaves every other mailbox as it was. */
  lemma PostedToAllOnce(m: map<ConnId, seq<string>>, members: set<ConnId>, msg: string, c: ConnId)
    ensures c in members ==> Queue(PostedToAll(m, members, msg), c) == Queue(m, c) + [msg]
    ensures c !in members ==> Queue(PostedToAll(m, members, msg), c) == Queue(m, c)
    ensures multiset(Queue(PostedToAll(m, members, msg), c))[msg] ==
      multiset(Queue(m, c))[msg] + (if c in members then 1 else 0)
  {
    var q := Queue(m, c);
    if c in members {
      assert multiset(q + [msg]) == multiset(q) + multiset{msg};
    }
  }

  /** Posting to nobody changes no mailbox. */
  lemma PostedToNone(m: map<ConnId, seq<string>>, msg: string)
    ensures PostedToAll(m, {}, msg) == m
  {
    var p := PostedToAll(m, {}, msg);
    assert p.Keys == m.Keys;
    forall c | c in m ensures p[c] == m[c] {
      assert p[c] == Queue(m, c) + [];
    }
  }

  /** Posting to one more connection extends a broadcast by that connection. */
  lemma PostedToAllStep(m: map<ConnId, seq<string>>, done: set<ConnId>, msg: string, c: ConnId)
    requires c !in done
    ensures var p := PostedToAll(m, done, msg);
      p[c := Queue(p, c) + [msg]] == PostedToAll(m, done + {c}, msg)
  {
    var p := PostedToAll(m, done, msg);
    var a, b := p[c := Queue(p, c) + [msg]], PostedToAll(m, done + {c}, msg);
    assert a.Keys == b.Keys;
    forall d | d in a.Keys ensures a[d] == b[d] {
      if d != c {
        assert a[d] == p[d];
      }
    }
  }

  /** The queues of every connection. */
  class Sockets {
    /** Messages posted to each actor with `do_send` and not yet handled, oldest first. */
    var mailbox: map<ConnId, seq<string>>
    /** Frames written to each connection's socket, oldest first. */
    var wire: map<ConnId, seq<Outbound>>

    constructor ()
      ensures mailbox == map[] && wire == map[]
    {
      mailbox := map[];
      wire := map[];
    }

    function Pending(c: ConnId): seq<string>
      reads this
    {
      Queue(mailbox, c)
    }

    function Sent(c: ConnId): seq<Outbound>
      reads this
    {
      Queue(wire, c)
    }

    /** `addr.do_send(msg)`: queue `msg` in the mailbox of `c`. */
    method Post(c: ConnId, msg: string)
      modifies this
      ensures mailbox == old(mailbox)[c := old(Pending(c)) + [msg]]
      ensures wire == old(wire)
    {
      mailbox := mailbox[c := Pending(c) + [msg]];
    }

    /** `ctx.text(..)` or `ctx.pong(..)` on the context of `c`. */
    method Write(c: ConnId, out: Outbound)
      modifies this
      ensures wire == old(wire)[c := old(Sent(c)) + [out]]
      ensures mailbox == old(mailbox)
    {
      wire := wire[c := Sent(c) + [out]];
    }

    /** The actor of `c` handles the oldest message of its mailbox: both the
        `ServerMessage` handler and the `SendMessage` handler write the text
        they carry to the socket unchanged. The actor runtime calls a handler
        only for a message that is queued. */
    method HandleNext(c: ConnId)
      requires Pending(c) != []
      modifies this
      ensures mailbox == old(mailbox)[c := old(Pending(c))[1..]]
      ensures wire == old(wire)[c := old(Sent(c)) + [TextOut(old(Pending(c))[0])]]
    {
      var msg := Pending(c)[0];
      mailbox := mailbox[c := Pending(c)[1..]];
      Write(c, TextOut(msg));
    }
  }
}
