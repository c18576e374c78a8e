/** The shared client registries of the websocket actors: a `HashSet` of
    addresses (server_websocket.rs, websocket_handler.rs) and a `Vec` of
    addresses (ws_rig.rs, ws_frontend.rs). `started` registers a connection,
    `stopped` unregisters it. */
module Registry {
  import opened Values
  import opened Connections

  /** The `HashSet<Addr<..>>` registry. */
  class ClientSet {
    var members: set<ConnId>

    constructor ()
      ensures members == {}
    {
      members := {};
    }

    /** `started`: insert the address; inserting one already present adds nothing. */
    method Started(c: ConnId)
      modifies this
      ensures members == old(members) + {c}
    {
      members := members + {c};
    }

    /** `stopped`: remove the address; the others stay, an absent one is a no-op. */
    method Stopped(c: ConnId)
      modifies this
      ensures members == old(members) - {c}
    {
      members := members - {c};
    }
  }

  /** `s` with every entry equal to `c` dropped, the others kept in order:
      what `Vec::retain(|client| client != &c)` leaves. */
  function Without(s: seq<ConnId>, c: ConnId): (r: seq<ConnId>)
    ensures c !in r
    ensures forall x :: x in r <==> x in s && x != c
    ensures |r| <= |s|
  {
    if s == [] then []
    else Without(s[..|s| - 1], c) + (if s[|s| - 1] == c then [] else [s[|s| - 1]])
  }

  /** The `Vec<Addr<..>>` registry. */
  class ClientList {
    var clients: seq<ConnId>

    constructor ()
      ensures clients == []
    {
      clients := [];
    }

    /** `started`: append the address at the end, even if it is already listed. */
    method Started(c: ConnId)
      modifies this
      ensures clients == old(clients) + [c]
    {
      clients := clients + [c];
    }

    /** `stopped`: `retain` every entry that differs from the address. */
    method Stopped(c: ConnId)
      modifies this
      ensures clients == Without(old(clients), c)
    {
      var kept: seq<ConnId> := [];
      var i := 0;
      while i < |clients|
        invariant i <= |clients|
        invariant kept == Without(clients[..i], c)
      {
        assert clients[..i + 1][..i] == clients[..i];
        if clients[i] != c {
          kept := kept + [clients[i]];
        }
        i := i + 1;
      }
      assert clients[..i] == clients;
      clients := kept;
    }
  }

  lemma WithoutSnoc(s: seq<ConnId>, x: ConnId, c: ConnId)
    ensures Without(s + [x], c) == Without(s, c) + (if x == c then [] else [x])
  {
    assert (s + [x])[..|s|] == s;
  }

  /** Dropping `c` keeps every other address with its multiplicity. */
  lemma {:induction false} WithoutMultiset(s: seq<ConnId>, c: ConnId)
    ensures multiset(Without(s, c)) == multiset(s)[c := 0]
  {
    if s != [] {
      var p, x := s[..|s| - 1], s[|s| - 1];
      assert s == p + [x];
      WithoutMultiset(p, c);
      WithoutSnoc(p, x, c);
    }
  }

  /** `retain` keeps the order: dropping `c` from a concatenation drops it from each part. */
  lemma {:induction false} WithoutAppend(a: seq<ConnId>, b: seq<ConnId>, c: ConnId)
    ensures Without(a + b, c) == Without(a, c) + Without(b, c)
  {
    if b != [] {
      var p, x := b[..|b| - 1], b[|b| - 1];
      assert b == p + [x];
      assert a + b == (a + p) + [x];
      WithoutAppend(a, p, c);
      WithoutSnoc(a + p, x, c);
      WithoutSnoc(p, x, c);
    } else {
      assert a + b == a;
    }
  }

  /** Removing an address that is not listed changes nothing; so a second `stopped` is harmless. */
  lemma {:induction false} WithoutAbsent(s: seq<ConnId>, c: ConnId)
    requires c !in s
    ensures Without(s, c) == s
  {
    if s != [] {
      var p := s[..|s| - 1];
      assert s == p + [s[|s| - 1]];
      WithoutAbsent(p, c);
    }
  }

  lemma WithoutIdempotent(s: seq<ConnId>, c: ConnId)
    ensures Without(Without(s, c), c) == Without(s, c)
  {
    WithoutAbsent(Without(s, c), c);
  }

  /** A connection that registers and then unregisters leaves the list as it found it. */
  lemma StartThenStop(s: seq<ConnId>, c: ConnId)
    requires c !in s
    ensures Without(s + [c], c) == s
  {
    WithoutSnoc(s, c, c);
    WithoutAbsent(s, c);
  }

  /** Two connections stopping in either order leave the same list. */
  lemma {:induction false} WithoutCommutes(s: seq<ConnId>, a: ConnId, b: ConnId)
    ensures Without(Without(s, a), b) == Without(Without(s, b), a)
  {
    if s != [] {
      var p, x := s[..|s| - 1], s[|s| - 1];
      assert s == p + [x];
      WithoutCommutes(p, a, b);
      WithoutSnoc(p, x, a);
      WithoutSnoc(p, x, b);
      WithoutAppend(Without(p, a), if x == a then [] else [x], b);
      WithoutAppend(Without(p, b), if x == b then [] else [x], a);
    }
  }

  // ---------------------------------------------------------------------
  // Both registries driven by the same lifecycle events

  datatype Event = Start(conn: ConnId) | Stop(conn: ConnId)

  /** The members of a `HashSet` registry after the events, from empty. */
  function SetAfter(events: seq<Event>): set<ConnId>
  {
    if events == [] then {}
    else
      var s := SetAfter(events[..|events| - 1]);
      match events[|events| - 1]
      case Start(c) => s + {c}
      case Stop(c) => s - {c}
  }

  /** The client list of a `Vec` registry after the events, from empty. */
  function ListAfter(events: seq<Event>): seq<ConnId>
  {
    if events == [] then []
    else
      var l := ListAfter(events[..|events| - 1]);
      match events[|events| - 1]
      case Start(c) => l + [c]
      case Stop(c) => Without(l, c)
  }

  /** The last event that concerns `c`, if any. */
  function LastEventOf(events: seq<Event>, c: ConnId): Option<Event>
  {
    if events == [] then None
    else if events[|events| - 1].conn == c then Some(events[|events| - 1])
    else LastEventOf(events[..|events| - 1], c)
  }

  /** A connection is registered exactly when its last lifecycle event was a start. */
  lemma {:induction false} SetMembership(events: seq<Event>, c: ConnId)
    ensures c in SetAfter(events) <==> LastEventOf(events, c) == Some(Start(c))
  {
    if events != [] {
      SetMembership(events[..|events| - 1], c);
    }
  }

  /** The two registries agree on who is registered. */
  lemma {:induction false} ListAgreesWithSet(events: seq<Event>, c: ConnId)
    ensures c in ListAfter(events) <==> c in SetAfter(events)
  {
    if events != [] {
      ListAgreesWithSet(events[..|events| - 1], c);
    }
  }

  /** Every connection's actor starts at most once. */
  ghost predicate StartsOnce(events: seq<Event>)
  {
    forall i, j :: 0 <= i < j < |events| && events[i].Start? && events[j].Start? ==>
      events[i].conn != events[j].conn
  }

  /** An address no event started is not listed. */
  lemma {:induction false} UnstartedNotListed(events: seq<Event>, c: ConnId)
    requires forall i :: 0 <= i < |events| ==> events[i] != Start(c)
    ensures c !in ListAfter(events)
  {
    if events != [] {
      var p := events[..|events| - 1];
      assert forall i :: 0 <= i < |p| ==> p[i] == events[i];
      UnstartedNotListed(p, c);
    }
  }

  /** Dropping `c` removes as many entries as `c` occurs. */
  lemma {:induction false} WithoutLength(s: seq<ConnId>, c: ConnId)
    ensures |Without(s, c)| == |s| - multiset(s)[c]
  {
    if s != [] {
      var p, x := s[..|s| - 1], s[|s| - 1];
      assert s == p + [x];
      WithoutLength(p, c);
      WithoutSnoc(p, x, c);
    }
  }

  /** When every actor starts once, the `Vec` registry lists each address at
      most once, so it holds as many entries as the `HashSet` registry. */
  lemma {:induction false} ListHasNoDuplicates(events: seq<Event>)
    requires StartsOnce(events)
    ensures forall x :: multiset(ListAfter(events))[x] <= 1
    ensures |ListAfter(events)| == |SetAfter(events)|
  {
    if events != [] {
      var p := events[..|events| - 1];
      var l, s := ListAfter(p), SetAfter(p);
      assert StartsOnce(p);
      ListHasNoDuplicates(p);
      match events[|events| - 1]
      case Start(c) =>
        forall i | 0 <= i < |p| ensures p[i] != Start(c) {
          assert events[i] == p[i];
        }
        UnstartedNotListed(p, c);
        ListAgreesWithSet(p, c);
        assert multiset(l + [c]) == multiset(l) + multiset{c};
      case Stop(c) =>
        ListAgreesWithSet(p, c);
        WithoutMultiset(l, c);
        WithoutLength(l, c);
    }
  }
}
