/** Whole runs of the TCP relay: when a connection that a client has bound stays READY. */
module TcpRuns {
  import opened Options
  import opened Slots
  import opened IoAddr
  import opened TcpConnections
  import opened TcpServer

  /** Pointers grow, and the id map leads to live connections that nobody has bound. */
  ghost predicate Sound(t: Tables) {
    && (forall r :: r in t.conns ==> r < t.next)
    && (forall id :: id in t.ids ==>
          id != 0 && t.ids[id] in t.conns && t.conns[t.ids[id]].id == id
          && t.conns[t.ids[id]].client.None? && t.conns[t.ids[id]].stage != Ready)
  }

  lemma {:induction false} ReachedSound(serverId: nat, t: Tables, events: seq<Event>)
    requires Sound(t)
    ensures Sound(Reached(serverId, t, events))
  {
    hide Sound, Next;
    if events != [] {
      ReachedSound(serverId, t, events[..|events| - 1]);
      NextSound(serverId, Reached(serverId, t, events[..|events| - 1]), events[|events| - 1]);
    }
  }

  lemma NextSound(serverId: nat, t: Tables, e: Event)
    requires Sound(t)
    ensures Sound(Next(serverId, t, e))
  {
    hide Sound, Started, Taken, Attempted, Dropped, Changed, DroppedWhere, AnyUsable;
    match e {
      case Start(o, peer, haveRelay, draws, socket) =>
        if Possible(serverId, t, e) { StartedSound(serverId, t, o, peer, haveRelay, draws, socket); }
      case FromPeer(o, peer, s, good, permitted, draws, registered) =>
        if Possible(serverId, t, e) { TakenSound(serverId, t, o, peer, s, good && permitted, draws, registered); }
      case PeerDone(r, success) =>
        if Possible(serverId, t, e) { DoneSound(t, r); }
      case Timeout(r) =>
        if Possible(serverId, t, e) { DroppedSound(t, r); }
      case Bind(id, s, closing, auth, registered) => AttemptedSound(t, id, s, closing, auth, registered);
      case Clear(o) =>
        WhereSound(t, o, (c: Conn) => true, |List(t, o)|);
        ListsSound(DroppedWhere(t, o, (c: Conn) => true, |List(t, o)|), o);
      case FamilyGone(o, v6, _) => WhereSound(t, o, (c: Conn) => c.peerS.Some? && c.peer.ip.V6? == v6, |List(t, o)|);
    }
  }

  lemma StartedSound(serverId: nat, t: Tables, o: Owner, peer: Addr, haveRelay: bool, draws: seq<nat>, socket: Option<Socket>)
    requires Sound(t) && AnyUsable(serverId, t.ids, draws)
    ensures Sound(Started(serverId, t, o, peer, haveRelay, draws, socket))
  {
  }

  lemma TakenSound(serverId: nat, t: Tables, o: Owner, peer: Addr, s: Socket, welcome: bool, draws: seq<nat>, registered: bool)
    requires Sound(t) && AnyUsable(serverId, t.ids, draws)
    ensures Sound(Taken(serverId, t, o, peer, s, welcome, draws, registered))
  {
  }

  lemma AttemptedSound(t: Tables, id: Id, s: Socket, closing: bool, auth: Auth, registered: bool)
    requires Sound(t)
    ensures Sound(Attempted(t, id, s, closing, auth, registered))
  {
  }

  lemma DroppedSound(t: Tables, r: Ref)
    requires Sound(t) && r in t.conns
    ensures Sound(Dropped(t, r))
  {
  }

  lemma DoneSound(t: Tables, r: Ref)
    requires Sound(t) && r in t.conns
    ensures Sound(Completed(t, r)) && Sound(Dropped(Changed(t, r, Lost(t.conns[r])), r))
  {
    DroppedSound(Changed(t, r, Lost(t.conns[r])), r);
  }

  lemma ListsSound(t: Tables, o: Owner)
    requires Sound(t)
    ensures Sound(t.(lists := t.lists[o := []]))
  {
  }

  lemma {:induction false} WhereSound(t: Tables, o: Owner, test: Conn -> bool, n: nat)
    requires Sound(t) && n <= |List(t, o)|
    ensures Sound(DroppedWhere(t, o, test, n))
  {
    hide Sound, Dropped;
    if n > 0 {
      WhereSound(t, o, test, n - 1);
      var t1, e := DroppedWhere(t, o, test, n - 1), List(t, o)[n - 1];
      if e.Some? && e.value in t1.conns {
        DroppedSound(t1, e.value);
      }
    }
  }

  // ---------------------------------------------------------------- a connection that was bound

  /** No id leads to r any more, now or ever: it is bound or gone. */
  ghost predicate Settled(t: Tables, r: Ref) {
    && r < t.next
    && (forall id :: id in t.ids ==> t.ids[id] != r)
    && (r in t.conns ==> t.conns[r].client.Some?)
  }

  /** What becomes of a connection that was bound: it goes, or nothing happens to it, or its peer answers. */
  ghost predicate Moves(t: Tables, t': Tables, r: Ref, answered: bool) {
    && Settled(t', r)
    && (r in t'.conns ==>
          r in t.conns
          && t'.conns[r].client == t.conns[r].client
          && t'.conns[r].stage == (if answered then PeerConnected else t.conns[r].stage)
          && t'.conns[r].connectTimer == (!answered && t.conns[r].connectTimer))
  }

  /** The peer of r answers the connection attempt of the server. */
  predicate Answer(serverId: nat, t: Tables, r: Ref, e: Event) {
    e == PeerDone(r, true) && Possible(serverId, t, e)
  }

  lemma NextMoves(serverId: nat, t: Tables, r: Ref, e: Event)
    requires Settled(t, r)
    ensures Moves(t, Next(serverId, t, e), r, Answer(serverId, t, r, e))
  {
    hide Moves, Settled, Started, Taken, Attempted, Dropped, Changed, DroppedWhere, AnyUsable;
    StillMoves(t, r);
    match e {
      case Start(o, peer, haveRelay, draws, socket) =>
        if Possible(serverId, t, e) { StartedMoves(serverId, t, o, peer, haveRelay, draws, socket, r); }
      case FromPeer(o, peer, s, good, permitted, draws, registered) =>
        if Possible(serverId, t, e) { TakenMoves(serverId, t, o, peer, s, good && permitted, draws, registered, r); }
      case PeerDone(q, success) =>
        if Possible(serverId, t, e) { DoneMoves(t, q, r); }
      case Timeout(q) =>
        if Possible(serverId, t, e) { DroppedMoves(t, q, r); }
      case Bind(id, s, closing, auth, registered) => AttemptedMoves(t, id, s, closing, auth, registered, r);
      case Clear(o) =>
        WhereMoves(t, o, (c: Conn) => true, |List(t, o)|, r);
        ListsMove(t, DroppedWhere(t, o, (c: Conn) => true, |List(t, o)|), o, r);
      case FamilyGone(o, v6, _) => WhereMoves(t, o, (c: Conn) => c.peerS.Some? && c.peer.ip.V6? == v6, |List(t, o)|, r);
    }
  }

  lemma StillMoves(t: Tables, r: Ref)
    requires Settled(t, r)
    ensures Moves(t, t, r, false)
  {
  }

  lemma StartedMoves(serverId: nat, t: Tables, o: Owner, peer: Addr, haveRelay: bool, draws: seq<nat>,
                     socket: Option<Socket>, r: Ref)
    requires Settled(t, r) && AnyUsable(serverId, t.ids, draws)
    ensures Moves(t, Started(serverId, t, o, peer, haveRelay, draws, socket), r, false)
  {
  }

  lemma TakenMoves(serverId: nat, t: Tables, o: Owner, peer: Addr, s: Socket, welcome: bool, draws: seq<nat>,
                   registered: bool, r: Ref)
    requires Settled(t, r) && AnyUsable(serverId, t.ids, draws)
    ensures Moves(t, Taken(serverId, t, o, peer, s, welcome, draws, registered), r, false)
  {
  }

  lemma AttemptedMoves(t: Tables, id: Id, s: Socket, closing: bool, auth: Auth, registered: bool, r: Ref)
    requires Settled(t, r)
    ensures Moves(t, Attempted(t, id, s, closing, auth, registered), r, false)
  {
  }

  lemma DroppedMoves(t: Tables, q: Ref, r: Ref)
    requires Settled(t, r) && q in t.conns
    ensures Moves(t, Dropped(t, q), r, false)
  {
  }

  lemma DoneMoves(t: Tables, q: Ref, r: Ref)
    requires Settled(t, r) && q in t.conns
    ensures Moves(t, Completed(t, q), r, q == r)
    ensures Moves(t, Dropped(Changed(t, q, Lost(t.conns[q])), q), r, false)
  {
  }

  lemma ListsMove(t: Tables, t': Tables, o: Owner, r: Ref)
    requires Moves(t, t', r, false)
    ensures Moves(t, t'.(lists := t'.lists[o := []]), r, false)
  {
  }

  lemma {:induction false} WhereMoves(t: Tables, o: Owner, test: Conn -> bool, n: nat, r: Ref)
    requires Settled(t, r) && n <= |List(t, o)|
    ensures Moves(t, DroppedWhere(t, o, test, n), r, false)
  {
    hide Dropped;
    if n > 0 {
      WhereMoves(t, o, test, n - 1, r);
      var t1, e := DroppedWhere(t, o, test, n - 1), List(t, o)[n - 1];
      if e.Some? && e.value in t1.conns {
        DroppedMoves(t1, e.value, r);
      }
    }
  }

  /** Among some events the peer of r answers. */
  ghost predicate Answered(serverId: nat, t: Tables, r: Ref, events: seq<Event>) {
    exists k :: 0 <= k < |events| && Answer(serverId, Reached(serverId, t, events[..k]), r, events[k])
  }

  lemma AnsweredSnoc(serverId: nat, t: Tables, r: Ref, events: seq<Event>)
    requires events != []
    ensures var before, e := events[..|events| - 1], events[|events| - 1];
            Answered(serverId, t, r, events)
            <==> Answered(serverId, t, r, before) || Answer(serverId, Reached(serverId, t, before), r, e)
  {
    hide Answer, Reached;
    var before := events[..|events| - 1];
    assert forall k :: 0 <= k <= |before| ==> before[..k] == events[..k];
    assert before[..|before|] == before;
  }

  /** In any number of events. */
  lemma {:induction false} ReachedMoves(serverId: nat, t: Tables, r: Ref, events: seq<Event>)
    requires Settled(t, r)
    ensures Moves(t, Reached(serverId, t, events), r, Answered(serverId, t, r, events))
  {
    if events == [] {
      StillMoves(t, r);
    } else {
      var before := events[..|events| - 1];
      ReachedMoves(serverId, t, r, before);
      AnsweredSnoc(serverId, t, r, events);
      hide Answered, Answer;
      NextMoves(serverId, Reached(serverId, t, before), r, events[|events| - 1]);
    }
  }

  // ---------------------------------------------------------------- READY

  /** A bind that is granted. */
  function Granting(id: Id, s: Socket, registered: bool): Event {
    Bind(id, s, false, Granted, registered)
  }

  lemma GrantSettles(serverId: nat, t: Tables, id: Id, s: Socket, registered: bool)
    requires Sound(t) && id in t.ids
    ensures var r, t' := t.ids[id], Next(serverId, t, Granting(id, s, registered));
            && r in t.conns && r in t'.conns && Settled(t', r)
            && t'.conns[r].stage == Ready && t'.conns[r].client == Some(s)
            && t'.conns[r].connectTimer == t.conns[r].connectTimer
  {
  }

  lemma {:induction false} ReachedConcat(serverId: nat, t: Tables, a: seq<Event>, b: seq<Event>)
    ensures Reached(serverId, t, a + b) == Reached(serverId, Reached(serverId, t, a), b)
  {
    hide Next;
    if b == [] {
      assert a + b == a;
    } else {
      assert (a + b)[..|a + b| - 1] == a + b[..|b| - 1];
      ReachedConcat(serverId, t, a, b[..|b| - 1]);
    }
  }

  /** Over every run from empty tables: a connection that was bound and still lives is READY if and only if its peer
      has not answered since the bind. */
  lemma ReadyIff(serverId: nat, before: seq<Event>, id: Id, s: Socket, registered: bool, after: seq<Event>)
    requires var t := Reached(serverId, NONE, before);
             id in t.ids && t.ids[id] in Reached(serverId, NONE, before + [Granting(id, s, registered)] + after).conns
    ensures var t := Reached(serverId, NONE, before);
            var t' := Reached(serverId, NONE, before + [Granting(id, s, registered)]);
            var c := Reached(serverId, NONE, before + [Granting(id, s, registered)] + after).conns[t.ids[id]];
            && c.client == Some(s)
            && (c.stage == Ready <==> !Answered(serverId, t', t.ids[id], after))
  {
    hide Next, Sound, Settled, Answered;
    EmptySound();
    ReachedSound(serverId, NONE, before);
    var t, bind := Reached(serverId, NONE, before), Granting(id, s, registered);
    GrantSettles(serverId, t, id, s, registered);
    assert (before + [bind])[..|before|] == before;
    ReachedConcat(serverId, NONE, before + [bind], after);
    ReachedMoves(serverId, Next(serverId, t, bind), t.ids[id], after);
  }

  lemma EmptySound()
    ensures Sound(NONE)
  {
  }

  /** A granted bind is for good, whatever comes after it, if and only if the server is not waiting for the peer of the
      connection when the client binds it. */
  lemma ReadyForGoodIff(serverId: nat, t: Tables, id: Id, s: Socket, registered: bool)
    requires Sound(t) && id in t.ids
    ensures var r, t' := t.ids[id], Next(serverId, t, Granting(id, s, registered));
            (forall events :: r in Reached(serverId, t', events).conns ==> Reached(serverId, t', events).conns[r].stage == Ready)
            <==> !t.conns[r].connectTimer
  {
    GrantSettles(serverId, t, id, s, registered);
    var r, t' := t.ids[id], Next(serverId, t, Granting(id, s, registered));
    if t.conns[r].connectTimer {
      var events := [PeerDone(r, true)];
      assert events[..0] == [];
      assert Reached(serverId, t', events) == Completed(t', r);
      assert r in Reached(serverId, t', events).conns && Reached(serverId, t', events).conns[r].stage != Ready;
    } else {
      forall events | r in Reached(serverId, t', events).conns
        ensures Reached(serverId, t', events).conns[r].stage == Ready
      {
        ReachedMoves(serverId, t', r, events);
        NoAnswer(serverId, t', r, events);
      }
    }
  }

  lemma NoAnswer(serverId: nat, t: Tables, r: Ref, events: seq<Event>)
    requires Settled(t, r) && (r in t.conns ==> !t.conns[r].connectTimer)
    ensures !Answered(serverId, t, r, events)
  {
    forall k | 0 <= k < |events|
      ensures !Answer(serverId, Reached(serverId, t, events[..k]), r, events[k])
    {
      ReachedMoves(serverId, t, r, events[..k]);
    }
  }

  /** READY is lost for good: no id leads to the connection, so no later bind can give it back. */
  lemma LostForGood(serverId: nat, t: Tables, id: Id, s: Socket, registered: bool, events: seq<Event>)
    requires Sound(t) && id in t.ids && t.conns[t.ids[id]].connectTimer
    requires var early := [Granting(id, s, registered), PeerDone(t.ids[id], true)];
             t.ids[id] in Reached(serverId, t, early + events).conns
    ensures var early := [Granting(id, s, registered), PeerDone(t.ids[id], true)];
            && Reached(serverId, t, early + events).conns[t.ids[id]].stage == PeerConnected
            && Reached(serverId, t, early + events).conns[t.ids[id]].client == Some(s)
  {
    GrantSettles(serverId, t, id, s, registered);
    var r, early := t.ids[id], [Granting(id, s, registered), PeerDone(t.ids[id], true)];
    assert early[..1][..0] == [] && early[..1] == [early[0]];
    var t1 := Next(serverId, t, early[0]);
    assert Reached(serverId, t, early[..1]) == t1;
    assert Reached(serverId, t, early) == Completed(t1, r);
    hide Next, Reached;
    ReachedConcat(serverId, t, early, events);
    DoneMoves(t1, r, r);
    ReachedMoves(serverId, Completed(t1, r), r, events);
  }

  /** The shortest such run: CONNECT, then a bind with the id before the peer has answered, then the answer. */
  lemma EarlyBindIsUndone(serverId: nat, peer: Addr)
    requires !peer.ip.NoFamily?
    ensures var id := 5 + serverId * ID_MASK;
            var events := [Start(0, peer, true, [5], Some(7)), Granting(id, 8, true), PeerDone(0, true)];
            var c := NewConn(0, peer, id).(peerS := Some(7), client := Some(8));
            && Reached(serverId, NONE, events[..1]).ids == map[id := 0]
            && Reached(serverId, NONE, events[..2]).conns == map[0 := c.(stage := Ready, connectTimer := true)]
            && Reached(serverId, NONE, events).conns == map[0 := c.(stage := PeerConnected, bindTimer := true)]
            && Reached(serverId, NONE, events).ids == map[]
  {
    var id := 5 + serverId * ID_MASK;
    var e := [Start(0, peer, true, [5], Some(7)), Granting(id, 8, true), PeerDone(0, true)];
    var t1, t2 := EarlyBind(serverId, peer, id);
    hide *;
    assert e[..1][..0] == [] && e[..2][..1] == e[..1] && e[..3] == e && e[..3][..2] == e[..2];
    ReachedOne(serverId, e, 0);
    ReachedOne(serverId, e, 1);
    ReachedOne(serverId, e, 2);
  }

  lemma ReachedOne(serverId: nat, events: seq<Event>, k: nat)
    requires k < |events|
    ensures events[..0] == [] && Reached(serverId, NONE, []) == NONE
    ensures Reached(serverId, NONE, events[..k + 1]) == Next(serverId, Reached(serverId, NONE, events[..k]), events[k])
  {
    assert events[..k + 1][..k] == events[..k];
  }

  lemma EarlyBind(serverId: nat, peer: Addr, id: Id) returns (t1: Tables, t2: Tables)
    requires !peer.ip.NoFamily? && id == 5 + serverId * ID_MASK
    ensures t1 == Next(serverId, NONE, Start(0, peer, true, [5], Some(7))) && t2 == Next(serverId, t1, Granting(id, 8, true))
    ensures var c, t3 := NewConn(0, peer, id).(peerS := Some(7), client := Some(8)), Next(serverId, t2, PeerDone(0, true));
            && t1.ids == map[id := 0] && t2.ids == map[] && t2.next == 1
            && t2.conns == map[0 := c.(stage := Ready, connectTimer := true)]
            && t3.conns == map[0 := c.(stage := PeerConnected, bindTimer := true)] && t3.ids == map[]
  {
    assert Usable(serverId, NONE.ids, [5][0]) && IdOf(serverId, 5) == id;
    t1 := Next(serverId, NONE, Start(0, peer, true, [5], Some(7)));
    assert t1.ids == map[id := 0] && t1.conns == map[0 := NewConn(0, peer, id).(connectTimer := true, stage := Connecting, peerS := Some(7))];
    t2 := Next(serverId, t1, Granting(id, 8, true));
    hide Started;
  }
}
