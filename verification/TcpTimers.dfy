/** Whole runs of the TCP relay: every connection that no client has bound yet is waiting for something that ends. */
module TcpTimers {
  import opened Options
  import opened Slots
  import opened IoAddr
  import opened TcpConnections
  import opened TcpServer

  /** A connection without a client socket waits for its peer exactly while it is Connecting, and for a bind exactly
      while it is PeerConnected; it has a peer socket in either case. */
  ghost predicate Waiting(c: Conn) {
    c.client.None? ==>
      && (c.stage == Connecting <==> c.connectTimer)
      && (c.stage == PeerConnected <==> c.bindTimer)
      && (c.connectTimer || c.bindTimer <==> c.peerS.Some?)
      && c.stage != Ready && c.stage != Failed
  }

  ghost predicate AllWaiting(t: Tables) {
    forall r :: r in t.conns ==> Waiting(t.conns[r])
  }

  /** Over every run. */
  lemma {:induction false} ReachedWaiting(serverId: nat, events: seq<Event>)
    ensures AllWaiting(Reached(serverId, NONE, events))
  {
    hide Next, Waiting;
    if events != [] {
      ReachedWaiting(serverId, events[..|events| - 1]);
      NextWaiting(serverId, Reached(serverId, NONE, events[..|events| - 1]), events[|events| - 1]);
    }
  }

  lemma NextWaiting(serverId: nat, t: Tables, e: Event)
    requires AllWaiting(t)
    ensures AllWaiting(Next(serverId, t, e))
  {
    hide AllWaiting, Waiting, Started, Taken, Attempted, Dropped, Changed, DroppedWhere, AnyUsable, Lost, Completed;
    match e {
      case Start(o, peer, haveRelay, draws, socket) =>
        if Possible(serverId, t, e) { StartedWaiting(serverId, t, o, peer, haveRelay, draws, socket); }
      case FromPeer(o, peer, s, good, permitted, draws, registered) =>
        if Possible(serverId, t, e) { TakenWaiting(serverId, t, o, peer, s, good && permitted, draws, registered); }
      case PeerDone(r, success) =>
        if Possible(serverId, t, e) { DoneWaiting(t, r); }
      case Timeout(r) =>
        if Possible(serverId, t, e) { DroppedWaiting(t, r); }
      case Bind(id, s, closing, auth, registered) => AttemptedWaiting(t, id, s, closing, auth, registered);
      case Clear(o) =>
        WhereWaiting(t, o, (c: Conn) => true, |List(t, o)|);
        ListsWaiting(DroppedWhere(t, o, (c: Conn) => true, |List(t, o)|), o);
      case FamilyGone(o, v6, _) => WhereWaiting(t, o, (c: Conn) => c.peerS.Some? && c.peer.ip.V6? == v6, |List(t, o)|);
    }
  }

  lemma StartedWaiting(serverId: nat, t: Tables, o: Owner, peer: Addr, haveRelay: bool, draws: seq<nat>,
                       socket: Option<Socket>)
    requires AllWaiting(t) && AnyUsable(serverId, t.ids, draws)
    ensures AllWaiting(Started(serverId, t, o, peer, haveRelay, draws, socket))
  {
    hide AnyUsable, DrawnId, HasPeer, List, Place, Hole;
  }

  lemma TakenWaiting(serverId: nat, t: Tables, o: Owner, peer: Addr, s: Socket, welcome: bool, draws: seq<nat>,
                     registered: bool)
    requires AllWaiting(t) && AnyUsable(serverId, t.ids, draws)
    ensures AllWaiting(Taken(serverId, t, o, peer, s, welcome, draws, registered))
  {
    hide AnyUsable, DrawnId, HasPeer, List, Place, Hole;
  }

  lemma AttemptedWaiting(t: Tables, id: Id, s: Socket, closing: bool, auth: Auth, registered: bool)
    requires AllWaiting(t)
    ensures AllWaiting(Attempted(t, id, s, closing, auth, registered))
  {
  }

  lemma DroppedWaiting(t: Tables, r: Ref)
    requires AllWaiting(t) && r in t.conns
    ensures AllWaiting(Dropped(t, r))
  {
    hide Waiting, List, Place;
  }

  lemma DoneWaiting(t: Tables, r: Ref)
    requires AllWaiting(t) && r in t.conns && t.conns[r].connectTimer
    ensures AllWaiting(Completed(t, r)) && AllWaiting(Dropped(Changed(t, r, Lost(t.conns[r])), r))
  {
    hide List, Place;
  }

  lemma ListsWaiting(t: Tables, o: Owner)
    requires AllWaiting(t)
    ensures AllWaiting(t.(lists := t.lists[o := []]))
  {
  }

  lemma {:induction false} WhereWaiting(t: Tables, o: Owner, test: Conn -> bool, n: nat)
    requires AllWaiting(t) && n <= |List(t, o)|
    ensures AllWaiting(DroppedWhere(t, o, test, n))
  {
    hide AllWaiting, Dropped, List;
    if n > 0 {
      WhereWaiting(t, o, test, n - 1);
      var t1, e := DroppedWhere(t, o, test, n - 1), List(t, o)[n - 1];
      if e.Some? && e.value in t1.conns {
        DroppedWaiting(t1, e.value);
      }
    }
  }

  /** So no connection with a peer socket can stay for good without a client: one of the two timers is possible, which
      deletes it or makes it wait for its bind. */
  lemma Reclaimed(serverId: nat, events: seq<Event>, r: Ref)
    requires var t := Reached(serverId, NONE, events);
             r in t.conns && t.conns[r].client.None? && t.conns[r].peerS.Some?
    ensures var t := Reached(serverId, NONE, events);
            || (Possible(serverId, t, Timeout(r)) && r !in Next(serverId, t, Timeout(r)).conns)
            || (Possible(serverId, t, PeerDone(r, false)) && r !in Next(serverId, t, PeerDone(r, false)).conns)
  {
    hide Reached, List, Place;
    ReachedWaiting(serverId, events);
  }
}
