/** Whole runs of the TCP relay: when every connection can still be found by the id that its client was told. */
module TcpIds {
  import opened Options
  import opened Slots
  import opened IoAddr
  import opened TcpConnections
  import opened TcpServer
  import opened TcpRuns

  // ---------------------------------------------------------------- the invariant over runs of the machine

  lemma {:induction false} ReachedInv(serverId: nat, t: Tables, events: seq<Event>)
    requires Inv(t)
    ensures Inv(Reached(serverId, t, events))
  {
    hide Inv, Next;
    if events != [] {
      ReachedInv(serverId, t, events[..|events| - 1]);
      NextInv(serverId, Reached(serverId, t, events[..|events| - 1]), events[|events| - 1]);
    }
  }

  lemma NextInv(serverId: nat, t: Tables, e: Event)
    requires Inv(t)
    ensures Inv(Next(serverId, t, e))
  {
    hide Inv, Started, Taken, Attempted, Completed, Dropped, Changed, DroppedWhere, AnyUsable, Lost;
    match e {
      case Start(o, peer, haveRelay, draws, socket) =>
        if Possible(serverId, t, e) { StartedInv(serverId, t, o, peer, haveRelay, draws, socket); }
      case FromPeer(o, peer, s, good, permitted, draws, registered) =>
        if Possible(serverId, t, e) { TakenInv(serverId, t, o, peer, s, good && permitted, draws, registered); }
      case PeerDone(r, success) =>
        if Possible(serverId, t, e) { DoneInv(t, r); }
      case Timeout(r) =>
        if Possible(serverId, t, e) { DropOk(t, r); }
      case Bind(id, s, closing, auth, registered) => AttemptedInv(t, id, s, closing, auth, registered);
      case Clear(o) => ClearedInv(t, o);
      case FamilyGone(o, v6, _) => WhereKept(t, o, (c: Conn) => c.peerS.Some? && c.peer.ip.V6? == v6, |List(t, o)|);
    }
  }

  lemma DrawnIsUsable(serverId: nat, ids: map<Id, Ref>, draws: seq<nat>)
    requires AnyUsable(serverId, ids, draws)
    ensures DrawnId(serverId, ids, draws) != 0 && DrawnId(serverId, ids, draws) !in ids
  {
  }

  lemma StartedInv(serverId: nat, t: Tables, o: Owner, peer: Addr, haveRelay: bool, draws: seq<nat>, socket: Option<Socket>)
    requires Inv(t) && AnyUsable(serverId, t.ids, draws) && !peer.ip.NoFamily?
    ensures Inv(Started(serverId, t, o, peer, haveRelay, draws, socket))
  {
    hide Inv, DrawnId, AnyUsable;
    if haveRelay && !HasPeer(t, o, peer) {
      var id := DrawnId(serverId, t.ids, draws);
      DrawnIsUsable(serverId, t.ids, draws);
      AddOk(t, o, peer, id);
      var c := NewConn(o, peer, id).(connectTimer := true);
      ChangeOk(Added(t, o, peer, id), t.next, c);
      ChangeOk(Added(t, o, peer, id), t.next, c.(stage := Connecting, peerS := socket));
      DropOk(Changed(Added(t, o, peer, id), t.next, c), t.next);
    }
  }

  lemma TakenInv(serverId: nat, t: Tables, o: Owner, peer: Addr, s: Socket, welcome: bool, draws: seq<nat>, registered: bool)
    requires Inv(t) && AnyUsable(serverId, t.ids, draws) && !peer.ip.NoFamily?
    ensures Inv(Taken(serverId, t, o, peer, s, welcome, draws, registered))
  {
    hide Inv, DrawnId, AnyUsable;
    if welcome && !HasPeer(t, o, peer) {
      var id := DrawnId(serverId, t.ids, draws);
      DrawnIsUsable(serverId, t.ids, draws);
      AddOk(t, o, peer, id);
      var c := NewConn(o, peer, id);
      ChangeOk(Added(t, o, peer, id), t.next,
               if registered then c.(stage := PeerConnected, peerS := Some(s), bindTimer := true) else c);
    }
  }

  lemma DoneInv(t: Tables, r: Ref)
    requires Inv(t) && r in t.conns
    ensures Inv(Completed(t, r)) && Inv(Dropped(Changed(t, r, Lost(t.conns[r])), r))
  {
    hide Inv, Dropped;
    ChangeOk(t, r, t.conns[r].(stage := PeerConnected, connectTimer := false, bindTimer := true));
    ChangeOk(t, r, Lost(t.conns[r]));
    DropOk(Changed(t, r, Lost(t.conns[r])), r);
  }

  lemma AttemptedInv(t: Tables, id: Id, s: Socket, closing: bool, auth: Auth, registered: bool)
    requires Inv(t)
    ensures Inv(Attempted(t, id, s, closing, auth, registered))
  {
    hide Inv, Bound;
    ForgetOk(t, id);
    if id in t.ids {
      LiveId(t, id);
      BindOk(t, t.ids[id], s, !registered && t.conns[t.ids[id]].bindTimer);
    }
  }

  /** The connections of an allocation that are deleted, and those that are not. */
  lemma {:induction false} WhereKept(t: Tables, o: Owner, test: Conn -> bool, n: nat)
    requires Inv(t) && n <= |List(t, o)|
    ensures var t1 := DroppedWhere(t, o, test, n);
            && Inv(t1) && Kept(t, t1, o, n, test) && |List(t1, o)| == |List(t, o)|
            && forall j :: n <= j < |List(t, o)| ==> List(t1, o)[j] == List(t, o)[j]
  {
    hide Inv, Kept, List, Dropped;
    if n == 0 {
      NothingDropped(t, o, test);
    } else {
      WhereKept(t, o, test, n - 1);
      var t1, e := DroppedWhere(t, o, test, n - 1), List(t, o)[n - 1];
      if e.Some? {
        EntryLive(t1, o, n - 1);
        DropOk(t1, e.value);
      }
      StepKept(t, t1, DroppedWhere(t, o, test, n), o, n - 1, test);
    }
  }

  lemma ClearedInv(t: Tables, o: Owner)
    requires Inv(t)
    ensures Inv(Cleared(t, o))
    ensures forall r :: r in t.conns ==> (r in Cleared(t, o).conns <==> t.conns[r].owner != o)
  {
    hide Inv, Kept, List, DroppedWhere;
    var t1 := DroppedWhere(t, o, (c: Conn) => true, |List(t, o)|);
    WhereKept(t, o, (c: Conn) => true, |List(t, o)|);
    AllKept(t, t1, o, |List(t, o)|, (c: Conn) => true);
    EmptyOk(t1, o);
  }

  // ---------------------------------------------------------------- deletions

  /** The event deletes the connection. */
  predicate Deletes(serverId: nat, t: Tables, e: Event, r: Ref)
    requires r in t.conns
  {
    Possible(serverId, t, e) &&
    match e
    case PeerDone(q, success) => q == r && !success
    case Timeout(q) => q == r
    case Clear(o) => t.conns[r].owner == o
    case FamilyGone(o, v6, haveRelay) =>
      haveRelay && t.conns[r].owner == o && t.conns[r].peerS.Some? && t.conns[r].peer.ip.V6? == v6
    case _ => false
  }

  /** From t to t' connections have gone, and with each of them the entry of its id, whosever that is. */
  ghost predicate Erases(t: Tables, t': Tables) {
    && (forall r :: r in t'.conns ==> r in t.conns && t'.conns[r] == t.conns[r])
    && (forall id :: id in t'.ids ==> id in t.ids && t'.ids[id] == t.ids[id])
    && (forall id :: id in t.ids ==>
          (id !in t'.ids <==> exists r :: r in t.conns && r !in t'.conns && t.conns[r].id == id))
  }

  lemma DroppedErases(t: Tables, t1: Tables, r: Ref)
    requires Erases(t, t1) && r in t1.conns
    ensures Erases(t, Dropped(t1, r)) && Dropped(t1, r).conns == t1.conns - {r}
  {
    hide List, Place;
    var t2, c := Dropped(t1, r), t1.conns[r];
    assert t2.ids == t1.ids - {c.id} && t2.conns == t1.conns - {r};
    forall id | id in t.ids
      ensures id !in t2.ids <==> exists q :: q in t.conns && q !in t2.conns && t.conns[q].id == id
    {
      if id !in t2.ids {
        if id !in t1.ids {
          var q :| q in t.conns && q !in t1.conns && t.conns[q].id == id;
          assert q !in t2.conns;
        } else {
          assert r in t.conns && r !in t2.conns && t.conns[r].id == id;
        }
      }
      if q :| q in t.conns && q !in t2.conns && t.conns[q].id == id {
        assert q == r || q !in t1.conns;
      }
    }
  }

  lemma {:induction false} WhereErases(t: Tables, o: Owner, test: Conn -> bool, n: nat)
    requires n <= |List(t, o)|
    ensures Erases(t, DroppedWhere(t, o, test, n))
  {
    hide Dropped, List;
    if n > 0 {
      WhereErases(t, o, test, n - 1);
      hide Erases;
      var t1, e := DroppedWhere(t, o, test, n - 1), List(t, o)[n - 1];
      if e.Some? && e.value in t1.conns {
        DroppedErases(t, t1, e.value);
      }
    }
  }

  lemma LostErases(t: Tables, r: Ref)
    requires r in t.conns
    ensures Erases(t, Dropped(Changed(t, r, Lost(t.conns[r])), r))
    ensures Dropped(Changed(t, r, Lost(t.conns[r])), r).conns == t.conns - {r}
  {
    hide List, Place;
  }

  /** The four events that delete connections. */
  predicate Deletion(e: Event) {
    (e.PeerDone? && !e.success) || e.Timeout? || e.Clear? || (e.FamilyGone? && e.haveRelay)
  }

  lemma DeletionErases(serverId: nat, t: Tables, e: Event)
    requires Inv(t) && Deletion(e) && Possible(serverId, t, e)
    ensures Erases(t, Next(serverId, t, e))
    ensures forall r :: r in t.conns ==> (r !in Next(serverId, t, e).conns <==> Deletes(serverId, t, e, r))
  {
    hide Inv, Dropped, Changed, DroppedWhere, Kept, List;
    match e {
      case PeerDone(r, _) => LostErases(t, r);
      case Timeout(r) =>
        assert Erases(t, t);
        DroppedErases(t, t, r);
      case Clear(o) =>
        WhereErases(t, o, (c: Conn) => true, |List(t, o)|);
        ClearedInv(t, o);
      case FamilyGone(o, v6, _) =>
        var test := (c: Conn) => c.peerS.Some? && c.peer.ip.V6? == v6;
        WhereErases(t, o, test, |List(t, o)|);
        WhereKept(t, o, test, |List(t, o)|);
        AllKept(t, DroppedWhere(t, o, test, |List(t, o)|), o, |List(t, o)|, test);
    }
  }

  // ---------------------------------------------------------------- which connections can be found

  /** The connections that a bind attempt, other than a postponed one, has reached by their id. */
  function Reaches(serverId: nat, t: Tables, e: Event): set<Ref> {
    if e.Bind? && Possible(serverId, t, e) && e.id != 0 && e.id in t.ids && (e.closing || !e.auth.Postponed?) then
      {t.ids[e.id]}
    else {}
  }

  function Tried(serverId: nat, events: seq<Event>): set<Ref> {
    if events == [] then {}
    else
      var before, e := events[..|events| - 1], events[|events| - 1];
      Tried(serverId, before) + Reaches(serverId, Reached(serverId, NONE, before), e)
  }

  /** Every connection that no bind attempt has reached is in the id map. */
  ghost predicate Found(t: Tables, tried: set<Ref>) {
    forall r :: r in t.conns && r !in tried ==> t.conns[r].id in t.ids && t.ids[t.conns[r].id] == r
  }

  /** And those that one has reached are not. */
  ghost predicate UsedUp(t: Tables, tried: set<Ref>) {
    && (forall id :: id in t.ids ==> t.ids[id] !in tried)
    && (forall r :: r in tried ==> r < t.next)
  }

  /** The event deletes a connection whose id leads to another one, which stays. */
  ghost predicate Steals(serverId: nat, t: Tables, e: Event) {
    exists r, q :: r in t.conns && q in t.conns && Deletes(serverId, t, e, r) && !Deletes(serverId, t, e, q)
                   && t.conns[r].id in t.ids && t.ids[t.conns[r].id] == q
  }

  /** Each event keeps the connections to be found if and only if it does not delete one whose id leads to another. */
  lemma StepFoundIff(serverId: nat, t: Tables, tried: set<Ref>, e: Event)
    requires Inv(t) && Found(t, tried) && UsedUp(t, tried)
    ensures UsedUp(Next(serverId, t, e), tried + Reaches(serverId, t, e))
    ensures Found(Next(serverId, t, e), tried + Reaches(serverId, t, e)) <==> !Steals(serverId, t, e)
  {
    InvFacts(t);
    hide Inv, Leads, Found, UsedUp, Steals, Next, Reaches;
    if Possible(serverId, t, e) && Deletion(e) {
      DeletionErases(serverId, t, e);
      NextNext(serverId, t, e);
      ErasedFound(serverId, t, tried, e);
    } else {
      OtherFound(serverId, t, tried, e);
      OtherStealsNone(serverId, t, e);
    }
  }

  lemma OtherStealsNone(serverId: nat, t: Tables, e: Event)
    requires !Possible(serverId, t, e) || !Deletion(e)
    ensures !Steals(serverId, t, e)
  {
  }

  lemma OtherFound(serverId: nat, t: Tables, tried: set<Ref>, e: Event)
    requires Leads(t) && Found(t, tried) && UsedUp(t, tried) && (!Possible(serverId, t, e) || !Deletion(e))
    ensures Found(Next(serverId, t, e), tried + Reaches(serverId, t, e))
    ensures UsedUp(Next(serverId, t, e), tried + Reaches(serverId, t, e))
  {
    assert !e.Bind? || !Possible(serverId, t, e) ==> tried + Reaches(serverId, t, e) == tried;
    hide Leads, Found, UsedUp, Started, Taken, Attempted, Completed, Reaches;
    if Possible(serverId, t, e) {
      match e {
        case Start(o, peer, haveRelay, draws, socket) =>
          StartedFound(serverId, t, tried, o, peer, haveRelay, draws, socket);
        case FromPeer(o, peer, s, good, permitted, draws, registered) =>
          TakenFound(serverId, t, tried, o, peer, s, good && permitted, draws, registered);
        case PeerDone(r, _) => CompletedFound(t, tried, r);
        case Bind(id, s, closing, auth, registered) =>
          AttemptedFound(serverId, t, tried, id, s, closing, auth, registered);
        case FamilyGone(_, _, _) =>
      }
    }
  }

  /** What is used of the invariant here. */
  ghost predicate Leads(t: Tables) {
    && (forall r :: r in t.conns ==> r < t.next)
    && (forall id :: id in t.ids ==> id != 0 && t.ids[id] in t.conns && t.conns[t.ids[id]].id == id)
    && (forall id :: id in t.ids ==> t.conns[t.ids[id]].client.None? && t.conns[t.ids[id]].stage != Ready)
  }

  lemma InvFacts(t: Tables)
    requires Inv(t)
    ensures Leads(t)
  {
  }

  lemma NextNext(serverId: nat, t: Tables, e: Event)
    requires Deletion(e)
    ensures Next(serverId, t, e).next == t.next
  {
    hide Inv, DroppedWhere, List, Place;
    match e {
      case Clear(o) => WhereNext(t, o, (c: Conn) => true, |List(t, o)|);
      case FamilyGone(o, v6, _) => WhereNext(t, o, (c: Conn) => c.peerS.Some? && c.peer.ip.V6? == v6, |List(t, o)|);
      case _ =>
    }
  }

  lemma {:induction false} WhereNext(t: Tables, o: Owner, test: Conn -> bool, n: nat)
    requires n <= |List(t, o)|
    ensures DroppedWhere(t, o, test, n).next == t.next
  {
    hide List, Place;
    if n > 0 {
      WhereNext(t, o, test, n - 1);
    }
  }

  lemma ErasedFound(serverId: nat, t: Tables, tried: set<Ref>, e: Event)
    requires Leads(t) && Found(t, tried) && UsedUp(t, tried) && Deletion(e)
    requires var t' := Next(serverId, t, e);
             Erases(t, t') && t'.next == t.next && forall r :: r in t.conns ==> (r !in t'.conns <==> Deletes(serverId, t, e, r))
    ensures UsedUp(Next(serverId, t, e), tried + Reaches(serverId, t, e))
    ensures Found(Next(serverId, t, e), tried + Reaches(serverId, t, e)) <==> !Steals(serverId, t, e)
  {
    var t' := Next(serverId, t, e);
    assert tried + Reaches(serverId, t, e) == tried;
    hide Next, Deletes;
    if Steals(serverId, t, e) {
      StolenLost(serverId, t, t', tried, e);
    } else {
      KeptFound(serverId, t, t', tried, e);
    }
  }

  lemma StolenLost(serverId: nat, t: Tables, t': Tables, tried: set<Ref>, e: Event)
    requires Leads(t) && UsedUp(t, tried) && Steals(serverId, t, e) && Erases(t, t')
    requires forall r :: r in t.conns ==> (r !in t'.conns <==> Deletes(serverId, t, e, r))
    ensures !Found(t', tried)
  {
    hide Deletes;
    var r, q :| r in t.conns && q in t.conns && Deletes(serverId, t, e, r) && !Deletes(serverId, t, e, q)
                && t.conns[r].id in t.ids && t.ids[t.conns[r].id] == q;
    assert q in t'.conns && q !in tried && t'.conns[q].id == t.conns[r].id;
    assert t.conns[r].id !in t'.ids;
  }

  lemma KeptFound(serverId: nat, t: Tables, t': Tables, tried: set<Ref>, e: Event)
    requires Leads(t) && Found(t, tried) && !Steals(serverId, t, e) && Erases(t, t')
    requires forall r :: r in t.conns ==> (r !in t'.conns <==> Deletes(serverId, t, e, r))
    ensures Found(t', tried)
  {
    hide Deletes;
    forall q | q in t'.conns && q !in tried
      ensures t'.conns[q].id in t'.ids && t'.ids[t'.conns[q].id] == q
    {
      var id := t.conns[q].id;
      assert !Deletes(serverId, t, e, q) && id in t.ids && t.ids[id] == q;
      forall r | r in t.conns && t.conns[r].id == id
        ensures r in t'.conns
      {
        assert !Deletes(serverId, t, e, r);
      }
    }
  }

  lemma StartedFound(serverId: nat, t: Tables, tried: set<Ref>, o: Owner, peer: Addr, haveRelay: bool, draws: seq<nat>,
                     socket: Option<Socket>)
    requires Leads(t) && AnyUsable(serverId, t.ids, draws) && Found(t, tried) && UsedUp(t, tried)
    ensures var t' := Started(serverId, t, o, peer, haveRelay, draws, socket); Found(t', tried) && UsedUp(t', tried)
  {
    hide DrawnId, List, Place, Hole;
    DrawnIsUsable(serverId, t.ids, draws);
  }

  lemma TakenFound(serverId: nat, t: Tables, tried: set<Ref>, o: Owner, peer: Addr, s: Socket, welcome: bool,
                   draws: seq<nat>, registered: bool)
    requires Leads(t) && AnyUsable(serverId, t.ids, draws) && Found(t, tried) && UsedUp(t, tried)
    ensures var t' := Taken(serverId, t, o, peer, s, welcome, draws, registered); Found(t', tried) && UsedUp(t', tried)
  {
    hide DrawnId, List, Place, Hole;
    DrawnIsUsable(serverId, t.ids, draws);
  }

  lemma CompletedFound(t: Tables, tried: set<Ref>, r: Ref)
    requires r in t.conns && Found(t, tried) && UsedUp(t, tried)
    ensures Found(Completed(t, r), tried) && UsedUp(Completed(t, r), tried)
  {
  }

  lemma AttemptedFound(serverId: nat, t: Tables, tried: set<Ref>, id: Id, s: Socket, closing: bool, auth: Auth,
                       registered: bool)
    requires Leads(t) && Found(t, tried) && UsedUp(t, tried)
    requires Possible(serverId, t, Bind(id, s, closing, auth, registered))
    ensures var t' := Attempted(t, id, s, closing, auth, registered);
            var now := tried + Reaches(serverId, t, Bind(id, s, closing, auth, registered));
            Found(t', now) && UsedUp(t', now)
  {
  }

  /** At every moment of a run every connection that no bind attempt has reached is in the id map. */
  ghost predicate AlwaysFound(serverId: nat, events: seq<Event>) {
    forall k :: 0 <= k <= |events| ==> Found(Reached(serverId, NONE, events[..k]), Tried(serverId, events[..k]))
  }

  ghost predicate NoneStolen(serverId: nat, events: seq<Event>) {
    forall k :: 0 <= k < |events| ==> !Steals(serverId, Reached(serverId, NONE, events[..k]), events[k])
  }

  /** Over every run from empty tables: every live connection that no bind attempt has reached is in the id map at each
      moment if and only if no event deletes a connection whose id leads to another one. */
  lemma {:induction false} RunFoundIff(serverId: nat, events: seq<Event>)
    ensures AlwaysFound(serverId, events) <==> NoneStolen(serverId, events)
    ensures AlwaysFound(serverId, events) ==> UsedUp(Reached(serverId, NONE, events), Tried(serverId, events))
  {
    hide Inv, Found, UsedUp, Steals, Next, AlwaysFound, NoneStolen, Reaches;
    NoneFound(serverId);
    if events != [] {
      var before, e := events[..|events| - 1], events[|events| - 1];
      RunFoundIff(serverId, before);
      FoundLonger(serverId, events);
      var t := Reached(serverId, NONE, before);
      if AlwaysFound(serverId, before) {
        ReachedInv(serverId, NONE, before);
        StepFoundIff(serverId, t, Tried(serverId, before), e);
      }
    }
  }

  lemma NoneFound(serverId: nat)
    ensures AlwaysFound(serverId, []) && NoneStolen(serverId, []) && UsedUp(NONE, {}) && Inv(NONE)
  {
  }

  lemma FoundLonger(serverId: nat, events: seq<Event>)
    requires events != []
    ensures var before, e := events[..|events| - 1], events[|events| - 1];
            && (AlwaysFound(serverId, events) <==>
                  AlwaysFound(serverId, before) && Found(Reached(serverId, NONE, events), Tried(serverId, events)))
            && (NoneStolen(serverId, events) <==>
                  NoneStolen(serverId, before) && !Steals(serverId, Reached(serverId, NONE, before), e))
            && (AlwaysFound(serverId, before) ==> Found(Reached(serverId, NONE, before), Tried(serverId, before)))
  {
    hide Found, Steals, Reached, Tried;
    var before := events[..|events| - 1];
    assert forall k :: 0 <= k <= |before| ==> events[..k] == before[..k];
    assert events[..|events|] == events && before[..|before|] == before;
  }

  // ---------------------------------------------------------------- ids that are drawn again

  ghost predicate IdsDiffer(t: Tables) {
    forall r, q :: r in t.conns && q in t.conns && r != q ==> t.conns[r].id != t.conns[q].id
  }

  /** The event makes a connection, which stays, with an id that a live connection still carries. */
  predicate DrawsAgain(serverId: nat, t: Tables, e: Event) {
    && Possible(serverId, t, e)
    && (match e
        case Start(o, peer, haveRelay, draws, socket) =>
          haveRelay && !HasPeer(t, o, peer) && socket.Some? && Carried(t, DrawnId(serverId, t.ids, draws))
        case FromPeer(o, peer, _, good, permitted, draws, _) =>
          good && permitted && !HasPeer(t, o, peer) && Carried(t, DrawnId(serverId, t.ids, draws))
        case _ => false)
  }

  predicate Carried(t: Tables, id: Id) {
    exists r :: r in t.conns && t.conns[r].id == id
  }

  /** What a new connection, a change or a deletion does to the ids that connections carry. */
  lemma StepDifferIff(serverId: nat, t: Tables, e: Event)
    requires Inv(t) && IdsDiffer(t)
    ensures IdsDiffer(Next(serverId, t, e)) <==> !DrawsAgain(serverId, t, e)
  {
    InvFacts(t);
    hide Inv, IdsDiffer, Carried, Leads, Started, Taken, Attempted, Completed, DrawnId, AnyUsable, HasPeer;
    if Possible(serverId, t, e) {
      if Deletion(e) {
        DeletionErases(serverId, t, e);
        hide Next;
        ErasedDiffer(t, Next(serverId, t, e));
      } else {
        match e {
          case Start(o, peer, haveRelay, draws, socket) =>
            StartedDiffer(serverId, t, o, peer, haveRelay, draws, socket);
          case FromPeer(o, peer, s, good, permitted, draws, registered) =>
            TakenDiffer(serverId, t, o, peer, s, good && permitted, draws, registered);
          case PeerDone(r, _) => SameDiffer(t, Completed(t, r)) by { CompletedSame(t, r); }
          case Bind(id, s, closing, auth, registered) =>
            SameDiffer(t, Attempted(t, id, s, closing, auth, registered)) by {
              AttemptedSame(t, id, s, closing, auth, registered);
            }
          case FamilyGone(_, _, _) =>
        }
      }
    }
  }

  ghost predicate SameIds(t: Tables, t': Tables) {
    t'.conns.Keys == t.conns.Keys && forall r :: r in t.conns ==> t'.conns[r].id == t.conns[r].id
  }

  lemma SameDiffer(t: Tables, t': Tables)
    requires IdsDiffer(t) && SameIds(t, t')
    ensures IdsDiffer(t')
  {
  }

  lemma ErasedDiffer(t: Tables, t': Tables)
    requires IdsDiffer(t) && Erases(t, t')
    ensures IdsDiffer(t')
  {
  }

  lemma CompletedSame(t: Tables, r: Ref)
    requires r in t.conns
    ensures SameIds(t, Completed(t, r))
  {
  }

  lemma AttemptedSame(t: Tables, id: Id, s: Socket, closing: bool, auth: Auth, registered: bool)
    ensures SameIds(t, Attempted(t, id, s, closing, auth, registered))
  {
  }

  lemma StartedDiffer(serverId: nat, t: Tables, o: Owner, peer: Addr, haveRelay: bool, draws: seq<nat>,
                      socket: Option<Socket>)
    requires Leads(t) && IdsDiffer(t) && AnyUsable(serverId, t.ids, draws)
    ensures IdsDiffer(Started(serverId, t, o, peer, haveRelay, draws, socket)) <==>
            !(haveRelay && !HasPeer(t, o, peer) && socket.Some? && Carried(t, DrawnId(serverId, t.ids, draws)))
  {
    hide DrawnId, AnyUsable, List, Place, Hole, HasPeer, IdsDiffer, Carried;
    if haveRelay && !HasPeer(t, o, peer) {
      MadeDiffer(t, Started(serverId, t, o, peer, haveRelay, draws, socket), DrawnId(serverId, t.ids, draws), socket.Some?);
    }
  }

  lemma TakenDiffer(serverId: nat, t: Tables, o: Owner, peer: Addr, s: Socket, welcome: bool, draws: seq<nat>,
                    registered: bool)
    requires Leads(t) && IdsDiffer(t) && AnyUsable(serverId, t.ids, draws)
    ensures IdsDiffer(Taken(serverId, t, o, peer, s, welcome, draws, registered)) <==>
            !(welcome && !HasPeer(t, o, peer) && Carried(t, DrawnId(serverId, t.ids, draws)))
  {
    hide DrawnId, AnyUsable, List, Place, Hole, HasPeer, IdsDiffer, Carried;
    if welcome && !HasPeer(t, o, peer) {
      MadeDiffer(t, Taken(serverId, t, o, peer, s, welcome, draws, registered), DrawnId(serverId, t.ids, draws), true);
    }
  }

  lemma MadeDiffer(t: Tables, t': Tables, id: Id, stays: bool)
    requires IdsDiffer(t) && Leads(t)
    requires if stays then t'.conns.Keys == t.conns.Keys + {t.next} && t'.conns[t.next].id == id else t'.conns == t.conns
    requires stays ==> forall r :: r in t.conns ==> t'.conns[r] == t.conns[r]
    ensures IdsDiffer(t') <==> !(stays && Carried(t, id))
  {
    assert t.next !in t.conns;
    if stays && Carried(t, id) {
      var r :| r in t.conns && t.conns[r].id == id;
      assert t'.conns[r].id == t'.conns[t.next].id;
    }
  }

  ghost predicate AlwaysDiffer(serverId: nat, events: seq<Event>) {
    forall k :: 0 <= k <= |events| ==> IdsDiffer(Reached(serverId, NONE, events[..k]))
  }

  ghost predicate NoneDrawnAgain(serverId: nat, events: seq<Event>) {
    forall k :: 0 <= k < |events| ==> !DrawsAgain(serverId, Reached(serverId, NONE, events[..k]), events[k])
  }

  /** Over every run from empty tables: live connections carry different ids at each moment if and only if no id is drawn
      while a live connection still carries it; and then every connection is found until a bind attempt reaches it. */
  lemma {:induction false} RunDifferIff(serverId: nat, events: seq<Event>)
    ensures AlwaysDiffer(serverId, events) <==> NoneDrawnAgain(serverId, events)
    ensures AlwaysDiffer(serverId, events) ==> AlwaysFound(serverId, events)
  {
    hide Inv, IdsDiffer, DrawsAgain, Steals, Next, AlwaysDiffer, NoneDrawnAgain, AlwaysFound, NoneStolen;
    RunFoundIff(serverId, events);
    NoneFound(serverId);
    if events == [] {
      NoneDiffer(serverId);
    } else {
      var before, e := events[..|events| - 1], events[|events| - 1];
      RunDifferIff(serverId, before);
      RunFoundIff(serverId, before);
      DifferLonger(serverId, events);
      FoundLonger(serverId, events);
      var t := Reached(serverId, NONE, before);
      ReachedInv(serverId, NONE, before);
      if IdsDiffer(t) {
        StepDifferIff(serverId, t, e);
        DifferStealsNone(serverId, t, e);
      }
    }
  }

  lemma DifferStealsNone(serverId: nat, t: Tables, e: Event)
    requires Inv(t) && IdsDiffer(t)
    ensures !Steals(serverId, t, e)
  {
    InvFacts(t);
    hide Inv, Deletes;
  }

  lemma NoneDiffer(serverId: nat)
    ensures AlwaysDiffer(serverId, []) && NoneDrawnAgain(serverId, [])
  {
  }

  lemma DifferLonger(serverId: nat, events: seq<Event>)
    requires events != []
    ensures var before, e := events[..|events| - 1], events[|events| - 1];
            && (AlwaysDiffer(serverId, events) <==>
                  AlwaysDiffer(serverId, before) && IdsDiffer(Reached(serverId, NONE, events)))
            && (NoneDrawnAgain(serverId, events) <==>
                  NoneDrawnAgain(serverId, before) && !DrawsAgain(serverId, Reached(serverId, NONE, before), e))
            && (AlwaysDiffer(serverId, before) ==> IdsDiffer(Reached(serverId, NONE, before)))
  {
    hide IdsDiffer, DrawsAgain, Reached;
    var before := events[..|events| - 1];
    assert forall k :: 0 <= k <= |before| ==> events[..k] == before[..k];
    assert events[..|events|] == events && before[..|before|] == before;
  }

  // ---------------------------------------------------------------- a connection that is lost

  /** New entries of the id map lead to new connections only. */
  ghost predicate OldEntries(t: Tables, t': Tables) {
    t.next <= t'.next &&
    forall id :: id in t'.ids ==> t'.ids[id] >= t.next || (id in t.ids && t'.ids[id] == t.ids[id])
  }

  lemma NextEntries(serverId: nat, t: Tables, e: Event)
    ensures OldEntries(t, Next(serverId, t, e))
  {
    hide DroppedWhere, List, Place, Hole, AnyUsable, HasPeer, DrawnId;
    match e {
      case Clear(o) => WhereEntries(t, o, (c: Conn) => true, |List(t, o)|);
      case FamilyGone(o, v6, _) => WhereEntries(t, o, (c: Conn) => c.peerS.Some? && c.peer.ip.V6? == v6, |List(t, o)|);
      case _ =>
    }
  }

  lemma WhereEntries(t: Tables, o: Owner, test: Conn -> bool, n: nat)
    requires n <= |List(t, o)|
    ensures OldEntries(t, DroppedWhere(t, o, test, n))
  {
    hide DroppedWhere, List;
    WhereErases(t, o, test, n);
    WhereNext(t, o, test, n);
  }

  /** No id leads to r, and it is not a connection that is still to come. */
  ghost predicate Unreachable(t: Tables, r: Ref) {
    r < t.next && forall id :: id in t.ids ==> t.ids[id] != r
  }

  /** Once no id leads to a connection, none ever will. */
  lemma {:induction false} UnreachableForGood(serverId: nat, t: Tables, r: Ref, events: seq<Event>)
    requires Unreachable(t, r)
    ensures Unreachable(Reached(serverId, t, events), r)
  {
    hide Next;
    if events != [] {
      UnreachableForGood(serverId, t, r, events[..|events| - 1]);
      NextEntries(serverId, Reached(serverId, t, events[..|events| - 1]), events[|events| - 1]);
    }
  }

  /** A client binds the first connection before its peer has answered, the same number is drawn for a second connection,
      and the first attempt fails: the second connection lives, no bind has reached it, and none ever will. */
  lemma StolenId(serverId: nat, p: Addr, q: Addr, after: seq<Event>)
    requires !p.ip.NoFamily? && !q.ip.NoFamily?
    ensures var events := StolenRun(serverId, p, q);
            && Reached(serverId, NONE, events[..3]).ids == map[5 + serverId * ID_MASK := 1]
            && DrawsAgain(serverId, Reached(serverId, NONE, events[..2]), events[2])
            && Reached(serverId, NONE, events).ids == map[]
            && 1 in Reached(serverId, NONE, events).conns && Tried(serverId, events) == {0}
            && Unreachable(Reached(serverId, NONE, events + after), 1)
  {
    var e := StolenRun(serverId, p, q);
    var t1, t2, t3, t4 := StolenSteps(serverId, p, q, e[0], e[1], e[2], e[3]);
    hide *;
    assert e[..4] == e;
    FourSteps(serverId, e, t1, t2, t3, t4);
    ReachedConcat(serverId, NONE, e, after);
    UnreachableForGood(serverId, t4, 1, after);
  }

  /** Drawing an id again does no harm yet: up to the deletion every connection is found. */
  lemma DrawnAgainUnharmed(serverId: nat, p: Addr, q: Addr)
    requires !p.ip.NoFamily? && !q.ip.NoFamily?
    ensures var events := StolenRun(serverId, p, q)[..3];
            AlwaysFound(serverId, events) && !NoneDrawnAgain(serverId, events)
  {
    var e := StolenRun(serverId, p, q);
    assert forall k :: 0 <= k < 3 ==> !Deletion(e[..3][k]);
    hide *;
    StolenId(serverId, p, q, []);
    WithoutDeletion(serverId, e[..3]);
    assert e[..3][..2] == e[..2] && e[..3][2] == e[2];
    OneDrawnAgain(serverId, e[..3], 2);
  }

  lemma WithoutDeletion(serverId: nat, events: seq<Event>)
    requires forall k :: 0 <= k < |events| ==> !Deletion(events[k])
    ensures AlwaysFound(serverId, events)
  {
    RunFoundIff(serverId, events);
    hide Steals, Deletion, Reached, AlwaysFound;
    forall k | 0 <= k < |events|
      ensures !Steals(serverId, Reached(serverId, NONE, events[..k]), events[k])
    {
      OtherStealsNone(serverId, Reached(serverId, NONE, events[..k]), events[k]);
    }
  }

  lemma OneDrawnAgain(serverId: nat, events: seq<Event>, k: nat)
    requires k < |events| && DrawsAgain(serverId, Reached(serverId, NONE, events[..k]), events[k])
    ensures !NoneDrawnAgain(serverId, events)
  {
    hide DrawsAgain, Reached;
  }

  function StolenRun(serverId: nat, p: Addr, q: Addr): (r: seq<Event>)
    ensures |r| == 4
  {
    [Start(0, p, true, [5], Some(7)), Granting(5 + serverId * ID_MASK, 8, true), Start(1, q, true, [5], Some(9)),
     PeerDone(0, false)]
  }

  lemma FourSteps(serverId: nat, e: seq<Event>, t1: Tables, t2: Tables, t3: Tables, t4: Tables)
    requires |e| == 4 && t1 == Next(serverId, NONE, e[0]) && t2 == Next(serverId, t1, e[1])
    requires t3 == Next(serverId, t2, e[2]) && t4 == Next(serverId, t3, e[3])
    ensures Reached(serverId, NONE, e[..2]) == t2 && Reached(serverId, NONE, e[..3]) == t3
    ensures Reached(serverId, NONE, e[..4]) == t4
    ensures Tried(serverId, e[..4])
            == Reaches(serverId, NONE, e[0]) + Reaches(serverId, t1, e[1]) + Reaches(serverId, t2, e[2]) + Reaches(serverId, t3, e[3])
  {
    hide *;
    ReachedOne(serverId, e, 0);
    ReachedOne(serverId, e, 1);
    ReachedOne(serverId, e, 2);
    ReachedOne(serverId, e, 3);
    TriedOne(serverId, e, 0);
    TriedOne(serverId, e, 1);
    TriedOne(serverId, e, 2);
    TriedOne(serverId, e, 3);
  }

  lemma TriedOne(serverId: nat, events: seq<Event>, k: nat)
    requires k < |events|
    ensures Tried(serverId, events[..0]) == {}
    ensures Tried(serverId, events[..k + 1])
            == Tried(serverId, events[..k]) + Reaches(serverId, Reached(serverId, NONE, events[..k]), events[k])
  {
    assert events[..k + 1][..k] == events[..k];
  }

  lemma StolenSteps(serverId: nat, p: Addr, q: Addr, e1: Event, e2: Event, e3: Event, e4: Event)
    returns (t1: Tables, t2: Tables, t3: Tables, t4: Tables)
    requires !p.ip.NoFamily? && !q.ip.NoFamily? && [e1, e2, e3, e4] == StolenRun(serverId, p, q)
    ensures t1 == Next(serverId, NONE, e1) && t2 == Next(serverId, t1, e2)
    ensures t3 == Next(serverId, t2, e3) && t4 == Next(serverId, t3, e4)
    ensures Reaches(serverId, NONE, e1) == {} && Reaches(serverId, t1, e2) == {0}
    ensures Reaches(serverId, t2, e3) == {} && Reaches(serverId, t3, e4) == {}
    ensures t3.ids == map[5 + serverId * ID_MASK := 1] && DrawsAgain(serverId, t2, e3)
    ensures t4.ids == map[] && Unreachable(t4, 1) && 1 in t4.conns
  {
    StolenEvents(serverId, p, q, e1, e2, e3, e4);
    hide *;
    t1, t2 := FirstBound(serverId, p, 5 + serverId * ID_MASK, e1, e2);
    t3, t4 := SecondDraw(serverId, q, 5 + serverId * ID_MASK, t2, e3, e4);
  }

  lemma StolenEvents(serverId: nat, p: Addr, q: Addr, e1: Event, e2: Event, e3: Event, e4: Event)
    requires [e1, e2, e3, e4] == StolenRun(serverId, p, q)
    ensures e1 == Start(0, p, true, [5], Some(7)) && e2 == Granting(5 + serverId * ID_MASK, 8, true)
    ensures e3 == Start(1, q, true, [5], Some(9)) && e4 == PeerDone(0, false)
  {
    var e := [e1, e2, e3, e4];
    assert e1 == e[0] && e2 == e[1] && e3 == e[2] && e4 == e[3];
  }

  /** One connection, which was bound before its peer has answered. */
  ghost predicate OneBound(t: Tables, id: Id) {
    && t.conns.Keys == {0} && t.ids == map[] && t.next == 1
    && t.conns[0].owner == 0 && t.conns[0].id == id && t.conns[0].connectTimer
  }

  lemma FirstBound(serverId: nat, p: Addr, id: Id, e1: Event, e2: Event) returns (t1: Tables, t2: Tables)
    requires !p.ip.NoFamily? && id == 5 + serverId * ID_MASK
    requires e1 == Start(0, p, true, [5], Some(7)) && e2 == Granting(id, 8, true)
    ensures t1 == Next(serverId, NONE, e1) && t2 == Next(serverId, t1, e2) && OneBound(t2, id)
    ensures Reaches(serverId, NONE, e1) == {} && Reaches(serverId, t1, e2) == {0}
  {
    hide Next;
    t1, t2 := EarlyBind(serverId, p, id);
  }

  /** Its id is drawn for another one, and its peer does not answer. */
  lemma SecondDraw(serverId: nat, q: Addr, id: Id, t: Tables, e3: Event, e4: Event) returns (t3: Tables, t4: Tables)
    requires !q.ip.NoFamily? && id == 5 + serverId * ID_MASK && OneBound(t, id)
    requires e3 == Start(1, q, true, [5], Some(9)) && e4 == PeerDone(0, false)
    ensures t3 == Next(serverId, t, e3) && t4 == Next(serverId, t3, e4)
    ensures Reaches(serverId, t, e3) == {} && Reaches(serverId, t3, e4) == {}
    ensures t3.ids == map[id := 1] && DrawsAgain(serverId, t, e3)
    ensures t4.ids == map[] && Unreachable(t4, 1) && 1 in t4.conns
  {
    assert Usable(serverId, t.ids, [5][0]) && IdOf(serverId, 5) == id;
    assert DrawnId(serverId, t.ids, [5]) == id;
    assert 0 in t.conns && t.conns[0].id == id;
    assert !HasPeer(t, 1, q);
    assert Carried(t, id);
    hide AnyUsable, DrawnId, HasPeer, List, Place, Hole;
    t3 := Next(serverId, t, e3);
    t4 := Next(serverId, t3, e4);
  }
}
