/** The handlers of the server that create, bind and delete TCP data connections (sections 5.2 and 5.4 of RFC 6062). */
module TcpServer {
  import opened Options
  import opened Slots
  import opened IoAddr
  import opened TcpConnections

  const ID_MASK := 0x100_0000  // ids are 24 random bits under the server's number

  // The verdict of the authentication of a CONNECTION-BIND request.
  datatype Auth = Postponed | Refused(err: int) | Granted

  predicate HasPeer(t: Tables, o: Owner, peer: Addr) {
    exists q :: q in t.conns && t.conns[q].owner == o && t.conns[q].peer == peer
  }

  function IdOf(serverId: nat, draw: nat): Id {
    draw % ID_MASK + serverId * ID_MASK
  }

  predicate Usable(serverId: nat, ids: map<Id, Ref>, draw: nat) {
    draw % ID_MASK != 0 && IdOf(serverId, draw) !in ids
  }

  predicate AnyUsable(serverId: nat, ids: map<Id, Ref>, draws: seq<nat>) {
    exists i :: 0 <= i < |draws| && Usable(serverId, ids, draws[i])
  }

  /** The id that a list of random numbers leads to. */
  function DrawnId(serverId: nat, ids: map<Id, Ref>, draws: seq<nat>): Id
    requires AnyUsable(serverId, ids, draws)
  {
    IdOf(serverId, draws[First(draws, (draw: nat) => Usable(serverId, ids, draw))])
  }

  // ---------------------------------------------------------------- what the handlers do to the tables

  function Started(serverId: nat, t: Tables, o: Owner, peer: Addr, haveRelay: bool, draws: seq<nat>, socket: Option<Socket>)
    : Tables
    requires AnyUsable(serverId, t.ids, draws)
  {
    if !haveRelay || HasPeer(t, o, peer) then t
    else
      var id := DrawnId(serverId, t.ids, draws);
      var c := NewConn(o, peer, id).(connectTimer := true);
      if socket.None? then Dropped(Changed(Added(t, o, peer, id), t.next, c), t.next)
      else Changed(Added(t, o, peer, id), t.next, c.(stage := Connecting, peerS := socket))
  }

  function Taken(serverId: nat, t: Tables, o: Owner, peer: Addr, s: Socket, welcome: bool, draws: seq<nat>, registered: bool)
    : Tables
    requires AnyUsable(serverId, t.ids, draws)
  {
    if HasPeer(t, o, peer) || !welcome then t
    else
      var id := DrawnId(serverId, t.ids, draws);
      var c := NewConn(o, peer, id);
      Changed(Added(t, o, peer, id), t.next,
              if registered then c.(stage := PeerConnected, peerS := Some(s), bindTimer := true) else c)
  }

  /** A connection attempt that fails. */
  function Lost(c: Conn): Conn {
    c.(connectTimer := false, stage := Failed)
  }

  function Attempted(t: Tables, id: Id, s: Socket, closing: bool, auth: Auth, registered: bool): Tables {
    if id == 0 || id !in t.ids || t.ids[id] !in t.conns || (auth.Postponed? && !closing) then t
    else
      var c := t.conns[t.ids[id]];
      if !closing && auth.Granted? && c.stage != Ready && c.client.None? then
        Bound(t, t.ids[id], s, !registered && c.bindTimer)
      else t.(ids := t.ids - {id})
  }

  /** What is left when the first n slots of a list have been looked at. */
  function DroppedWhere(t: Tables, o: Owner, test: Conn -> bool, n: nat): Tables
    requires n <= |List(t, o)|
  {
    if n == 0 then t
    else
      var t1, e := DroppedWhere(t, o, test, n - 1), List(t, o)[n - 1];
      if e.Some? && e.value in t1.conns && test(t1.conns[e.value]) then Dropped(t1, e.value) else t1
  }

  function Cleared(t: Tables, o: Owner): Tables {
    var t1 := DroppedWhere(t, o, (c: Conn) => true, |List(t, o)|);
    t1.(lists := t1.lists[o := []])
  }

  function WithoutFamily(t: Tables, o: Owner, v6: bool): Tables {
    DroppedWhere(t, o, (c: Conn) => c.peerS.Some? && c.peer.ip.V6? == v6, |List(t, o)|)
  }

  class Relay {
    const serverId: nat
    var ids: map<Id, Ref>
    var conns: map<Ref, Conn>
    var lists: map<Owner, seq<Option<Ref>>>
    var next: Ref
    var readied: seq<Ref>

    function T(): Tables
      reads this
    {
      Tables(ids, conns, lists, next, readied)
    }

    ghost predicate Valid()
      reads this
    {
      Inv(T())
    }

    constructor (serverId: nat)
      ensures Valid() && T() == Tables(map[], map[], map[], 0, [])
    {
      this.serverId := serverId;
      ids, conns, lists, next, readied := map[], map[], map[], 0, [];
    }

    /** get_tcp_connection_by_peer. */
    method ByPeer(o: Owner, peer: Addr) returns (r: Option<Ref>)
      requires Valid() && !peer.ip.NoFamily?
      ensures r.Some? ==> r.value in conns && conns[r.value].owner == o && conns[r.value].peer == peer
      ensures r.None? ==> forall q :: q in conns && conns[q].owner == o ==> conns[q].peer != peer
    {
      var l := if o in lists then lists[o] else [];
      assert l == List(T(), o);
      var cs := conns;
      var i := Scan(l, (e: Option<Ref>) => e.Some? && e.value in cs && AddrEq(cs[e.value].peer, peer));
      if i < |l| {
        return l[i];
      }
      r := None;
      forall q | q in conns && conns[q].owner == o
        ensures conns[q].peer != peer
      {
        var j :| 0 <= j < |l| && l[j] == Some(q);
      }
    }

    /** set_new_tc_id: random numbers are drawn until one gives an id that is not in the map. */
    method NewId(draws: seq<nat>) returns (id: Id)
      requires AnyUsable(serverId, ids, draws)
      ensures id == DrawnId(serverId, ids, draws)
      ensures exists i :: 0 <= i < |draws| && id == draws[i] % 0x100_0000 + serverId * 0x100_0000
      ensures id != 0 && id !in ids && id % ID_MASK != 0 && id / ID_MASK == serverId
    {
      var i := 0;
      while draws[i] % ID_MASK == 0 || draws[i] % ID_MASK + serverId * ID_MASK in ids
        invariant i < |draws| && forall j :: 0 <= j < i ==> !Usable(serverId, ids, draws[j])
        decreases |draws| - i
      {
        assert !Usable(serverId, ids, draws[i]);
        i := i + 1;
      }
      id := draws[i] % ID_MASK + serverId * ID_MASK;
      ghost var taken := ids;
      FirstIs(draws, (draw: nat) => Usable(serverId, taken, draw), i);
    }

    /** create_tcp_connection. */
    method Create(o: Owner, peer: Addr, draws: seq<nat>) returns (r: Option<Ref>, err: int)
      requires Valid() && !peer.ip.NoFamily? && AnyUsable(serverId, ids, draws)
      modifies this
      ensures Valid()
      ensures err == if HasPeer(old(T()), o, peer) then 446 else 0
      ensures err != 0 ==> r == None && T() == old(T())
      ensures err == 0 ==>
        && r == Some(old(next)) && r.value in conns
        && DrawnId(serverId, old(ids), draws) != 0 && DrawnId(serverId, old(ids), draws) !in old(ids)
        && T() == Added(old(T()), o, peer, DrawnId(serverId, old(ids), draws))
    {
      hide Inv, AnyUsable, DrawnId;
      var other := ByPeer(o, peer);
      if other.Some? {
        return None, 446;
      }
      var l := if o in lists then lists[o] else [];
      assert l == List(T(), o);
      var k := Scan(l, (e: Option<Ref>) => e.None?);
      var id := NewId(draws);
      AddOk(T(), o, peer, id);
      r, err := Some(next), 0;
      conns := conns[next := NewConn(o, peer, id)];
      lists := lists[o := if k < |l| then l[k := Some(next)] else l + [Some(next)]];
      ids := ids[id := next];
      next := next + 1;
    }

    /** delete_tcp_connection. */
    method Delete(r: Ref)
      requires Valid() && r in conns
      modifies this
      ensures Valid() && T() == Dropped(old(T()), r)
    {
      hide Inv;
      DropOk(T(), r);
      var c := conns[r];
      var l := if c.owner in lists then lists[c.owner] else [];
      assert l == List(T(), c.owner);
      var i := Scan(l, (e: Option<Ref>) => e == Some(r));
      ids := ids - {c.id};
      if i < |l| {
        lists := lists[c.owner := l[i := None]];
      }
      conns := conns - {r};
    }

    method Change(r: Ref, c: Conn)
      requires Valid() && r in conns && SamePlace(c, conns[r])
      requires c.client == conns[r].client && (c.stage == Ready ==> conns[r].stage == Ready)
      modifies this
      ensures Valid() && T() == Changed(old(T()), r, c)
    {
      hide Inv;
      ChangeOk(T(), r, c);
      conns := conns[r := c];
    }

    /** tcp_start_connection_to_peer: haveRelay says that there is a relay socket of the peer's family, and socket is
        the connecting one, if the engine could create it. */
    method StartConnection(o: Owner, peer: Addr, haveRelay: bool, draws: seq<nat>, socket: Option<Socket>)
      returns (ret: int, err: int)
      requires Valid() && !peer.ip.NoFamily? && AnyUsable(serverId, ids, draws)
      modifies this
      ensures Valid() && (ret == 0 <==> err == 0) && (ret == 0 || ret == -1)
      ensures err == (if !haveRelay then 500
                      else if HasPeer(old(T()), o, peer) then 446
                      else if socket.None? then 500 else 0)
      ensures err != 0 ==> conns == old(conns) && ids == old(ids)
      ensures err == 0 ==>
        && old(next) in conns && conns[old(next)].id !in old(ids)
        && ids == old(ids)[conns[old(next)].id := old(next)]
        && conns == old(conns)[old(next) := Conn(Connecting, conns[old(next)].id, peer, o, None, socket, true, false)]
      ensures readied == old(readied)
      ensures T() == Started(serverId, old(T()), o, peer, haveRelay, draws, socket)
    {
      hide Inv, AnyUsable, DrawnId;
      ghost var t := T();
      if !haveRelay {
        return -1, 500;
      }
      var other := ByPeer(o, peer);
      if other.Some? {
        return -1, 446;
      }
      var created;
      created, err := Create(o, peer, draws);
      if err != 0 {
        return -1, err;
      }
      var r := created.value;
      Change(r, conns[r].(connectTimer := true));
      if socket.None? {
        AddThenDrop(t, o, peer, conns[r].id, conns[r]);
        Delete(r);
        return -1, 500;
      }
      Change(r, conns[r].(stage := Connecting, peerS := socket));
      return 0, 0;
    }

    /** tcp_peer_connection_completed_callback, also run by the timer of a connection attempt. */
    method PeerCompleted(r: Ref, success: bool)
      requires Valid() && r in conns && conns[r].connectTimer
      modifies this
      ensures Valid() && readied == old(readied)
      ensures r in conns <==> success
      ensures success ==>
        conns[r] == old(conns)[r].(stage := PeerConnected, connectTimer := false, bindTimer := true)
      ensures T() == if success then Completed(old(T()), r)
                     else Dropped(Changed(old(T()), r, Lost(old(conns)[r])), r)
    {
      hide Inv;
      if success {
        Change(r, conns[r].(stage := PeerConnected, connectTimer := false, bindTimer := true));
      } else {
        Change(r, Lost(conns[r]));
        Delete(r);
      }
    }

    /** tcp_peer_accept_connection: a peer's connection is taken if there is none to it yet, it is allowed, and it
        has a permission. */
    method AcceptFromPeer(o: Owner, peer: Addr, s: Socket, good: bool, permitted: bool, draws: seq<nat>, registered: bool)
      returns (taken: bool)
      requires Valid() && !peer.ip.NoFamily? && AnyUsable(serverId, ids, draws)
      modifies this
      ensures Valid()
      ensures taken <==> good && permitted && !HasPeer(old(T()), o, peer)
      ensures !taken ==> T() == old(T())
      ensures taken ==>
        && old(next) in conns && conns[old(next)].id !in old(ids)
        && ids == old(ids)[conns[old(next)].id := old(next)]
        && conns == old(conns)[old(next) :=
             if registered then Conn(PeerConnected, conns[old(next)].id, peer, o, None, Some(s), false, true)
             else Conn(Unknown, conns[old(next)].id, peer, o, None, None, false, false)]
      ensures readied == old(readied)
      ensures T() == Taken(serverId, old(T()), o, peer, s, good && permitted, draws, registered)
    {
      hide Inv, AnyUsable, DrawnId, Hole, List;
      var other := ByPeer(o, peer);
      if other.Some? || !good || !permitted {
        return false;
      }
      var created, err := Create(o, peer, draws);
      var r := created.value;
      Change(r, conns[r].(stage := PeerConnected, peerS := Some(s)));
      if !registered {
        Change(r, conns[r].(stage := Unknown, peerS := None));
      } else {
        Change(r, conns[r].(bindTimer := true));
      }
      return true;
    }

    /** tcp_conn_bind_timeout_handler. */
    method BindTimeout(r: Ref)
      requires Valid() && r in conns && conns[r].bindTimer
      modifies this
      ensures Valid() && T() == Dropped(old(T()), r)
    {
      Delete(r);
    }

    /** turnserver_accept_tcp_client_data_connection: closing says that the session is going away, and registered
        that the engine took the input callback. */
    method AcceptClientData(id: Id, s: Socket, closing: bool, auth: Auth, registered: bool) returns (ret: int, err: int)
      requires Valid() && (auth.Refused? ==> auth.err != 0)
      modifies this
      ensures Valid() && (ret == 0 || ret == -1)
      // an unknown id changes nothing
      ensures id == 0 || id !in old(ids) ==> T() == old(T()) && ret == -1
      // a postponed attempt changes nothing either, and will come back
      ensures id in old(ids) && auth.Postponed? && !closing ==> T() == old(T()) && ret == 0
      // every other attempt uses the id up
      ensures id in old(ids) && (closing || !auth.Postponed?) ==> id !in ids
      ensures id in old(ids) && !closing && auth.Granted? ==>
        && T() == Bound(old(T()), old(ids)[id], s, !registered && old(conns)[old(ids)[id]].bindTimer)
        && (ret == 0 <==> registered) && readied == old(readied) + [old(ids)[id]]
        && conns[old(ids)[id]] == old(conns)[old(ids)[id]].(stage := Ready, client := Some(s),
                                                            bindTimer := !registered && old(conns)[old(ids)[id]].bindTimer)
      ensures err == if id == 0 then 0 else if id !in old(ids) then 400 else if closing then 404
                     else match auth case Postponed => 0
                                     case Refused(e) => e
                                     case Granted => if registered then 0 else 500
      ensures id in old(ids) && (closing || auth.Refused?) ==>
        T() == old(T()).(ids := old(ids) - {id}) && ret == -1
      ensures T() == Attempted(old(T()), id, s, closing, auth, registered)
    {
      err := 0;
      if id == 0 {
        return -1, err;
      }
      if id !in ids {
        return -1, 400;
      }
      hide Inv;
      LiveId(T(), id);
      var r := ids[id];
      var c := conns[r];
      if c.stage == Ready || c.client.Some? {
        err := 400;
      } else if closing {
        err := 404;
      } else {
        match auth {
          case Postponed => return 0, 0;
          case Refused(e) => err := e;
          case Granted =>
            Grant(r, s, registered);
            return if registered then 0 else -1, if registered then 0 else 500;
        }
      }
      // get_and_clean_tcp_connection_by_id
      ForgetOk(T(), id);
      ids := ids - {id};
      ret := -1;
    }

    /** A bind that is granted; the connection leaves the id map even when its input callback cannot be set. */
    method Grant(r: Ref, s: Socket, registered: bool)
      requires Valid() && r in conns && conns[r].client.None? && conns[r].id in ids && ids[conns[r].id] == r
      modifies this
      ensures Valid() && T() == Bound(old(T()), r, s, !registered && old(conns)[r].bindTimer)
    {
      hide Inv;
      BindOk(T(), r, s, !registered && conns[r].bindTimer);
      var timer := if registered then false else conns[r].bindTimer;
      conns := conns[r := conns[r].(stage := Ready, client := Some(s), bindTimer := timer)];
      readied := readied + [r];
      ids := ids - {conns[r].id};
    }

    /** The loops over the connections of an allocation: those for which a test holds are deleted. */
    method DeleteWhere(o: Owner, test: Conn -> bool)
      requires Valid()
      modifies this
      ensures Valid() && next == old(next) && readied == old(readied)
      ensures |List(T(), o)| == |List(old(T()), o)|
      ensures forall p :: p != o ==> List(T(), p) == List(old(T()), p)
      ensures forall r :: r in conns <==> r in old(conns) && !(old(conns)[r].owner == o && test(old(conns)[r]))
      ensures forall r :: r in conns ==> conns[r] == old(conns)[r]
      ensures forall id :: id in ids ==> id in old(ids) && ids[id] == old(ids)[id]
      ensures T() == DroppedWhere(old(T()), o, test, |List(old(T()), o)|)
    {
      hide Inv, Kept;
      ghost var t := T();
      NothingDropped(t, o, test);
      var n := if o in lists then |lists[o]| else 0;
      var i := 0;
      while i < n
        invariant i <= n == |List(T(), o)| == |List(t, o)| && (n > 0 ==> o in lists)
        invariant Valid() && next == t.next && readied == t.readied
        invariant forall p :: p != o ==> List(T(), p) == List(t, p)
        invariant forall j :: i <= j < n ==> List(T(), o)[j] == List(t, o)[j]
        invariant Kept(t, T(), o, i, test) && T() == DroppedWhere(t, o, test, i)
        invariant forall id :: id in ids ==> id in t.ids && ids[id] == t.ids[id]
      {
        var e := lists[o][i];
        ghost var t1 := T();
        if e.Some? {
          EntryLive(t1, o, i);
          if test(conns[e.value]) {
            Delete(e.value);
          }
        }
        StepKept(t, t1, T(), o, i, test);
        i := i + 1;
      }
      AllKept(t, T(), o, n, test);
    }

    /** clear_allocation. */
    method ClearAllocation(o: Owner)
      requires Valid()
      modifies this
      ensures Valid() && List(T(), o) == [] && next == old(next) && readied == old(readied)
      ensures T() == Cleared(old(T()), o)
      ensures forall p :: p != o ==> List(T(), p) == List(old(T()), p)
      ensures forall r :: r in conns <==> r in old(conns) && old(conns)[r].owner != o
      ensures forall r :: r in conns ==> conns[r] == old(conns)[r]
    {
      hide Inv;
      DeleteWhere(o, (c: Conn) => true);
      EmptyOk(T(), o);
      lists := lists[o := []];
    }

    /** set_allocation_family_invalid: when the relay address of a family goes, so do its connections to peers. */
    method FamilyInvalid(o: Owner, v6: bool, haveRelay: bool)
      requires Valid()
      modifies this
      ensures Valid() && readied == old(readied)
      ensures forall r :: r in conns <==>
                r in old(conns)
                && !(haveRelay && old(conns)[r].owner == o && old(conns)[r].peerS.Some? && old(conns)[r].peer.ip.V6? == v6)
      ensures forall r :: r in conns ==> conns[r] == old(conns)[r]
      ensures T() == if haveRelay then WithoutFamily(old(T()), o, v6) else old(T())
    {
      hide Inv;
      if haveRelay {
        DeleteWhere(o, (c: Conn) => c.peerS.Some? && c.peer.ip.V6? == v6);
      }
    }
  }

  /** After the first n slots of a list: what is left of its connections. */
  ghost predicate Kept(t: Tables, t': Tables, o: Owner, n: nat, test: Conn -> bool)
    requires n <= |List(t, o)|
  {
    && (forall r :: r in t'.conns ==> r in t.conns && t'.conns[r] == t.conns[r])
    && (forall r :: r in t.conns ==>
          (r !in t'.conns <==> t.conns[r].owner == o && Some(r) in List(t, o)[..n] && test(t.conns[r])))
  }

  lemma NothingDropped(t: Tables, o: Owner, test: Conn -> bool)
    ensures Kept(t, t, o, 0, test)
  {
  }

  lemma EntryLive(t: Tables, o: Owner, i: nat)
    requires Inv(t) && i < |List(t, o)| && List(t, o)[i].Some?
    ensures List(t, o)[i].value in t.conns && t.conns[List(t, o)[i].value].owner == o
    ensures Some(List(t, o)[i].value) !in List(t, o)[..i]
  {
  }

  lemma PlaceIs(t: Tables, o: Owner, i: nat)
    requires Inv(t) && i < |List(t, o)| && List(t, o)[i].Some?
    ensures Place(List(t, o), List(t, o)[i].value) == i
  {
    FirstIs(List(t, o), (e: Option<Ref>) => e == List(t, o)[i], i);
  }

  lemma AllKept(t: Tables, t': Tables, o: Owner, n: nat, test: Conn -> bool)
    requires Inv(t) && n == |List(t, o)| && Kept(t, t', o, n, test)
    ensures forall r :: r in t'.conns <==> r in t.conns && !(t.conns[r].owner == o && test(t.conns[r]))
    ensures forall r :: r in t'.conns ==> t'.conns[r] == t.conns[r]
  {
    assert List(t, o)[..n] == List(t, o);
  }

  lemma StepKept(t: Tables, t1: Tables, t2: Tables, o: Owner, i: nat, test: Conn -> bool)
    requires Inv(t) && Inv(t1) && i < |List(t, o)| == |List(t1, o)| && Kept(t, t1, o, i, test)
    requires List(t1, o)[i] == List(t, o)[i]
    requires var e := List(t1, o)[i];
             && (e.Some? ==> e.value in t1.conns)
             && t2 == if e.Some? && test(t1.conns[e.value]) then Dropped(t1, e.value) else t1
    ensures Kept(t, t2, o, i + 1, test)
    ensures |List(t2, o)| == |List(t1, o)| && (forall p :: p != o ==> List(t2, p) == List(t1, p))
    ensures forall j :: i < j < |List(t1, o)| ==> List(t2, o)[j] == List(t1, o)[j]
  {
    hide Inv, List, Dropped;
    var l, e := List(t, o), List(t1, o)[i];
    assert l[..i + 1] == l[..i] + [e];
    if e.Some? {
      EntryLive(t, o, i);
      EntryLive(t1, o, i);
      DropEntry(t1, o, i);
    }
  }

  lemma DropEntry(t: Tables, o: Owner, i: nat)
    requires Inv(t) && i < |List(t, o)| && List(t, o)[i].Some? && List(t, o)[i].value in t.conns
    ensures var t' := Dropped(t, List(t, o)[i].value);
            && t'.conns == t.conns - {List(t, o)[i].value}
            && List(t', o) == List(t, o)[i := None] && (forall p :: p != o ==> List(t', p) == List(t, p))
  {
    EntryLive(t, o, i);
    PlaceIs(t, o, i);
    hide Inv, Place;
  }

  lemma EmptyOk(t: Tables, o: Owner)
    requires Inv(t) && forall r :: r in t.conns ==> t.conns[r].owner != o
    ensures Inv(t.(lists := t.lists[o := []]))
  {
    hide Listed;
    EmptyListed(t, o);
  }

  lemma EmptyListed(t: Tables, o: Owner)
    requires Listed(t) && forall r :: r in t.conns ==> t.conns[r].owner != o
    ensures Listed(t.(lists := t.lists[o := []]))
  {
    var t' := t.(lists := t.lists[o := []]);
    assert List(t', o) == [] && forall p :: p != o ==> List(t', p) == List(t, p);
    hide List;
    forall q | q in t'.conns
      ensures Some(q) in List(t', t'.conns[q].owner)
    {
      assert Some(q) in List(t, t.conns[q].owner);
    }
    hide EachListed;
  }

  // ---------------------------------------------------------------- whole runs

  datatype Event =
    | Start(o: Owner, peer: Addr, haveRelay: bool, draws: seq<nat>, socket: Option<Socket>)
    | PeerDone(r: Ref, success: bool)
    | FromPeer(o: Owner, peer: Addr, s: Socket, good: bool, permitted: bool, draws: seq<nat>, registered: bool)
    | Timeout(r: Ref)
    | Bind(id: Id, s: Socket, closing: bool, auth: Auth, registered: bool)
    | Clear(o: Owner)
    | FamilyGone(o: Owner, v6: bool, haveRelay: bool)

  /** What may happen next: timers and callbacks of connections that wait for them, and requests at any time. */
  predicate Possible(serverId: nat, t: Tables, e: Event) {
    match e
    case Start(_, peer, _, draws, _) => !peer.ip.NoFamily? && AnyUsable(serverId, t.ids, draws)
    case PeerDone(r, _) => r in t.conns && t.conns[r].connectTimer
    case FromPeer(_, peer, _, _, _, draws, _) => !peer.ip.NoFamily? && AnyUsable(serverId, t.ids, draws)
    case Timeout(r) => r in t.conns && t.conns[r].bindTimer
    case Bind(_, _, _, auth, _) => auth.Refused? ==> auth.err != 0
    case _ => true
  }

  /** One event; one that is not possible changes nothing. */
  function Next(serverId: nat, t: Tables, e: Event): Tables {
    if !Possible(serverId, t, e) then t
    else
      match e
      case Start(o, peer, haveRelay, draws, socket) => Started(serverId, t, o, peer, haveRelay, draws, socket)
      case PeerDone(r, success) => if success then Completed(t, r) else Dropped(Changed(t, r, Lost(t.conns[r])), r)
      case FromPeer(o, peer, s, good, permitted, draws, registered) =>
        Taken(serverId, t, o, peer, s, good && permitted, draws, registered)
      case Timeout(r) => Dropped(t, r)
      case Bind(id, s, closing, auth, registered) => Attempted(t, id, s, closing, auth, registered)
      case Clear(o) => Cleared(t, o)
      case FamilyGone(o, v6, haveRelay) => if haveRelay then WithoutFamily(t, o, v6) else t
  }

  const NONE := Tables(map[], map[], map[], 0, [])

  /** The tables after some events. */
  function Reached(serverId: nat, t: Tables, events: seq<Event>): Tables {
    if events == [] then t
    else Next(serverId, Reached(serverId, t, events[..|events| - 1]), events[|events| - 1])
  }

  /** Over every run, in any order of events: the handlers follow the machine, no two live connections of an
      allocation share a peer address, every entry of the id map is a live unbound connection in its owner's list, and
      nothing becomes READY twice. */
  method Run(m: Relay, events: seq<Event>) returns (served: seq<Ref>)
    requires m.Valid()
    modifies m
    ensures m.Valid() && served == m.readied && m.T() == Reached(m.serverId, old(m.T()), events)
    ensures old(m.readied) <= served
    ensures forall i, j :: 0 <= i < j < |served| ==> served[i] != served[j]
    ensures forall id :: id in m.ids ==>
              m.ids[id] in m.conns && m.ids[id] !in served && Some(m.ids[id]) in List(m.T(), m.conns[m.ids[id]].owner)
    ensures forall r, q :: r in m.conns && q in m.conns && r != q && m.conns[r].owner == m.conns[q].owner ==>
              m.conns[r].peer != m.conns[q].peer
  {
    for k := 0 to |events|
      invariant m.Valid() && old(m.readied) <= m.readied
      invariant m.T() == Reached(m.serverId, old(m.T()), events[..k])
    {
      hide Inv, Next;
      assert events[..k + 1][..k] == events[..k];
      Do(m, events[k]);
    }
    assert events[..|events|] == events;
    return m.readied;
  }

  /** One event through the handlers. */
  method Do(m: Relay, e: Event)
    requires m.Valid()
    modifies m
    ensures m.Valid() && old(m.readied) <= m.readied && m.T() == Next(m.serverId, old(m.T()), e)
  {
    hide Inv, AnyUsable, Started, Taken, Attempted, DroppedWhere, Cleared, WithoutFamily;
    if !Possible(m.serverId, m.T(), e) {
      return;
    }
    match e {
      case Start(o, peer, haveRelay, draws, socket) => var _, _ := m.StartConnection(o, peer, haveRelay, draws, socket);
      case PeerDone(r, success) => m.PeerCompleted(r, success);
      case FromPeer(o, peer, s, good, permitted, draws, registered) =>
        var _ := m.AcceptFromPeer(o, peer, s, good, permitted, draws, registered);
      case Timeout(r) => m.BindTimeout(r);
      case Bind(id, s, closing, auth, registered) => var _, _ := m.AcceptClientData(id, s, closing, auth, registered);
      case Clear(o) => m.ClearAllocation(o);
      case FamilyGone(o, v6, haveRelay) => m.FamilyInvalid(o, v6, haveRelay);
    }
  }
}
