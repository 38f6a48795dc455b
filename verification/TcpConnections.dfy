/**
 TCP data connections (RFC 6062): the list of every allocation, the server-wide map from connection ids, and
 what CONNECTION-BIND does to them.
 */
module TcpConnections {
  import opened Options
  import opened Slots
  import opened IoAddr

  type Id = nat
  type Ref = nat      // stands for the pointer to a connection; a new one is never an old one
  type Owner = nat    // an allocation
  type Socket = nat

  datatype Stage = Unknown | Connecting | PeerConnected | Ready | Failed

  datatype Conn = Conn(stage: Stage, id: Id, peer: Addr, owner: Owner, client: Option<Socket>, peerS: Option<Socket>,
                       connectTimer: bool, bindTimer: bool)

  datatype Tables = Tables(
    ids: map<Id, Ref>,                     // tcp_relay_connections
    conns: map<Ref, Conn>,                 // the connections that are not deleted
    lists: map<Owner, seq<Option<Ref>>>,   // tcs of every allocation, with holes
    next: Ref,
    readied: seq<Ref>)                     // every connection that became READY, in order

  function List(t: Tables, o: Owner): seq<Option<Ref>> {
    if o in t.lists then t.lists[o] else []
  }

  // ---------------------------------------------------------------- what every run keeps

  /** A connection is in exactly one slot of its owner's list, and lists hold nothing else. */
  ghost predicate Listed(t: Tables) {
    EachListed(t) && OnlyLive(t) && NoneTwice(t)
  }

  ghost predicate EachListed(t: Tables) {
    forall r :: r in t.conns ==> Some(r) in List(t, t.conns[r].owner)
  }

  ghost predicate OnlyLive(t: Tables) {
    forall o, i :: 0 <= i < |List(t, o)| && List(t, o)[i].Some? ==>
      List(t, o)[i].value in t.conns && t.conns[List(t, o)[i].value].owner == o
  }

  ghost predicate NoneTwice(t: Tables) {
    forall o, i, j :: 0 <= i < j < |List(t, o)| && List(t, o)[i].Some? ==> List(t, o)[i] != List(t, o)[j]
  }

  /** No two connections of an allocation have the same peer address. */
  ghost predicate PeersDiffer(t: Tables) {
    && (forall r :: r in t.conns ==> !t.conns[r].peer.ip.NoFamily?)
    && (forall r, q :: r in t.conns && q in t.conns && r != q && t.conns[r].owner == t.conns[q].owner ==>
          t.conns[r].peer != t.conns[q].peer)
  }

  /** Every entry of the id map is a live connection with that id, which is not bound yet. */
  ghost predicate IdsLive(t: Tables) {
    forall id :: id in t.ids ==>
      && id != 0 && t.ids[id] in t.conns
      && t.conns[t.ids[id]].id == id && t.conns[t.ids[id]].client.None?
  }

  /** A connection becomes READY at most once: exactly those that did have a client socket. */
  ghost predicate ReadyOnce(t: Tables) {
    && (forall r :: r in t.conns ==> r < t.next && (t.conns[r].client.Some? <==> r in t.readied))
    && (forall r :: r in t.conns && t.conns[r].stage == Ready ==> t.conns[r].client.Some?)
    && (forall r :: r in t.readied ==> r < t.next)
    && (forall i, j :: 0 <= i < j < |t.readied| ==> t.readied[i] != t.readied[j])
  }

  ghost predicate Inv(t: Tables) {
    Listed(t) && PeersDiffer(t) && IdsLive(t) && ReadyOnce(t)
  }

  // ---------------------------------------------------------------- elementary changes

  /** The position where a new connection goes: the first hole, or the end. */
  function Hole(l: seq<Option<Ref>>): nat {
    First(l, (e: Option<Ref>) => e.None?)
  }

  function NewConn(o: Owner, peer: Addr, id: Id): Conn {
    Conn(Unknown, id, peer, o, None, None, false, false)
  }

  function Added(t: Tables, o: Owner, peer: Addr, id: Id): Tables {
    var l := List(t, o);
    var l' := if Hole(l) < |l| then l[Hole(l) := Some(t.next)] else l + [Some(t.next)];
    t.(ids := t.ids[id := t.next],
       conns := t.conns[t.next := NewConn(o, peer, id)],
       lists := t.lists[o := l'],
       next := t.next + 1)
  }

  function Place(l: seq<Option<Ref>>, r: Ref): nat {
    First(l, (e: Option<Ref>) => e == Some(r))
  }

  /** delete_tcp_connection: the map entry goes by id, whosever it is. */
  function Dropped(t: Tables, r: Ref): Tables
    requires r in t.conns
  {
    var c := t.conns[r];
    var l := List(t, c.owner);
    var i := Place(l, r);
    t.(ids := t.ids - {c.id},
       conns := t.conns - {r},
       lists := if i < |l| then t.lists[c.owner := l[i := None]] else t.lists)
  }

  /** Changing a connection in place. */
  function Changed(t: Tables, r: Ref, c: Conn): Tables {
    t.(conns := t.conns[r := c])
  }

  predicate SamePlace(c: Conn, d: Conn) {
    c.owner == d.owner && c.peer == d.peer && c.id == d.id
  }

  lemma AddOk(t: Tables, o: Owner, peer: Addr, id: Id)
    requires Inv(t) && !peer.ip.NoFamily? && id != 0 && id !in t.ids
    requires forall r :: r in t.conns && t.conns[r].owner == o ==> t.conns[r].peer != peer
    ensures Inv(Added(t, o, peer, id))
  {
    hide Listed, PeersDiffer, IdsLive, ReadyOnce, Added;
    AddListed(t, o, peer, id);
    AddPeers(t, o, peer, id);
    AddIds(t, o, peer, id);
    AddReady(t, o, peer, id);
  }

  lemma AddPeers(t: Tables, o: Owner, peer: Addr, id: Id)
    requires PeersDiffer(t) && ReadyOnce(t) && !peer.ip.NoFamily?
    requires forall r :: r in t.conns && t.conns[r].owner == o ==> t.conns[r].peer != peer
    ensures PeersDiffer(Added(t, o, peer, id))
  {
  }

  lemma AddIds(t: Tables, o: Owner, peer: Addr, id: Id)
    requires IdsLive(t) && ReadyOnce(t) && id != 0 && id !in t.ids
    ensures IdsLive(Added(t, o, peer, id))
  {
  }

  lemma AddReady(t: Tables, o: Owner, peer: Addr, id: Id)
    requires ReadyOnce(t)
    ensures ReadyOnce(Added(t, o, peer, id))
  {
  }

  lemma AddListed(t: Tables, o: Owner, peer: Addr, id: Id)
    requires Listed(t) && ReadyOnce(t)
    ensures Listed(Added(t, o, peer, id))
  {
    var l := List(t, o);
    assert forall m :: 0 <= m < |l| && l[m].Some? ==> l[m].value < t.next;
    AddLists(t, o, peer, id);
    assert t.next !in t.conns;
    hide Added, ReadyOnce, List, Hole, NewConn;
    FillHole(t, Added(t, o, peer, id), o, t.next, Hole(l));
  }

  lemma AddLists(t: Tables, o: Owner, peer: Addr, id: Id)
    ensures var t', l := Added(t, o, peer, id), List(t, o);
            && Hole(l) <= |l| && (Hole(l) < |l| ==> l[Hole(l)].None?)
            && List(t', o) == (if Hole(l) < |l| then l[Hole(l) := Some(t.next)] else l + [Some(t.next)])
            && (forall p :: p != o ==> List(t', p) == List(t, p))
            && t'.conns == t.conns[t.next := NewConn(o, peer, id)] && NewConn(o, peer, id).owner == o
  {
  }

  /** Filling a hole, or the end, of one list. */
  lemma FillHole(t: Tables, t': Tables, o: Owner, r: Ref, k: nat)
    requires Listed(t) && k <= |List(t, o)| && (k < |List(t, o)| ==> List(t, o)[k].None?)
    requires forall m :: 0 <= m < |List(t, o)| && List(t, o)[m].Some? ==> List(t, o)[m].value < r
    requires var l := List(t, o);
             List(t', o) == if k < |l| then l[k := Some(r)] else l + [Some(r)]
    requires forall p :: p != o ==> List(t', p) == List(t, p)
    requires r in t'.conns && t'.conns == t.conns[r := t'.conns[r]] && t'.conns[r].owner == o
    requires r !in t.conns
    ensures Listed(t')
  {
    var l := List(t, o);
    assert List(t', o)[k] == Some(r);
    assert forall m :: 0 <= m < |l| && m != k ==> List(t', o)[m] == l[m];
    FillEach(t, t', o, r, k);
    FillOnce(t, t', o, r, k);
    hide EachListed, NoneTwice;
    assert OnlyLive(t');
  }

  lemma FillOnce(t: Tables, t': Tables, o: Owner, r: Ref, k: nat)
    requires NoneTwice(t) && k < |List(t', o)| && List(t', o)[k] == Some(r)
    requires |List(t', o)| == if k < |List(t, o)| then |List(t, o)| else k + 1
    requires forall m :: 0 <= m < |List(t, o)| && List(t, o)[m].Some? ==> List(t, o)[m].value < r
    requires k <= |List(t, o)| && forall m :: 0 <= m < |List(t, o)| && m != k ==> List(t', o)[m] == List(t, o)[m]
    requires forall p :: p != o ==> List(t', p) == List(t, p)
    ensures NoneTwice(t')
  {
    hide List;
  }

  lemma FillEach(t: Tables, t': Tables, o: Owner, r: Ref, k: nat)
    requires EachListed(t) && k < |List(t', o)| && List(t', o)[k] == Some(r)
    requires forall m :: 0 <= m < |List(t, o)| && List(t, o)[m].Some? ==> m < |List(t', o)| && List(t', o)[m] == List(t, o)[m]
    requires forall p :: p != o ==> List(t', p) == List(t, p)
    requires r in t'.conns && t'.conns == t.conns[r := t'.conns[r]] && t'.conns[r].owner == o
    ensures EachListed(t')
  {
    hide List;
    forall q | q in t'.conns
      ensures Some(q) in List(t', t'.conns[q].owner)
    {
      if q != r {
        assert Some(q) in List(t, t.conns[q].owner);
        if t.conns[q].owner == o {
          var i :| 0 <= i < |List(t, o)| && List(t, o)[i] == Some(q);
          assert List(t', o)[i] == Some(q);
        }
      }
    }
  }

  lemma DropOk(t: Tables, r: Ref)
    requires Inv(t) && r in t.conns
    ensures Inv(Dropped(t, r))
    ensures Place(List(t, t.conns[r].owner), r) < |List(t, t.conns[r].owner)|
  {
    DropListed(t, r);
    hide Listed, Dropped;
    DropRest(t, r);
  }

  lemma DropRest(t: Tables, r: Ref)
    requires PeersDiffer(t) && IdsLive(t) && ReadyOnce(t) && r in t.conns
    ensures PeersDiffer(Dropped(t, r)) && IdsLive(Dropped(t, r)) && ReadyOnce(Dropped(t, r))
  {
  }

  lemma DropListed(t: Tables, r: Ref)
    requires Listed(t) && r in t.conns
    ensures Listed(Dropped(t, r))
    ensures Place(List(t, t.conns[r].owner), r) < |List(t, t.conns[r].owner)|
  {
    var o := t.conns[r].owner;
    var k := Placed(t, r);
    DropLists(t, r);
    hide Dropped, List, Place;
    MakeHole(t, Dropped(t, r), o, r, k);
  }

  lemma Placed(t: Tables, r: Ref) returns (k: nat)
    requires EachListed(t) && r in t.conns
    ensures var l := List(t, t.conns[r].owner);
            k == Place(l, r) < |l| && l[k] == Some(r)
  {
    var l := List(t, t.conns[r].owner);
    k := Place(l, r);
    var i :| 0 <= i < |l| && l[i] == Some(r);
    assert k <= i;
  }

  lemma DropLists(t: Tables, r: Ref)
    requires r in t.conns && Place(List(t, t.conns[r].owner), r) < |List(t, t.conns[r].owner)|
    ensures var t', o := Dropped(t, r), t.conns[r].owner;
            && List(t', o) == List(t, o)[Place(List(t, o), r) := None]
            && (forall p :: p != o ==> List(t', p) == List(t, p))
            && t'.conns == t.conns - {r}
  {
    hide Place;
  }

  /** Emptying one slot of one list. */
  lemma MakeHole(t: Tables, t': Tables, o: Owner, r: Ref, k: nat)
    requires Listed(t) && r in t.conns && t.conns[r].owner == o
    requires k < |List(t, o)| && List(t, o)[k] == Some(r) && List(t', o) == List(t, o)[k := None]
    requires forall p :: p != o ==> List(t', p) == List(t, p)
    requires t'.conns == t.conns - {r}
    ensures Listed(t')
  {
    hide List;
    MakeHoleEach(t, t', o, r, k);
    hide EachListed;
    assert NoneTwice(t');
    assert OnlyLive(t');
  }

  lemma MakeHoleEach(t: Tables, t': Tables, o: Owner, r: Ref, k: nat)
    requires EachListed(t) && k < |List(t, o)| && List(t, o)[k] == Some(r) && List(t', o) == List(t, o)[k := None]
    requires forall p :: p != o ==> List(t', p) == List(t, p)
    requires t'.conns == t.conns - {r}
    ensures EachListed(t')
  {
    hide List;
    forall q | q in t'.conns
      ensures Some(q) in List(t', t'.conns[q].owner)
    {
      assert Some(q) in List(t, t.conns[q].owner);
      if t.conns[q].owner == o {
        var i :| 0 <= i < |List(t, o)| && List(t, o)[i] == Some(q);
        assert List(t', o)[i] == Some(q);
      }
    }
  }

  /** A connection whose socket cannot be made is gone without a trace in the maps. */
  lemma AddThenDrop(t: Tables, o: Owner, peer: Addr, id: Id, c: Conn)
    requires Inv(t) && id !in t.ids && SamePlace(c, NewConn(o, peer, id))
    ensures var t' := Dropped(Changed(Added(t, o, peer, id), t.next, c), t.next);
            t'.conns == t.conns && t'.ids == t.ids && t'.readied == t.readied
  {
    hide List, Place, Hole, Listed, PeersDiffer, IdsLive;
    assert t.next !in t.conns;
  }

  lemma ChangeOk(t: Tables, r: Ref, c: Conn)
    requires Inv(t) && r in t.conns && SamePlace(c, t.conns[r])
    requires c.client == t.conns[r].client && (c.stage == Ready ==> t.conns[r].stage == Ready)
    ensures Inv(Changed(t, r, c))
  {
    hide PeersDiffer, IdsLive, ReadyOnce, Listed, Changed;
    ChangeIds(t, r, c);
    SameLists(t, Changed(t, r, c));
    ChangeReady(t, r, c);
  }

  /** What concerns owners and peer addresses only. */
  lemma SameLists(t: Tables, t': Tables)
    requires Listed(t) && PeersDiffer(t) && t'.lists == t.lists && t'.conns.Keys == t.conns.Keys
    requires forall r :: r in t.conns ==> SamePlace(t'.conns[r], t.conns[r])
    ensures Listed(t') && PeersDiffer(t')
  {
    assert forall o :: List(t', o) == List(t, o);
    SameListed(t, t');
    SamePeers(t, t');
  }

  lemma SameListed(t: Tables, t': Tables)
    requires Listed(t) && t'.lists == t.lists && t'.conns.Keys == t.conns.Keys
    requires forall r :: r in t.conns ==> SamePlace(t'.conns[r], t.conns[r])
    requires forall o :: List(t', o) == List(t, o)
    ensures Listed(t')
  {
    forall r | r in t'.conns
      ensures Some(r) in List(t', t'.conns[r].owner)
    {
      assert r in t.conns;
    }
  }

  lemma SamePeers(t: Tables, t': Tables)
    requires PeersDiffer(t) && t'.conns.Keys == t.conns.Keys
    requires forall r :: r in t.conns ==> SamePlace(t'.conns[r], t.conns[r])
    ensures PeersDiffer(t')
  {
    forall r | r in t'.conns
      ensures r in t.conns && SamePlace(t'.conns[r], t.conns[r])
    {
    }
  }

  lemma ChangeIds(t: Tables, r: Ref, c: Conn)
    requires IdsLive(t) && r in t.conns && SamePlace(c, t.conns[r]) && c.client == t.conns[r].client
    ensures IdsLive(Changed(t, r, c)) && Changed(t, r, c).lists == t.lists
    ensures Changed(t, r, c).conns.Keys == t.conns.Keys
    ensures forall q :: q in t.conns ==> SamePlace(Changed(t, r, c).conns[q], t.conns[q])
  {
  }

  lemma ChangeReady(t: Tables, r: Ref, c: Conn)
    requires ReadyOnce(t) && r in t.conns
    requires c.client == t.conns[r].client && (c.stage == Ready ==> t.conns[r].stage == Ready)
    ensures ReadyOnce(Changed(t, r, c))
  {
  }

  /** The effect of an accepted CONNECTION-BIND: the connection becomes READY and its id leaves the map. */
  function Bound(t: Tables, r: Ref, s: Socket, timerLeft: bool): Tables
    requires r in t.conns
  {
    var c := t.conns[r];
    t.(ids := t.ids - {c.id},
       conns := t.conns[r := c.(stage := Ready, client := Some(s), bindTimer := timerLeft)],
       readied := t.readied + [r])
  }

  lemma BindOk(t: Tables, r: Ref, s: Socket, timerLeft: bool)
    requires Inv(t) && r in t.conns && t.conns[r].client.None? && (t.conns[r].id in t.ids ==> t.ids[t.conns[r].id] == r)
    ensures Inv(Bound(t, r, s, timerLeft))
  {
    hide PeersDiffer, IdsLive, ReadyOnce, Listed, Bound;
    BindIds(t, r, s, timerLeft);
    SameLists(t, Bound(t, r, s, timerLeft));
    BindReady(t, r, s, timerLeft);
  }

  lemma BindIds(t: Tables, r: Ref, s: Socket, timerLeft: bool)
    requires IdsLive(t) && r in t.conns && (t.conns[r].id in t.ids ==> t.ids[t.conns[r].id] == r)
    ensures IdsLive(Bound(t, r, s, timerLeft)) && Bound(t, r, s, timerLeft).lists == t.lists
    ensures Bound(t, r, s, timerLeft).conns.Keys == t.conns.Keys
    ensures forall q :: q in t.conns ==> SamePlace(Bound(t, r, s, timerLeft).conns[q], t.conns[q])
  {
  }

  lemma BindReady(t: Tables, r: Ref, s: Socket, timerLeft: bool)
    requires ReadyOnce(t) && r in t.conns && t.conns[r].client.None?
    ensures ReadyOnce(Bound(t, r, s, timerLeft))
  {
    var t' := Bound(t, r, s, timerLeft);
    assert r !in t.readied;
    assert forall q :: q in t'.readied <==> q in t.readied || q == r;
  }

  lemma ForgetOk(t: Tables, id: Id)
    requires Inv(t)
    ensures Inv(t.(ids := t.ids - {id}))
  {
    hide PeersDiffer, ReadyOnce, Listed;
    SameLists(t, t.(ids := t.ids - {id}));
    ForgetReady(t, id);
  }

  lemma ForgetReady(t: Tables, id: Id)
    requires ReadyOnce(t)
    ensures ReadyOnce(t.(ids := t.ids - {id}))
  {
  }

  /** The effect of a peer connection that succeeds: whatever the stage was, it is overwritten. */
  function Completed(t: Tables, r: Ref): Tables
    requires r in t.conns
  {
    Changed(t, r, t.conns[r].(stage := PeerConnected, connectTimer := false, bindTimer := true))
  }

  /** No entry of the map leads to a connection that was bound, so nothing can bind it again. */
  lemma BoundIsUnreachable(t: Tables, r: Ref, id: Id)
    requires Inv(t) && r in t.readied && id in t.ids
    ensures t.ids[id] != r
  {
  }

  lemma LiveId(t: Tables, id: Id)
    requires Inv(t) && id in t.ids
    ensures var r := t.ids[id];
            r in t.conns && t.conns[r].id == id && t.conns[r].client.None? && t.conns[r].stage != Ready && r !in t.readied
  {
  }
}
