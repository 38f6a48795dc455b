/** The whole steps that handlers and timers take on an allocation, and what each does to the lookups. */
module AllocationSteps {
  import opened Options
  import opened Slots
  import opened IoAddr
  import opened Allocation
  import LmMap

  ghost predicate Good(hash: Ip -> nat, perms: seq<seq<Perm>>, chns: seq<seq<Chan>>) {
    Inv(hash, perms, chns) && Timed(perms, chns)
  }

  /** The permission for an address, found or added. */
  function EnsurePerm(hash: Ip -> nat, perms: seq<seq<Perm>>, addr: Addr): (r: (seq<seq<Perm>>, Handle))
    requires |perms| == HASH_SIZE
    ensures Has(r.0, r.1)
  {
    match FindPerm(hash, perms, addr.ip)
    case Some(h) => if Has(perms, h) then (perms, h) else (AddPerm(hash, perms, addr), FreePerm(hash, perms, addr.ip))
    case None => (AddPerm(hash, perms, addr), FreePerm(hash, perms, addr.ip))
  }

  /** update_permission for an address whose port has no channel. */
  function Grant(hash: Ip -> nat, perms: seq<seq<Perm>>, addr: Addr, expiration: int): seq<seq<Perm>>
    requires |perms| == HASH_SIZE
  {
    var (perms1, h) := EnsurePerm(hash, perms, addr);
    RefreshPerm(perms1, h, expiration)
  }

  /** allocation_get_new_ch_info followed by update_channel_lifetime. */
  function BindNew(hash: Ip -> nat, perms: seq<seq<Perm>>, chns: seq<seq<Chan>>, n: nat, peer: Addr, expiration: int)
    : (seq<seq<Perm>>, seq<seq<Chan>>)
    requires PermsOk(hash, perms) && |chns| == HASH_SIZE
    requires LmMap.Shaped(At(EnsurePerm(hash, perms, peer).0, EnsurePerm(hash, perms, peer).1).chns)
  {
    var (perms1, owner) := EnsurePerm(hash, perms, peer);
    var h := FreeChan(chns, n);
    (RefreshPerm(LinkChan(perms1, owner, Port(peer), h), owner, expiration),
     RefreshChan(AddChan(chns, n, peer, owner), h, expiration))
  }

  // ---------------------------------------------------------------- EnsurePerm and Grant

  lemma EnsurePermOk(hash: Ip -> nat, perms: seq<seq<Perm>>, chns: seq<seq<Chan>>, addr: Addr)
    requires Inv(hash, perms, chns)
    ensures var (perms1, h) := EnsurePerm(hash, perms, addr);
      && Inv(hash, perms1, chns) && At(perms1, h).live && At(perms1, h).addr.ip == addr.ip
      && (FindPerm(hash, perms, addr.ip).None? ==> At(perms1, h).chns == LmMap.EmptyTable())
      && (Timed(perms, chns) ==> Timed(RefreshPerm(perms1, h, 0), chns))
    ensures LmMap.Shaped(At(EnsurePerm(hash, perms, addr).0, EnsurePerm(hash, perms, addr).1).chns)
  {
    hide FreePerm, LmMap.EmptyTable, LmMap.Get, Owned, Linked;
    var f := FindPerm(hash, perms, addr.ip);
    if f.Some? {
      FindPermIff(hash, perms, addr.ip, f.value);
    } else {
      AddPermOk(hash, perms, chns, addr);
      LmMap.EmptyTableIsMap<Handle>(0);
    }
  }

  lemma EnsurePermExpiry(hash: Ip -> nat, perms: seq<seq<Perm>>, chns: seq<seq<Chan>>, addr: Addr, ip: Ip)
    requires Inv(hash, perms, chns)
    ensures |EnsurePerm(hash, perms, addr).0| == HASH_SIZE
    ensures !IpEq(addr.ip, ip) ==> Expiry(hash, EnsurePerm(hash, perms, addr).0, ip) == Expiry(hash, perms, ip)
  {
    hide Expiry, LmMap.EmptyTable;
    EnsurePermOk(hash, perms, chns, addr);
    var f := FindPerm(hash, perms, addr.ip);
    if f.None? {
      FreePermIsFree(hash, perms, addr.ip);
      ExpiryAfterStore(hash, perms, FreePerm(hash, perms, addr.ip), ZeroPerm().(live := true, addr := addr), ip);
    } else {
      FindPermIff(hash, perms, addr.ip, f.value);
    }
  }

  lemma RefreshPermExpiry(hash: Ip -> nat, perms: seq<seq<Perm>>, chns: seq<seq<Chan>>, h: Handle, expiration: int, ip: Ip)
    requires Inv(hash, perms, chns) && Has(perms, h) && At(perms, h).live
    ensures Inv(hash, RefreshPerm(perms, h, expiration), chns)
    ensures Expiry(hash, RefreshPerm(perms, h, expiration), ip) ==
              if IpEq(At(perms, h).addr.ip, ip) then Some(expiration) else Expiry(hash, perms, ip)
  {
    hide Expiry, Owned, Linked;
    RefreshPermOk(hash, perms, chns, h, expiration);
    ExpiryAfterStore(hash, perms, h, At(perms, h).(expiration := expiration, timer := true), ip);
  }

  /** Granting a permission sets the expiry of its IP and of no other. */
  lemma GrantOk(hash: Ip -> nat, perms: seq<seq<Perm>>, chns: seq<seq<Chan>>, addr: Addr, expiration: int)
    requires Good(hash, perms, chns)
    ensures Good(hash, Grant(hash, perms, addr, expiration), chns)
    ensures forall ip :: Expiry(hash, Grant(hash, perms, addr, expiration), ip) ==
              if IpEq(addr.ip, ip) then Some(expiration) else Expiry(hash, perms, ip)
  {
    hide Expiry, Owned, Linked, EnsurePerm, FindPerm;
    EnsurePermOk(hash, perms, chns, addr);
    var (perms1, h) := EnsurePerm(hash, perms, addr);
    RefreshPermOk(hash, perms1, chns, h, expiration);
    assert Timed(RefreshPerm(perms1, h, 0), chns);
    forall g: Handle | Has(RefreshPerm(perms1, h, expiration), g)
      ensures At(RefreshPerm(perms1, h, expiration), g).timer <==> At(RefreshPerm(perms1, h, expiration), g).live
    {
      assert Has(RefreshPerm(perms1, h, 0), g);
    }
    forall ip
      ensures Expiry(hash, Grant(hash, perms, addr, expiration), ip) ==
                if IpEq(addr.ip, ip) then Some(expiration) else Expiry(hash, perms, ip)
    {
      EnsurePermExpiry(hash, perms, chns, addr, ip);
      RefreshPermExpiry(hash, perms1, chns, h, expiration, ip);
    }
  }

  // ---------------------------------------------------------------- binding a new channel

  ghost predicate CanBind(hash: Ip -> nat, perms: seq<seq<Perm>>, chns: seq<seq<Chan>>, n: nat, peer: Addr) {
    && ValidChannel(n) && Port(peer) > 0
    && ChansOk(chns) && PermsOk(hash, perms)
    && FindChan(chns, n).None?
    && (FindPerm(hash, perms, peer.ip).Some? ==> PortEntry(perms, FindPerm(hash, perms, peer.ip).value, Port(peer)).None?)
  }

  lemma CanAddChan(hash: Ip -> nat, perms: seq<seq<Perm>>, chns: seq<seq<Chan>>, n: nat, peer: Addr)
    requires Inv(hash, perms, chns) && CanBind(hash, perms, chns, n, peer)
    ensures var (perms1, owner) := EnsurePerm(hash, perms, peer);
      && Inv(hash, perms1, chns) && At(perms1, owner).live && At(perms1, owner).addr.ip == peer.ip
      && LmMap.Shaped(At(perms1, owner).chns)
      && PortEntry(perms1, owner, Port(peer)).None?
  {
    hide LmMap.EmptyTable, Owned, Linked;
    EnsurePermOk(hash, perms, chns, peer);
    if FindPerm(hash, perms, peer.ip).None? {
      LmMap.EmptyTableIsMap<Handle>(Port(peer));
    } else {
      FindPermIff(hash, perms, peer.ip, FindPerm(hash, perms, peer.ip).value);
    }
  }

  /** A new binding keeps the invariant: the three tables agree again and all timers are armed. */
  lemma BindNewOk(hash: Ip -> nat, perms: seq<seq<Perm>>, chns: seq<seq<Chan>>, n: nat, peer: Addr, expiration: int)
    requires Good(hash, perms, chns) && CanBind(hash, perms, chns, n, peer)
    ensures LmMap.Shaped(At(EnsurePerm(hash, perms, peer).0, EnsurePerm(hash, perms, peer).1).chns)
    ensures var (perms', chns') := BindNew(hash, perms, chns, n, peer, expiration); Good(hash, perms', chns')
  {
    hide Expiry, EnsurePerm, FindPerm, FindChan, FreeChan, LmMap.Get, LmMap.Put, PortEntry, Owned, Linked;
    CanAddChan(hash, perms, chns, n, peer);
    EnsurePermOk(hash, perms, chns, peer);
    var (perms1, owner) := EnsurePerm(hash, perms, peer);
    var h := FreeChan(chns, n);
    AddChanOk(hash, perms1, chns, n, peer, owner);
    var perms2, chns2 := LinkChan(perms1, owner, Port(peer), h), AddChan(chns, n, peer, owner);
    RefreshPermOk(hash, perms2, chns2, owner, expiration);
    var perms3 := RefreshPerm(perms2, owner, expiration);
    RefreshChanOk(hash, perms3, chns2, h, expiration);
    assert Timed(RefreshPerm(perms1, owner, 0), chns);
    TimedAfterBind(perms1, owner, At(perms3, owner), chns, h, At(RefreshChan(chns2, h, expiration), h));
    StoreTwice(perms1, owner, At(perms2, owner), At(perms3, owner));
    StoreTwice(chns, h, At(chns2, h), At(RefreshChan(chns2, h, expiration), h));
  }

  lemma TimedAfterBind(perms: seq<seq<Perm>>, owner: Handle, p: Perm, chns: seq<seq<Chan>>, h: Handle, c: Chan)
    requires Has(perms, owner) && h.bucket < |chns| && h.slot <= |chns[h.bucket]|
    requires Timed(RefreshPerm(perms, owner, 0), chns) && p.timer && p.live && c.timer && c.live
    ensures Timed(Store(perms, owner, p), Store(chns, h, c))
  {
    var q := RefreshPerm(perms, owner, 0);
    forall g: Handle | Has(Store(perms, owner, p), g)
      ensures At(Store(perms, owner, p), g).timer <==> At(Store(perms, owner, p), g).live
    {
      assert Has(q, g);
    }
  }

  /** What lookups answer after a new binding. */
  lemma BindNewEffect(hash: Ip -> nat, perms: seq<seq<Perm>>, chns: seq<seq<Chan>>, n: nat, peer: Addr, expiration: int,
                      ip: Ip, m: nat)
    requires Good(hash, perms, chns) && CanBind(hash, perms, chns, n, peer)
    requires LmMap.Shaped(At(EnsurePerm(hash, perms, peer).0, EnsurePerm(hash, perms, peer).1).chns)
    requires Good(hash, BindNew(hash, perms, chns, n, peer, expiration).0, BindNew(hash, perms, chns, n, peer, expiration).1)
    ensures var (perms', chns') := BindNew(hash, perms, chns, n, peer, expiration);
      && Expiry(hash, perms', ip) == (if IpEq(peer.ip, ip) then Some(expiration) else Expiry(hash, perms, ip))
      && Bound(chns', m) == (if m == n then Some(Binding(peer, expiration)) else Bound(chns, m))
  {
    hide Expiry, Bound, EnsurePerm, FindPerm, FindChan, FreeChan, LmMap.Get, LmMap.Put, PortEntry, Owned, Linked;
    CanAddChan(hash, perms, chns, n, peer);
    var (perms1, owner) := EnsurePerm(hash, perms, peer);
    var h := FreeChan(chns, n);
    var (perms3, chns3) := BindNew(hash, perms, chns, n, peer, expiration);
    StoreTwice(perms1, owner, At(LinkChan(perms1, owner, Port(peer), h), owner), At(perms3, owner));
    ExpiryAfterStore(hash, perms1, owner, At(perms3, owner), ip);
    EnsurePermExpiry(hash, perms, chns, peer, ip);
    StoreTwice(chns, h, At(AddChan(chns, n, peer, owner), h), At(chns3, h));
    FreeChanIsFree(chns, n);
    BoundAfterStore(chns, h, At(chns3, h), m);
  }

  // ---------------------------------------------------------------- renewing a channel

  /** update_channel_lifetime: channel and owning permission get the same new expiry. */
  lemma RenewOk(hash: Ip -> nat, perms: seq<seq<Perm>>, chns: seq<seq<Chan>>, h: Handle, expiration: int)
    requires Good(hash, perms, chns) && Has(chns, h) && At(chns, h).live
    ensures var c := At(chns, h);
      && c.owner.Some? && Has(perms, c.owner.value)
      && Good(hash, RefreshPerm(perms, c.owner.value, expiration), RefreshChan(chns, h, expiration))
      && (forall ip :: Expiry(hash, RefreshPerm(perms, c.owner.value, expiration), ip) ==
            if IpEq(c.peer.ip, ip) then Some(expiration) else Expiry(hash, perms, ip))
      && (forall m: nat :: Bound(RefreshChan(chns, h, expiration), m) ==
            if m == c.chnum then Some(Binding(c.peer, expiration)) else Bound(chns, m))
  {
    hide Expiry, Bound, PortEntry, FindChan, FindPerm, LmMap.Get;
    var c := At(chns, h);
    assert OwnedBy(perms, c, h);
    var owner := c.owner.value;
    RefreshPermOk(hash, perms, chns, owner, expiration);
    var perms' := RefreshPerm(perms, owner, expiration);
    RefreshChanOk(hash, perms', chns, h, expiration);
    forall ip
      ensures Expiry(hash, perms', ip) == if IpEq(c.peer.ip, ip) then Some(expiration) else Expiry(hash, perms, ip)
    {
      RefreshPermExpiry(hash, perms, chns, owner, expiration, ip);
    }
    forall m: nat
      ensures Bound(RefreshChan(chns, h, expiration), m) ==
                if m == c.chnum then Some(Binding(c.peer, expiration)) else Bound(chns, m)
    {
      BoundAfterStore(chns, h, c.(expiration := expiration, timer := true), m);
    }
  }

  // ---------------------------------------------------------------- dropping a channel or a permission

  /** turn_channel_delete: one binding is gone, every permission stays. */
  lemma DropChanOk(hash: Ip -> nat, perms: seq<seq<Perm>>, chns: seq<seq<Chan>>, h: Handle)
    requires Good(hash, perms, chns) && Has(chns, h) && At(chns, h).live
    ensures var c := At(chns, h);
      && c.owner.Some? && c.port >= 0 && Has(perms, c.owner.value) && LmMap.Shaped(At(perms, c.owner.value).chns)
      && Good(hash, UnlinkChan(perms, c.owner.value, c.port), Store(chns, h, ZeroChan()))
      && (forall ip :: Expiry(hash, UnlinkChan(perms, c.owner.value, c.port), ip) == Expiry(hash, perms, ip))
      && (forall m: nat :: Bound(Store(chns, h, ZeroChan()), m) == if m == c.chnum then None else Bound(chns, m))
  {
    hide Expiry, Bound, PortEntry, FindChan, FindPerm, LmMap.Get, LmMap.Del, Owned, Linked;
    var c := At(chns, h);
    DelChanOk(hash, perms, chns, h);
    var owner := c.owner.value;
    var perms' := UnlinkChan(perms, owner, c.port);
    forall ip
      ensures Expiry(hash, perms', ip) == Expiry(hash, perms, ip)
    {
      forall g: Handle
        ensures IsPermFor(perms, g, ip) <==> IsPermFor(perms', g, ip)
      {
      }
      ExpirySame(hash, perms, perms', ip);
    }
    forall m: nat
      ensures Bound(Store(chns, h, ZeroChan()), m) == if m == c.chnum then None else Bound(chns, m)
    {
      BoundAfterStore(chns, h, ZeroChan(), m);
    }
  }

  /** turn_permission_clean: the permission of one IP is gone, and with it every binding to that IP. */
  lemma DropPermOk(hash: Ip -> nat, perms: seq<seq<Perm>>, chns: seq<seq<Chan>>, p: Handle)
    requires Good(hash, perms, chns) && Has(perms, p) && At(perms, p).live
    ensures forall i :: 0 <= i < |LmMap.Values(At(perms, p).chns)| ==> Has(chns, LmMap.Values(At(perms, p).chns)[i])
    ensures var perms', chns' := Store(perms, p, ZeroPerm()), ZeroAll(chns, LmMap.Values(At(perms, p).chns));
      && Good(hash, perms', chns')
      && (forall ip :: Expiry(hash, perms', ip) ==
            if IpEq(At(perms, p).addr.ip, ip) then None else Expiry(hash, perms, ip))
      && (forall m: nat :: Bound(chns', m) ==
            if Bound(chns, m).Some? && Bound(chns, m).value.peer.ip == At(perms, p).addr.ip then None else Bound(chns, m))
  {
    hide Expiry, PortEntry, FindChan, FindPerm, LmMap.Get, LmMap.Values, ZeroAll, Linked;
    CleanPermOk(hash, perms, chns, p);
    var hs := LmMap.Values(At(perms, p).chns);
    var perms', chns' := Store(perms, p, ZeroPerm()), ZeroAll(chns, hs);
    forall ip
      ensures Expiry(hash, perms', ip) == if IpEq(At(perms, p).addr.ip, ip) then None else Expiry(hash, perms, ip)
    {
      ExpiryAfterStore(hash, perms, p, ZeroPerm(), ip);
    }
    forall m: nat
      ensures Bound(chns', m) ==
        if Bound(chns, m).Some? && Bound(chns, m).value.peer.ip == At(perms, p).addr.ip then None else Bound(chns, m)
    {
      BoundAfterClean(hash, perms, chns, chns', p, m);
    }
  }

  lemma BoundAfterClean(hash: Ip -> nat, perms: seq<seq<Perm>>, chns: seq<seq<Chan>>, chns': seq<seq<Chan>>,
                        p: Handle, m: nat)
    requires Inv(hash, perms, chns) && ChansOk(chns') && Has(perms, p) && At(perms, p).live
    requires forall h: Handle :: Has(chns', h) <==> Has(chns, h)
    requires forall h: Handle :: Has(chns, h) ==>
               if At(chns, h).live && At(chns, h).owner == Some(p) then At(chns', h) == ZeroChan()
               else At(chns', h) == At(chns, h)
    ensures Bound(chns', m) ==
      if Bound(chns, m).Some? && Bound(chns, m).value.peer.ip == At(perms, p).addr.ip then None else Bound(chns, m)
  {
    hide Bound, PortEntry, FindChan, Linked;
    if h: Handle :| IsChan(chns, h, m) {
      BoundIs(chns, m, h);
      assert OwnedBy(perms, At(chns, h), h);
      if At(chns, h).owner == Some(p) {
        forall g: Handle
          ensures !IsChan(chns', g, m)
        {
          if IsChan(chns', g, m) && !IsChan(chns, g, m) {
            assert false;
          }
        }
        BoundNone(chns', m);
      } else {
        assert IsChan(chns', h, m);
        BoundIs(chns', m, h);
        var o := At(chns, h).owner.value;
        assert At(chns, h).port == Port(At(chns, h).peer) > 0;
        if At(perms, o).addr.ip == At(perms, p).addr.ip && !IpEq(At(perms, o).addr.ip, At(perms, p).addr.ip) {
          assert false;
        }
      }
    } else {
      BoundNone(chns, m);
      forall g: Handle
        ensures !IsChan(chns', g, m)
      {
        assert !IsChan(chns, g, m);
      }
      BoundNone(chns', m);
    }
  }

  // ---------------------------------------------------------------- what the invariant gives the relay paths

  /** The channel of a peer address: the port entry of the permission for its IP. */
  ghost function ChannelOf(hash: Ip -> nat, perms: seq<seq<Perm>>, peer: Addr): Option<Handle>
    requires |perms| == HASH_SIZE
  {
    match FindPerm(hash, perms, peer.ip)
    case None => None
    case Some(g) => PortEntry(perms, g, Port(peer))
  }

  /** Channel numbers and peer transport addresses are one-to-one, and a bound peer is permitted. */
  lemma OneToOne(hash: Ip -> nat, perms: seq<seq<Perm>>, chns: seq<seq<Chan>>, n: nat, peer: Addr)
    requires Inv(hash, perms, chns)
    ensures (Bound(chns, n).Some? && Bound(chns, n).value.peer == peer) <==>
            (ChannelOf(hash, perms, peer).Some? && IsChan(chns, ChannelOf(hash, perms, peer).value, n) &&
             At(chns, ChannelOf(hash, perms, peer).value).peer == peer)
    ensures ChannelOf(hash, perms, peer).Some? ==> IsChan(chns, ChannelOf(hash, perms, peer).value,
                                                          At(chns, ChannelOf(hash, perms, peer).value).chnum)
    ensures ChannelOf(hash, perms, peer).Some? ==> At(chns, ChannelOf(hash, perms, peer).value).peer == peer
    ensures Bound(chns, n).Some? ==> Expiry(hash, perms, Bound(chns, n).value.peer.ip).Some?
  {
    hide FindPerm, FindChan, Linked, Owned, PortEntry, ChanOk;
    BoundMeans(hash, perms, chns, n);
    PeerMeans(hash, perms, chns, peer);
    if ChannelOf(hash, perms, peer).Some? {
      var h := ChannelOf(hash, perms, peer).value;
      if IsChan(chns, h, n) {
        BoundIs(chns, n, h);
      }
    }
  }

  /** A bound number has its channel, which is found under its peer. */
  lemma BoundMeans(hash: Ip -> nat, perms: seq<seq<Perm>>, chns: seq<seq<Chan>>, n: nat)
    requires Inv(hash, perms, chns)
    ensures Bound(chns, n).Some? ==>
              var peer := Bound(chns, n).value.peer;
              && Expiry(hash, perms, peer.ip).Some? && ChannelOf(hash, perms, peer).Some?
              && IsChan(chns, ChannelOf(hash, perms, peer).value, n)
              && At(chns, ChannelOf(hash, perms, peer).value).peer == peer
  {
    if Bound(chns, n).Some? {
      var h := FindChan(chns, n).value;
      FindChanIff(chns, n, h);
      var c := At(chns, h);
      assert OwnedBy(perms, c, h);
      ExpiryIs(hash, perms, c.peer.ip, c.owner.value);
    }
  }

  /** A channel that is found under a peer is bound to it. */
  lemma PeerMeans(hash: Ip -> nat, perms: seq<seq<Perm>>, chns: seq<seq<Chan>>, peer: Addr)
    requires Inv(hash, perms, chns)
    ensures ChannelOf(hash, perms, peer).Some? ==>
              var h := ChannelOf(hash, perms, peer).value;
              && Has(chns, h) && At(chns, h).live && At(chns, h).peer == peer && At(chns, h).chnum >= 0
              && IsChan(chns, h, At(chns, h).chnum)
  {
    if ChannelOf(hash, perms, peer).Some? {
      var g := FindPerm(hash, perms, peer.ip).value;
      FindPermIff(hash, perms, peer.ip, g);
      var h := PortEntry(perms, g, Port(peer)).value;
      assert LinkOk(chns, g, Port(peer), h);
      assert OwnedBy(perms, At(chns, h), h);
    }
  }
}
