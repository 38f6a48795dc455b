/**
 The permission table and the channel map of an allocation: what each elementary operation computes, and
 the invariant that ties the two tables, the per-permission port maps and the timers together.
 */
module Allocation {
  import opened Options
  import opened Slots
  import opened IoAddr
  import LmMap

  const HASH_SIZE := 8   // of both tables
  const ARRAY_SIZE := 3  // main slots per bucket

  datatype Perm = Perm(live: bool, addr: Addr, expiration: int, timer: bool, chns: LmMap.Table<Handle>)

  datatype Chan = Chan(live: bool, chnum: int, port: int, peer: Addr, expiration: int, timer: bool,
                       owner: Option<Handle>)

  function ZeroPerm(): Perm {
    Perm(false, ANY, 0, false, LmMap.EmptyTable())
  }

  function ZeroChan(): Chan {
    Chan(false, 0, 0, ANY, 0, false, None)
  }

  predicate ValidChannel(n: int) {
    0x4000 <= n <= 0x7FFF
  }

  // ---------------------------------------------------------------- lookups

  /** get_from_turn_permission_hashtable. */
  function FindPerm(hash: Ip -> nat, perms: seq<seq<Perm>>, ip: Ip): Option<Handle>
    requires |perms| == HASH_SIZE
  {
    var b := hash(ip) % HASH_SIZE;
    var i := First(perms[b], (p: Perm) => p.live && IpEq(p.addr.ip, ip));
    if i < |perms[b]| then Some(Handle(b, i)) else None
  }

  /** ch_map_get without new_chn. */
  function FindChan(chns: seq<seq<Chan>>, n: int): Option<Handle>
    requires |chns| == HASH_SIZE && n >= 0
  {
    var b := n % HASH_SIZE;
    var i := First(chns[b], (c: Chan) => c.live && c.chnum == n);
    if i < |chns[b]| then Some(Handle(b, i)) else None
  }

  function FreePerm(hash: Ip -> nat, perms: seq<seq<Perm>>, ip: Ip): (h: Handle)
    requires |perms| == HASH_SIZE
    ensures h.bucket < |perms| && h.slot <= |perms[h.bucket]|
  {
    var b := hash(ip) % HASH_SIZE;
    Handle(b, First(perms[b], (p: Perm) => !p.live))
  }

  function FreeChan(chns: seq<seq<Chan>>, n: int): (h: Handle)
    requires |chns| == HASH_SIZE && n >= 0
    ensures h.bucket < |chns| && h.slot <= |chns[h.bucket]|
  {
    var b := n % HASH_SIZE;
    Handle(b, First(chns[b], (c: Chan) => !c.live))
  }

  // ---------------------------------------------------------------- elementary changes

  /** allocation_add_permission. */
  function AddPerm(hash: Ip -> nat, perms: seq<seq<Perm>>, addr: Addr): seq<seq<Perm>>
    requires |perms| == HASH_SIZE
  {
    Store(perms, FreePerm(hash, perms, addr.ip), ZeroPerm().(live := true, addr := addr))
  }

  /** The effect of update_turn_permission_lifetime. */
  function RefreshPerm(perms: seq<seq<Perm>>, h: Handle, expiration: int): seq<seq<Perm>>
    requires Has(perms, h)
  {
    Store(perms, h, At(perms, h).(expiration := expiration, timer := true))
  }

  function RefreshChan(chns: seq<seq<Chan>>, h: Handle, expiration: int): seq<seq<Chan>>
    requires Has(chns, h)
  {
    Store(chns, h, At(chns, h).(expiration := expiration, timer := true))
  }

  /** The channel side of allocation_get_new_ch_info. */
  function AddChan(chns: seq<seq<Chan>>, n: int, peer: Addr, owner: Handle): seq<seq<Chan>>
    requires |chns| == HASH_SIZE && n >= 0
  {
    Store(chns, FreeChan(chns, n), Chan(true, n, Port(peer), peer, 0, false, Some(owner)))
  }

  /** The permission side of allocation_get_new_ch_info: the port map gets the new channel. */
  function LinkChan(perms: seq<seq<Perm>>, owner: Handle, port: nat, h: Handle): seq<seq<Perm>>
    requires Has(perms, owner) && LmMap.Shaped(At(perms, owner).chns)
  {
    var p := At(perms, owner);
    Store(perms, owner, p.(chns := LmMap.Put(p.chns, port, h).0))
  }

  function UnlinkChan(perms: seq<seq<Perm>>, owner: Handle, port: nat): seq<seq<Perm>>
    requires Has(perms, owner) && LmMap.Shaped(At(perms, owner).chns)
  {
    var p := At(perms, owner);
    Store(perms, owner, p.(chns := LmMap.Del(p.chns, port)))
  }

  // ---------------------------------------------------------------- the invariant

  ghost predicate PermsOk(hash: Ip -> nat, perms: seq<seq<Perm>>) {
    && |perms| == HASH_SIZE
    && (forall b :: 0 <= b < HASH_SIZE ==> |perms[b]| >= ARRAY_SIZE)
    && (forall h: Handle :: Has(perms, h) ==>
          if At(perms, h).live then
            LmMap.Distinct(At(perms, h).chns) && hash(At(perms, h).addr.ip) % HASH_SIZE == h.bucket
          else
            At(perms, h) == ZeroPerm())
    && (forall g: Handle, h: Handle :: (Has(perms, g) && Has(perms, h) && At(perms, g).live && At(perms, h).live
          && IpEq(At(perms, g).addr.ip, At(perms, h).addr.ip)) ==> g == h)
  }

  ghost predicate ChansOk(chns: seq<seq<Chan>>) {
    && |chns| == HASH_SIZE
    && (forall b :: 0 <= b < HASH_SIZE ==> |chns[b]| >= ARRAY_SIZE)
    && (forall h: Handle :: Has(chns, h) ==>
          if At(chns, h).live then ChanOk(At(chns, h)) && At(chns, h).chnum % HASH_SIZE == h.bucket
          else At(chns, h) == ZeroChan())
    && (forall g: Handle, h: Handle :: (Has(chns, g) && Has(chns, h) && At(chns, g).live && At(chns, h).live
          && At(chns, g).chnum == At(chns, h).chnum) ==> g == h)
  }

  ghost predicate ChanOk(c: Chan) {
    ValidChannel(c.chnum) && c.port == Port(c.peer) > 0
  }

  /** Every live channel is stored under its port in a live permission for its peer's IP ... */
  ghost predicate Owned(perms: seq<seq<Perm>>, chns: seq<seq<Chan>>) {
    forall h: Handle :: Has(chns, h) && At(chns, h).live ==> OwnedBy(perms, At(chns, h), h)
  }

  ghost predicate OwnedBy(perms: seq<seq<Perm>>, c: Chan, h: Handle) {
    && c.owner.Some? && Has(perms, c.owner.value)
    && At(perms, c.owner.value).live && At(perms, c.owner.value).addr.ip == c.peer.ip
    && c.port >= 0 && PortEntry(perms, c.owner.value, c.port) == Some(h)
  }

  /** ... and every entry of a port map is such a channel. */
  ghost predicate Linked(perms: seq<seq<Perm>>, chns: seq<seq<Chan>>) {
    forall g: Handle, key: nat :: PortEntry(perms, g, key).Some? ==> LinkOk(chns, g, key, PortEntry(perms, g, key).value)
  }

  /** The channel that a live permission lists under a port. */
  ghost function PortEntry(perms: seq<seq<Perm>>, g: Handle, key: nat): Option<Handle> {
    if Has(perms, g) && At(perms, g).live && LmMap.Shaped(At(perms, g).chns) then LmMap.Get(At(perms, g).chns, key)
    else None
  }

  ghost predicate LinkOk(chns: seq<seq<Chan>>, g: Handle, key: nat, h: Handle) {
    Has(chns, h) && At(chns, h).live && At(chns, h).owner == Some(g) && At(chns, h).port == key
  }

  /** Timers are armed exactly for the live permissions and channels. */
  ghost predicate Timed(perms: seq<seq<Perm>>, chns: seq<seq<Chan>>) {
    && (forall h: Handle :: Has(perms, h) ==> (At(perms, h).timer <==> At(perms, h).live))
    && (forall h: Handle :: Has(chns, h) ==> (At(chns, h).timer <==> At(chns, h).live))
  }

  ghost predicate Inv(hash: Ip -> nat, perms: seq<seq<Perm>>, chns: seq<seq<Chan>>) {
    PermsOk(hash, perms) && ChansOk(chns) && Owned(perms, chns) && Linked(perms, chns)
  }

  // ---------------------------------------------------------------- lookups under the invariant

  lemma FindPermIff(hash: Ip -> nat, perms: seq<seq<Perm>>, ip: Ip, h: Handle)
    requires PermsOk(hash, perms)
    ensures FindPerm(hash, perms, ip) == Some(h) <==>
              Has(perms, h) && At(perms, h).live && IpEq(At(perms, h).addr.ip, ip)
  {
    var r := FindPerm(hash, perms, ip);
    if r.Some? {
      assert At(perms, r.value).live && IpEq(At(perms, r.value).addr.ip, ip);
    }
    if Has(perms, h) && At(perms, h).live && IpEq(At(perms, h).addr.ip, ip) {
      assert perms[h.bucket][h.slot] == At(perms, h);
    }
  }

  lemma FindChanIff(chns: seq<seq<Chan>>, n: nat, h: Handle)
    requires ChansOk(chns)
    ensures FindChan(chns, n) == Some(h) <==> Has(chns, h) && At(chns, h).live && At(chns, h).chnum == n
  {
    var r := FindChan(chns, n);
    if r.Some? {
      assert At(chns, r.value).live && At(chns, r.value).chnum == n;
    }
    if Has(chns, h) && At(chns, h).live && At(chns, h).chnum == n {
      assert chns[h.bucket][h.slot] == At(chns, h);
    }
  }

  // ---------------------------------------------------------------- preservation

  /** The two tables stay linked when only a permission without channels, or no port map at all, changes. */
  lemma KeepLinks(perms: seq<seq<Perm>>, perms': seq<seq<Perm>>, chns: seq<seq<Chan>>)
    requires Owned(perms, chns) && Linked(perms, chns)
    requires forall g: Handle :: Has(perms, g) && At(perms, g).live ==>
               Has(perms', g) && At(perms', g).live && At(perms', g).addr == At(perms, g).addr
    requires forall g: Handle, key: nat :: PortEntry(perms', g, key) == PortEntry(perms, g, key)
    ensures Owned(perms', chns) && Linked(perms', chns)
  {
    hide PortEntry, LinkOk;
    forall h: Handle | Has(chns, h) && At(chns, h).live
      ensures OwnedBy(perms', At(chns, h), h)
    {
      assert OwnedBy(perms, At(chns, h), h);
    }
  }

  lemma FreePermIsFree(hash: Ip -> nat, perms: seq<seq<Perm>>, ip: Ip)
    requires PermsOk(hash, perms)
    ensures var h := FreePerm(hash, perms, ip); Has(perms, h) ==> At(perms, h) == ZeroPerm()
  {
    var h := FreePerm(hash, perms, ip);
    if Has(perms, h) {
      assert !perms[h.bucket][h.slot].live;
    }
  }

  lemma FreeChanIsFree(chns: seq<seq<Chan>>, n: nat)
    requires ChansOk(chns)
    ensures var h := FreeChan(chns, n); Has(chns, h) ==> At(chns, h) == ZeroChan()
  {
    var h := FreeChan(chns, n);
    if Has(chns, h) {
      assert !chns[h.bucket][h.slot].live;
    }
  }

  /** Adding a permission for an IP that has none. */
  lemma AddPermOk(hash: Ip -> nat, perms: seq<seq<Perm>>, chns: seq<seq<Chan>>, addr: Addr)
    requires Inv(hash, perms, chns) && FindPerm(hash, perms, addr.ip).None?
    ensures Inv(hash, AddPerm(hash, perms, addr), chns)
  {
    hide LmMap.Get, LmMap.Distinct, FindPerm, FreePerm, LmMap.EmptyTable;
    var h := FreePerm(hash, perms, addr.ip);
    FreePermIsFree(hash, perms, addr.ip);
    var perms' := AddPerm(hash, perms, addr);
    LmMap.EmptyTableIsMap<Handle>(0);
    forall g: Handle | Has(perms, g) && At(perms, g).live
      ensures !IpEq(At(perms, g).addr.ip, addr.ip)
    {
      FindPermIff(hash, perms, addr.ip, g);
    }
    FreePermBucket(hash, perms, addr.ip);
    assert PermsOk(hash, perms');
    forall g: Handle, key: nat
      ensures PortEntry(perms', g, key) == PortEntry(perms, g, key)
    {
      LmMap.EmptyTableIsMap<Handle>(key);
    }
    KeepLinks(perms, perms', chns);
  }

  lemma FreePermBucket(hash: Ip -> nat, perms: seq<seq<Perm>>, ip: Ip)
    requires |perms| == HASH_SIZE
    ensures FreePerm(hash, perms, ip).bucket == hash(ip) % HASH_SIZE
  {
  }

  /** Touching only expiry and timer of a permission keeps the structure. */
  lemma RefreshPermOk(hash: Ip -> nat, perms: seq<seq<Perm>>, chns: seq<seq<Chan>>, h: Handle, expiration: int)
    requires Inv(hash, perms, chns) && Has(perms, h) && At(perms, h).live
    ensures Inv(hash, RefreshPerm(perms, h, expiration), chns)
  {
    hide LmMap.Get, LmMap.Distinct;
    KeepLinks(perms, RefreshPerm(perms, h, expiration), chns);
  }

  lemma RefreshChanOk(hash: Ip -> nat, perms: seq<seq<Perm>>, chns: seq<seq<Chan>>, h: Handle, expiration: int)
    requires Inv(hash, perms, chns) && Has(chns, h) && At(chns, h).live
    ensures Inv(hash, perms, RefreshChan(chns, h, expiration))
  {
    hide PortEntry, LmMap.Get;
    var chns' := RefreshChan(chns, h, expiration);
    assert OwnedBy(perms, At(chns, h), h);
    forall g: Handle, key: nat | PortEntry(perms, g, key).Some?
      ensures LinkOk(chns', g, key, PortEntry(perms, g, key).value)
    {
      assert LinkOk(chns, g, key, PortEntry(perms, g, key).value);
    }
  }

  /** Binding a new channel number to a new port of a permitted peer. */
  lemma AddChanOk(hash: Ip -> nat, perms: seq<seq<Perm>>, chns: seq<seq<Chan>>, n: int, peer: Addr, owner: Handle)
    requires Inv(hash, perms, chns) && ValidChannel(n) && Port(peer) > 0
    requires Has(perms, owner) && At(perms, owner).live && At(perms, owner).addr.ip == peer.ip
    requires FindChan(chns, n).None? && PortEntry(perms, owner, Port(peer)).None?
    ensures LmMap.Shaped(At(perms, owner).chns)
    ensures Inv(hash, LinkChan(perms, owner, Port(peer), FreeChan(chns, n)), AddChan(chns, n, peer, owner))
  {
    hide FindChan, LmMap.Get, LmMap.Put, First, PermsOk;
    var h, port := FreeChan(chns, n), Port(peer);
    FreeChanIsFree(chns, n);
    AddChanTable(chns, n, peer, owner);
    LinkChanTable(hash, perms, owner, port, h);
    LinksAfterAdd(perms, LinkChan(perms, owner, port, h), chns, AddChan(chns, n, peer, owner), h, owner, port);
  }

  lemma AddChanTable(chns: seq<seq<Chan>>, n: int, peer: Addr, owner: Handle)
    requires ChansOk(chns) && ValidChannel(n) && Port(peer) > 0 && FindChan(chns, n).None?
    ensures ChansOk(AddChan(chns, n, peer, owner))
  {
    hide FindChan, First;
    FreeChanIsFree(chns, n);
    forall g: Handle | Has(chns, g) && At(chns, g).live
      ensures At(chns, g).chnum != n
    {
      FindChanIff(chns, n, g);
    }
  }

  lemma LinkChanTable(hash: Ip -> nat, perms: seq<seq<Perm>>, owner: Handle, port: nat, h: Handle)
    requires PermsOk(hash, perms) && Has(perms, owner) && At(perms, owner).live && port > 0
    requires PortEntry(perms, owner, port).None?
    ensures LmMap.Shaped(At(perms, owner).chns) && PermsOk(hash, LinkChan(perms, owner, port, h))
    ensures forall g: Handle, key: nat :: PortEntry(LinkChan(perms, owner, port, h), g, key) ==
              if g == owner && key == port then Some(h) else PortEntry(perms, g, key)
  {
    hide LmMap.Get, LmMap.Put;
    LmMap.PutAbsent(At(perms, owner).chns, port, h, port);
    forall g: Handle, key: nat
      ensures PortEntry(LinkChan(perms, owner, port, h), g, key) ==
                if g == owner && key == port then Some(h) else PortEntry(perms, g, key)
    {
      LmMap.PutAbsent(At(perms, owner).chns, port, h, key);
    }
  }

  lemma LinksAfterAdd(perms: seq<seq<Perm>>, perms': seq<seq<Perm>>, chns: seq<seq<Chan>>, chns': seq<seq<Chan>>,
                      h: Handle, owner: Handle, port: nat)
    requires Owned(perms, chns) && Linked(perms, chns)
    requires forall g: Handle :: Has(perms, g) && At(perms, g).live ==>
               Has(perms', g) && At(perms', g).live && At(perms', g).addr == At(perms, g).addr
    requires PortEntry(perms, owner, port).None? && (Has(chns, h) ==> !At(chns, h).live)
    requires forall g: Handle, key: nat ::
               PortEntry(perms', g, key) == if g == owner && key == port then Some(h) else PortEntry(perms, g, key)
    requires forall g: Handle :: g != h ==> (Has(chns', g) <==> Has(chns, g))
    requires forall g: Handle :: g != h && Has(chns, g) ==> At(chns', g) == At(chns, g)
    requires Has(chns', h) && At(chns', h).live && At(chns', h).owner == Some(owner) && At(chns', h).port == port
    requires Has(perms', owner) && At(perms', owner).live && At(perms', owner).addr.ip == At(chns', h).peer.ip
    ensures Owned(perms', chns') && Linked(perms', chns')
  {
    hide PortEntry;
    forall g: Handle | Has(chns', g) && At(chns', g).live
      ensures OwnedBy(perms', At(chns', g), g)
    {
      if g != h {
        assert OwnedBy(perms, At(chns, g), g);
      }
    }
    forall g: Handle, key: nat | PortEntry(perms', g, key).Some?
      ensures LinkOk(chns', g, key, PortEntry(perms', g, key).value)
    {
      if g != owner || key != port {
        assert LinkOk(chns, g, key, PortEntry(perms, g, key).value);
      }
    }
  }

  /** turn_channel_delete: the channel leaves its owner's port map and its slot is zeroed. */
  lemma DelChanOk(hash: Ip -> nat, perms: seq<seq<Perm>>, chns: seq<seq<Chan>>, h: Handle)
    requires Inv(hash, perms, chns) && Has(chns, h) && At(chns, h).live
    ensures var c := At(chns, h);
            && c.owner.Some? && c.port >= 0 && Has(perms, c.owner.value) && At(perms, c.owner.value).live
            && LmMap.Shaped(At(perms, c.owner.value).chns)
            && Inv(hash, UnlinkChan(perms, c.owner.value, c.port), Store(chns, h, ZeroChan()))
  {
    hide LmMap.Get, LmMap.Del, First;
    var c := At(chns, h);
    assert OwnedBy(perms, c, h);
    var owner, port: nat := c.owner.value, c.port;
    UnlinkEntries(hash, perms, owner, port);
    var perms', chns' := UnlinkChan(perms, owner, port), Store(chns, h, ZeroChan());
    ZeroChanOk(chns, h);
    hide PermsOk, ChansOk, PortEntry, UnlinkChan;
    LinksAfterDel(perms, perms', chns, chns', h, owner, port);
  }

  lemma ZeroChanOk(chns: seq<seq<Chan>>, h: Handle)
    requires ChansOk(chns) && Has(chns, h)
    ensures ChansOk(Store(chns, h, ZeroChan()))
  {
  }

  lemma UnlinkEntries(hash: Ip -> nat, perms: seq<seq<Perm>>, owner: Handle, port: nat)
    requires PermsOk(hash, perms) && Has(perms, owner) && At(perms, owner).live
    ensures LmMap.Shaped(At(perms, owner).chns)
    ensures var perms' := UnlinkChan(perms, owner, port);
            && PermsOk(hash, perms')
            && (forall g: Handle :: Has(perms, g) && At(perms, g).live ==>
                  Has(perms', g) && At(perms', g).live && At(perms', g).addr == At(perms, g).addr)
            && (forall g: Handle, key: nat ::
                  PortEntry(perms', g, key) == if g == owner && key == port then None else PortEntry(perms, g, key))
  {
    hide LmMap.Get, LmMap.Del, First;
    LmMap.DelRemoves(At(perms, owner).chns, port, port);
    var perms' := UnlinkChan(perms, owner, port);
    forall g: Handle, key: nat
      ensures PortEntry(perms', g, key) == if g == owner && key == port then None else PortEntry(perms, g, key)
    {
      LmMap.DelRemoves(At(perms, owner).chns, port, key);
    }
  }

  lemma LinksAfterDel(perms: seq<seq<Perm>>, perms': seq<seq<Perm>>, chns: seq<seq<Chan>>, chns': seq<seq<Chan>>,
                      h: Handle, owner: Handle, port: nat)
    requires Owned(perms, chns) && Linked(perms, chns)
    requires forall g: Handle :: Has(perms, g) && At(perms, g).live ==>
               Has(perms', g) && At(perms', g).live && At(perms', g).addr == At(perms, g).addr
    requires Has(chns, h) && At(chns, h).live && PortEntry(perms, owner, port) == Some(h)
    requires At(chns, h).owner == Some(owner) && At(chns, h).port == port
    requires forall g: Handle, key: nat ::
               PortEntry(perms', g, key) == if g == owner && key == port then None else PortEntry(perms, g, key)
    requires forall g: Handle :: Has(chns', g) <==> Has(chns, g)
    requires forall g: Handle :: g != h && Has(chns, g) ==> At(chns', g) == At(chns, g)
    requires Has(chns', h) && !At(chns', h).live
    ensures Owned(perms', chns') && Linked(perms', chns')
  {
    hide PortEntry;
    forall g: Handle | Has(chns', g) && At(chns', g).live
      ensures OwnedBy(perms', At(chns', g), g)
    {
      assert OwnedBy(perms, At(chns, g), g);
    }
    forall g: Handle, key: nat | PortEntry(perms', g, key).Some?
      ensures LinkOk(chns', g, key, PortEntry(perms', g, key).value)
    {
      assert LinkOk(chns, g, key, PortEntry(perms, g, key).value);
    }
  }

  /** Zeroing the slots of a list of channels, one after the other. */
  function ZeroAll(chns: seq<seq<Chan>>, hs: seq<Handle>): (chns': seq<seq<Chan>>)
    requires forall i :: 0 <= i < |hs| ==> Has(chns, hs[i])
    ensures |chns'| == |chns|
    ensures forall g: Handle :: Has(chns', g) <==> Has(chns, g)
    ensures forall g: Handle :: Has(chns, g) ==> At(chns', g) == if g in hs then ZeroChan() else At(chns, g)
    decreases |hs|
  {
    if hs == [] then chns
    else
      assert Has(chns, hs[0]);
      ZeroAll(Store(chns, hs[0], ZeroChan()), hs[1..])
  }

  /** turn_permission_clean: a permission takes all its channels with it. */
  lemma CleanPermOk(hash: Ip -> nat, perms: seq<seq<Perm>>, chns: seq<seq<Chan>>, p: Handle)
    requires Inv(hash, perms, chns) && Has(perms, p) && At(perms, p).live
    ensures forall h :: h in LmMap.Values(At(perms, p).chns) <==> Has(chns, h) && At(chns, h).live && At(chns, h).owner == Some(p)
    ensures Inv(hash, Store(perms, p, ZeroPerm()), ZeroAll(chns, LmMap.Values(At(perms, p).chns)))
  {
    hide LmMap.Get, LmMap.Values, LmMap.EmptyTable, ZeroAll;
    var t := At(perms, p).chns;
    var hs := LmMap.Values(t);
    forall h
      ensures h in hs <==> Has(chns, h) && At(chns, h).live && At(chns, h).owner == Some(p)
    {
      LmMap.ValuesAreLookups(t, h);
      if h in hs {
        var key: nat :| LmMap.Get(t, key) == Some(h);
        assert PortEntry(perms, p, key) == Some(h);
        assert LinkOk(chns, p, key, h);
      }
      if Has(chns, h) && At(chns, h).live && At(chns, h).owner == Some(p) {
        assert OwnedBy(perms, At(chns, h), h);
      }
    }
    var perms', chns' := Store(perms, p, ZeroPerm()), ZeroAll(chns, hs);
    assert PermsOk(hash, perms');
    ZeroAllShape(chns, hs);
    assert ChansOk(chns');
    LinksAfterClean(perms, perms', chns, chns', p);
  }

  lemma {:induction false} ZeroAllShape(chns: seq<seq<Chan>>, hs: seq<Handle>)
    requires forall i :: 0 <= i < |hs| ==> Has(chns, hs[i])
    ensures forall b :: 0 <= b < |chns| ==> |ZeroAll(chns, hs)[b]| == |chns[b]|
    decreases |hs|
  {
    if hs != [] {
      ZeroAllShape(Store(chns, hs[0], ZeroChan()), hs[1..]);
    }
  }

  lemma LinksAfterClean(perms: seq<seq<Perm>>, perms': seq<seq<Perm>>, chns: seq<seq<Chan>>, chns': seq<seq<Chan>>, p: Handle)
    requires Owned(perms, chns) && Linked(perms, chns)
    requires Has(perms', p) && !At(perms', p).live
    requires forall g: Handle :: g != p && Has(perms, g) ==> Has(perms', g) && At(perms', g) == At(perms, g)
    requires forall g: Handle :: Has(perms', g) ==> Has(perms, g)
    requires forall h: Handle :: Has(chns', h) <==> Has(chns, h)
    requires forall h: Handle :: Has(chns, h) ==>
               if At(chns, h).live && At(chns, h).owner == Some(p) then At(chns', h) == ZeroChan()
               else At(chns', h) == At(chns, h)
    ensures Owned(perms', chns') && Linked(perms', chns')
  {
    hide LmMap.Get;
    forall h: Handle | Has(chns', h) && At(chns', h).live
      ensures OwnedBy(perms', At(chns', h), h)
    {
      assert OwnedBy(perms, At(chns, h), h);
    }
    forall g: Handle, key: nat | PortEntry(perms', g, key).Some?
      ensures LinkOk(chns', g, key, PortEntry(perms', g, key).value)
    {
      assert PortEntry(perms, g, key) == PortEntry(perms', g, key);
      assert LinkOk(chns, g, key, PortEntry(perms, g, key).value);
    }
  }

  // ---------------------------------------------------------------- what lookups answer afterwards

  /** When the permission for an IP expires, if there is one. */
  ghost function Expiry(hash: Ip -> nat, perms: seq<seq<Perm>>, ip: Ip): Option<int>
    requires |perms| == HASH_SIZE
  {
    match FindPerm(hash, perms, ip)
    case None => None
    case Some(h) => if Has(perms, h) then Some(At(perms, h).expiration) else None
  }

  datatype Binding = Binding(peer: Addr, expiration: int)

  /** The peer a channel number is bound to, if any. */
  ghost function Bound(chns: seq<seq<Chan>>, n: nat): Option<Binding>
    requires |chns| == HASH_SIZE
  {
    match FindChan(chns, n)
    case None => None
    case Some(h) => if Has(chns, h) then Some(Binding(At(chns, h).peer, At(chns, h).expiration)) else None
  }

  ghost predicate IsPermFor(perms: seq<seq<Perm>>, h: Handle, ip: Ip) {
    Has(perms, h) && At(perms, h).live && IpEq(At(perms, h).addr.ip, ip)
  }

  lemma ExpiryIs(hash: Ip -> nat, perms: seq<seq<Perm>>, ip: Ip, h: Handle)
    requires PermsOk(hash, perms) && IsPermFor(perms, h, ip)
    ensures Expiry(hash, perms, ip) == Some(At(perms, h).expiration) && FindPerm(hash, perms, ip) == Some(h)
  {
    FindPermIff(hash, perms, ip, h);
  }

  lemma ExpiryNone(hash: Ip -> nat, perms: seq<seq<Perm>>, ip: Ip)
    requires PermsOk(hash, perms) && forall h: Handle :: !IsPermFor(perms, h, ip)
    ensures Expiry(hash, perms, ip) == None && FindPerm(hash, perms, ip) == None
  {
    var r := FindPerm(hash, perms, ip);
    if r.Some? {
      FindPermIff(hash, perms, ip, r.value);
      if IsPermFor(perms, r.value, ip) {
        assert false;
      }
    }
  }

  /** A lookup answers alike in two tables that agree on the permissions for its IP. */
  lemma ExpirySame(hash: Ip -> nat, perms: seq<seq<Perm>>, perms': seq<seq<Perm>>, ip: Ip)
    requires PermsOk(hash, perms) && PermsOk(hash, perms')
    requires forall h: Handle :: IsPermFor(perms, h, ip) <==> IsPermFor(perms', h, ip)
    requires forall h: Handle :: IsPermFor(perms, h, ip) && IsPermFor(perms', h, ip) ==> At(perms', h).expiration == At(perms, h).expiration
    ensures Expiry(hash, perms', ip) == Expiry(hash, perms, ip)
  {
    hide FindPerm, PermsOk;
    if h: Handle :| IsPermFor(perms, h, ip) {
      ExpiryIs(hash, perms, ip, h);
      ExpiryIs(hash, perms', ip, h);
    } else {
      ExpiryNone(hash, perms, ip);
      ExpiryNone(hash, perms', ip);
    }
  }

  /** Changing one slot changes at most the answers for its old and its new IP. */
  lemma ExpiryAfterStore(hash: Ip -> nat, perms: seq<seq<Perm>>, h: Handle, p: Perm, ip: Ip)
    requires |perms| == HASH_SIZE && h.bucket < |perms| && h.slot <= |perms[h.bucket]|
    requires PermsOk(hash, perms) && PermsOk(hash, Store(perms, h, p))
    requires Has(perms, h) && At(perms, h).live ==> (p.live ==> p.addr == At(perms, h).addr)
    ensures Expiry(hash, Store(perms, h, p), ip) ==
              if p.live && IpEq(p.addr.ip, ip) then Some(p.expiration)
              else if IsPermFor(perms, h, ip) then None
              else Expiry(hash, perms, ip)
  {
    hide FindPerm, Expiry, PermsOk;
    var perms' := Store(perms, h, p);
    if p.live && IpEq(p.addr.ip, ip) {
      assert IsPermFor(perms', h, ip);
      ExpiryIs(hash, perms', ip, h);
    } else if IsPermFor(perms, h, ip) {
      forall g: Handle
        ensures !IsPermFor(perms', g, ip)
      {
        if g != h && IsPermFor(perms', g, ip) {
          assert IsPermFor(perms, g, ip);
          ExpiryIs(hash, perms, ip, g);
          ExpiryIs(hash, perms, ip, h);
        }
      }
      ExpiryNone(hash, perms', ip);
    } else {
      forall g: Handle
        ensures IsPermFor(perms, g, ip) <==> IsPermFor(perms', g, ip)
      {
      }
      ExpirySame(hash, perms, perms', ip);
    }
  }

  ghost predicate IsChan(chns: seq<seq<Chan>>, h: Handle, n: nat) {
    Has(chns, h) && At(chns, h).live && At(chns, h).chnum == n
  }

  lemma BoundIs(chns: seq<seq<Chan>>, n: nat, h: Handle)
    requires ChansOk(chns) && IsChan(chns, h, n)
    ensures Bound(chns, n) == Some(Binding(At(chns, h).peer, At(chns, h).expiration)) && FindChan(chns, n) == Some(h)
  {
    FindChanIff(chns, n, h);
  }

  lemma BoundNone(chns: seq<seq<Chan>>, n: nat)
    requires ChansOk(chns) && forall h: Handle :: !IsChan(chns, h, n)
    ensures Bound(chns, n) == None && FindChan(chns, n) == None
  {
    var r := FindChan(chns, n);
    if r.Some? {
      FindChanIff(chns, n, r.value);
      if IsChan(chns, r.value, n) {
        assert false;
      }
    }
  }

  lemma BoundSame(chns: seq<seq<Chan>>, chns': seq<seq<Chan>>, n: nat)
    requires ChansOk(chns) && ChansOk(chns')
    requires forall h: Handle :: IsChan(chns, h, n) <==> IsChan(chns', h, n)
    requires forall h: Handle :: IsChan(chns, h, n) && IsChan(chns', h, n) ==>
               At(chns', h).peer == At(chns, h).peer && At(chns', h).expiration == At(chns, h).expiration
    ensures Bound(chns', n) == Bound(chns, n)
  {
    hide FindChan, ChansOk;
    if h: Handle :| IsChan(chns, h, n) {
      BoundIs(chns, n, h);
      BoundIs(chns', n, h);
    } else {
      BoundNone(chns, n);
      BoundNone(chns', n);
    }
  }

  lemma BoundAfterStore(chns: seq<seq<Chan>>, h: Handle, c: Chan, n: nat)
    requires |chns| == HASH_SIZE && h.bucket < |chns| && h.slot <= |chns[h.bucket]|
    requires ChansOk(chns) && ChansOk(Store(chns, h, c))
    requires Has(chns, h) && At(chns, h).live ==> (c.live ==> c.chnum == At(chns, h).chnum)
    ensures Bound(Store(chns, h, c), n) ==
              if c.live && c.chnum == n then Some(Binding(c.peer, c.expiration))
              else if IsChan(chns, h, n) then None
              else Bound(chns, n)
  {
    hide FindChan, Bound, ChansOk;
    var chns' := Store(chns, h, c);
    if c.live && c.chnum == n {
      assert IsChan(chns', h, n);
      BoundIs(chns', n, h);
    } else if IsChan(chns, h, n) {
      forall g: Handle
        ensures !IsChan(chns', g, n)
      {
        if g != h && IsChan(chns', g, n) {
          assert IsChan(chns, g, n);
          BoundIs(chns, n, g);
          BoundIs(chns, n, h);
        }
      }
      BoundNone(chns', n);
    } else {
      forall g: Handle
        ensures IsChan(chns, g, n) <==> IsChan(chns', g, n)
      {
      }
      BoundSame(chns, chns', n);
    }
  }
}
