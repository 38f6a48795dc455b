/**
 Whole runs of a session: under every sequence of requests and timer events the slot tables behave as two
 finite maps, one from IP addresses to permissions and one from channel numbers to bindings.
 */
module TurnRuns {
  import opened Options
  import opened Slots
  import opened IoAddr
  import opened Allocation
  import opened AllocationSteps
  import opened TurnSession

  datatype Maps = Maps(isValid: bool, perms: map<Ip, int>, chans: map<nat, Binding>)

  datatype Config = Config(hasRelay: Ip -> bool, goodPeer: Addr -> bool, isTcpRelay: bool)

  // A timer event names what its timer belongs to; it has an effect only while that is live. The permission of an
  // address that could not be decoded is no permission for any IP, so its timer is named by its slot.
  datatype Event =
    | BindRequest(attrs: seq<Attr>, now: nat)
    | PermissionRequest(attrs: seq<Attr>, now: nat)
    | ChannelTimer(n: nat)
    | PermissionTimer(ip: Ip)
    | StrayTimer(slot: Handle)
    | ClearAll

  // ---------------------------------------------------------------- the machine of maps

  /** A pair may be bound when it already is, or when neither half is in use and the peer is allowed. */
  ghost predicate Bindable(c: Config, m: Maps, n: nat, peer: Addr) {
    if n in m.chans then m.chans[n].peer == peer
    else c.goodPeer(peer) && forall k :: k in m.chans ==> m.chans[k].peer != peer
  }

  ghost function PeerIps(attrs: seq<Attr>): (ips: set<Ip>)
    ensures forall ip :: ip in ips <==> Names(attrs, ip)
  {
    set i | 0 <= i < |attrs| && attrs[i].XorPeerAddress? && !PeerOf(attrs[i]).ip.NoFamily? :: PeerOf(attrs[i]).ip
  }

  ghost predicate GoodPermissionRequest(c: Config, attrs: seq<Attr>) {
    && (forall i :: 0 <= i < |attrs| ==> GoodPermAttr(attrs[i], c.hasRelay, c.goodPeer))
    && exists i :: 0 <= i < |attrs| && attrs[i].XorPeerAddress?
  }

  ghost function Next(c: Config, m: Maps, e: Event): Maps {
    match e
    case BindRequest(attrs, now) =>
      var s := BindLoop(BIND_START, attrs, c.hasRelay);
      if m.isValid && !c.isTcpRelay && BindVerdict(s) == 0 && Bindable(c, m, s.chnum, s.peer) then
        m.(perms := m.perms[s.peer.ip := After(now, CHANNEL_LIFETIME)],
           chans := m.chans[s.chnum as nat := Binding(s.peer, After(now, CHANNEL_LIFETIME))])
      else m
    case PermissionRequest(attrs, now) =>
      if m.isValid && GoodPermissionRequest(c, attrs) then
        m.(perms := map ip | ip in m.perms.Keys + PeerIps(attrs) ::
                      if ip in PeerIps(attrs) then After(now, PERMISSION_LIFETIME) else m.perms[ip])
      else m
    case ChannelTimer(n) => m.(chans := m.chans - {n})
    case PermissionTimer(ip) =>
      m.(perms := m.perms - {ip}, chans := map n | n in m.chans && m.chans[n].peer.ip != ip :: m.chans[n])
    case StrayTimer(_) => m
    case ClearAll => Maps(false, map[], map[])
  }

  ghost function Reached(c: Config, m: Maps, events: seq<Event>): Maps {
    if events == [] then m else Next(c, Reached(c, m, events[..|events| - 1]), events[|events| - 1])
  }

  /** Channel numbers and peers are one-to-one, and the IP of every bound peer is permitted. */
  ghost predicate Sound(m: Maps) {
    && (forall n, k :: n in m.chans && k in m.chans && m.chans[n].peer == m.chans[k].peer ==> n == k)
    && (forall n :: n in m.chans ==> m.chans[n].peer.ip in m.perms && ValidChannel(n) && Port(m.chans[n].peer) > 0)
    && NoFamily !in m.perms
  }

  lemma NextSound(c: Config, m: Maps, e: Event)
    requires Sound(m)
    ensures Sound(Next(c, m, e))
  {
    match e
    case BindRequest(attrs, now) =>
      BindAcceptsIff(attrs, c.hasRelay);
    case _ =>
  }

  /** Over every run. */
  lemma {:induction false} RunSound(c: Config, m: Maps, events: seq<Event>)
    requires Sound(m)
    ensures Sound(Reached(c, m, events))
  {
    if events != [] {
      RunSound(c, m, events[..|events| - 1]);
      NextSound(c, Reached(c, m, events[..|events| - 1]), events[|events| - 1]);
    }
  }

  // ---------------------------------------------------------------- the session refines it

  ghost predicate Agrees(s: Session, m: Maps)
    reads s
  {
    && s.Valid()
    && s.isValid == m.isValid
    && (forall ip :: s.Permission(ip) == if ip in m.perms then Some(m.perms[ip]) else None)
    && (forall n: nat :: s.Channel(n) == if n in m.chans then Some(m.chans[n]) else None)
  }

  ghost function ConfigOf(s: Session): Config {
    Config(s.hasRelay, s.goodPeer, s.isTcpRelay)
  }

  method Handle(s: Session, e: Event, ghost m: Maps)
    requires Agrees(s, m)
    modifies s
    ensures Agrees(s, Next(ConfigOf(s), m, e))
  {
    match e {
      case BindRequest(attrs, now) => HandleBind(s, attrs, now, m);
      case PermissionRequest(attrs, now) => HandlePermission(s, attrs, now, m);
      case ChannelTimer(n) => HandleChannelTimer(s, n, m);
      case PermissionTimer(ip) => HandlePermissionTimer(s, ip, m);
      case StrayTimer(slot) => HandleStrayTimer(s, slot, m);
      case ClearAll => s.Clear();
    }
  }

  method HandleChannelTimer(s: Session, n: nat, ghost m: Maps)
    requires Agrees(s, m)
    modifies s
    ensures Agrees(s, Next(ConfigOf(s), m, ChannelTimer(n)))
  {
    hide Expiry, Bound, Inv, FindChan;
    FoundChannel(s.hash, s.perms, s.chns, n);
    var h := s.GetChannel(n);
    if h.Some? {
      s.ChannelTimeout(h.value);
    }
  }

  lemma FoundChannel(hash: Ip -> nat, perms: seq<seq<Perm>>, chns: seq<seq<Chan>>, n: nat)
    requires Good(hash, perms, chns)
    ensures |chns| == Allocation.HASH_SIZE
    ensures var h := FindChan(chns, n);
      if h.Some? then Has(chns, h.value) && At(chns, h.value).timer && At(chns, h.value).chnum == n
      else Bound(chns, n).None?
  {
    var h := FindChan(chns, n);
    if h.Some? {
      FindChanIff(chns, n, h.value);
    }
  }

  method HandleBind(s: Session, attrs: seq<Attr>, now: nat, ghost m: Maps)
    requires Agrees(s, m)
    modifies s
    ensures Agrees(s, Next(ConfigOf(s), m, BindRequest(attrs, now)))
  {
    hide Good, Expiry, Bound, GoodBind, BindLoop, BindVerdict;
    ghost var scan := BindLoop(BIND_START, attrs, s.hasRelay);
    BindAcceptsIff(attrs, s.hasRelay);
    InvShape(s.hash, s.perms, s.chns);
    if BindVerdict(scan) == 0 {
      GoodBindRange(attrs, s.hasRelay, scan.chnum, scan.peer);
      MayBindIff(s.hash, s.perms, s.chns, ConfigOf(s), m, scan.chnum, scan.peer);
    }
    var err, answered := s.ChannelBind(attrs, now);
  }

  lemma MayBindIff(hash: Ip -> nat, perms: seq<seq<Perm>>, chns: seq<seq<Chan>>, c: Config, m: Maps, n: nat, peer: Addr)
    requires |perms| == |chns| == Allocation.HASH_SIZE
    requires forall k: nat :: Bound(chns, k) == if k in m.chans then Some(m.chans[k]) else None
    ensures MayBind(hash, perms, chns, c.goodPeer, n, peer) <==> Bindable(c, m, n, peer)
  {
    hide Bound;
    forall k: nat
      ensures Bound(chns, k).Some? <==> k in m.chans
      ensures k in m.chans ==> Bound(chns, k) == Some(m.chans[k])
    {
    }
    if MayBind(hash, perms, chns, c.goodPeer, n, peer) && n !in m.chans {
      forall k | k in m.chans
        ensures m.chans[k].peer != peer
      {
        assert Bound(chns, k).Some?;
      }
    }
  }

  method HandlePermission(s: Session, attrs: seq<Attr>, now: nat, ghost m: Maps)
    requires Agrees(s, m)
    modifies s
    ensures Agrees(s, Next(ConfigOf(s), m, PermissionRequest(attrs, now)))
  {
    hide Good, Expiry, Bound, Names;
    var err, answered := s.CreatePermission(attrs, now);
  }

  method HandlePermissionTimer(s: Session, ip: Ip, ghost m: Maps)
    requires Agrees(s, m)
    modifies s
    ensures Agrees(s, Next(ConfigOf(s), m, PermissionTimer(ip)))
  {
    hide Expiry, Bound, Inv, FindPerm;
    var h := s.GetPermission(Addr(ip, 0));
    FoundPermission(s.hash, s.perms, s.chns, ip);
    if h.Some? {
      s.PermissionTimeout(h.value);
    }
  }

  /** A permission without an address family expires: nothing that could be looked up goes with it. */
  method HandleStrayTimer(s: Session, slot: Handle, ghost m: Maps)
    requires Agrees(s, m)
    modifies s
    ensures Agrees(s, Next(ConfigOf(s), m, StrayTimer(slot)))
  {
    hide Expiry, Bound, Inv;
    FamiliesBound(s.hash, s.perms, s.chns);
    if Has(s.perms, slot) && At(s.perms, slot).timer && At(s.perms, slot).addr.ip.NoFamily? {
      s.PermissionTimeout(slot);
    }
  }

  lemma FamiliesBound(hash: Ip -> nat, perms: seq<seq<Perm>>, chns: seq<seq<Chan>>)
    requires Good(hash, perms, chns)
    ensures forall n: nat :: Bound(chns, n).Some? ==> !Bound(chns, n).value.peer.ip.NoFamily?
  {
    hide Expiry, Bound;
    forall n: nat | Bound(chns, n).Some?
      ensures !Bound(chns, n).value.peer.ip.NoFamily?
    {
      OneToOne(hash, perms, chns, n, Bound(chns, n).value.peer);
    }
  }

  lemma FoundPermission(hash: Ip -> nat, perms: seq<seq<Perm>>, chns: seq<seq<Chan>>, ip: Ip)
    requires Good(hash, perms, chns)
    ensures |perms| == |chns| == Allocation.HASH_SIZE
    ensures var h := FindPerm(hash, perms, ip);
      if h.Some? then
        Has(perms, h.value) && At(perms, h.value).timer && At(perms, h.value).addr.ip == ip && !ip.NoFamily?
      else
        Expiry(hash, perms, ip).None? && forall n: nat :: Bound(chns, n).Some? ==> Bound(chns, n).value.peer.ip != ip
  {
    hide Bound;
    var h := FindPerm(hash, perms, ip);
    if h.Some? {
      FindPermIff(hash, perms, ip, h.value);
    } else {
      NoPermissionNoChannel(hash, perms, chns, ip);
    }
  }

  lemma NoPermissionNoChannel(hash: Ip -> nat, perms: seq<seq<Perm>>, chns: seq<seq<Chan>>, ip: Ip)
    requires Good(hash, perms, chns) && Expiry(hash, perms, ip).None?
    ensures forall n: nat :: Bound(chns, n).Some? ==> Bound(chns, n).value.peer.ip != ip
  {
    hide Expiry, Bound;
    forall n: nat | Bound(chns, n).Some?
      ensures Bound(chns, n).value.peer.ip != ip
    {
      OneToOne(hash, perms, chns, n, Bound(chns, n).value.peer);
    }
  }

  /** For every sequence of events the slot tables answer as the two maps do. */
  method Run(s: Session, events: seq<Event>, ghost m: Maps)
    requires Agrees(s, m)
    modifies s
    ensures Agrees(s, Reached(ConfigOf(s), m, events))
  {
    hide Agrees, Next;
    ghost var m' := m;
    for i := 0 to |events|
      invariant Agrees(s, m')
      invariant m' == Reached(ConfigOf(s), m, events[..i])
    {
      assert events[..i + 1][..i] == events[..i];
      Handle(s, events[i], m');
      m' := Next(ConfigOf(s), m', events[i]);
    }
    assert events[..|events|] == events;
  }
}
