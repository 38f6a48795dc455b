/**
 The handlers of a TURN session that work on its allocation: ChannelBind, CreatePermission, the two
 timers, clearing, and the three relay paths.
 */
module TurnSession {
  import opened Options
  import opened Slots
  import opened IoAddr
  import opened Allocation
  import opened AllocationSteps
  import LmMap

  const CHANNEL_LIFETIME := 600
  const PERMISSION_LIFETIME := 300
  const MAX_UNKNOWN := 128

  // A request attribute as the handlers see it: a decoded peer address is None when decoding failed, a
  // channel number None when the attribute is shorter than two bytes.
  datatype Attr =
    | ChannelNumber(number: Option<u16>)
    | XorPeerAddress(peer: Option<Addr>)
    | DontFragment
    | Data(len: nat)
    | Skipped
    | Other(kind: u16)

  /** A sum of times in 32 bits. */
  function After(now: nat, delta: nat): nat {
    (now + delta) % 0x1_0000_0000
  }

  predicate Required(kind: u16) {
    kind <= 0x7FFF
  }

  // ---------------------------------------------------------------- scanning a ChannelBind request

  datatype BindScan = BindScan(chnum: int, peer: Addr, found: bool, err: int, unknown: nat)

  const BIND_START := BindScan(0, ANY, false, 0, 0)

  predicate BindStops(s: BindScan) {
    s.err != 0 || s.unknown >= MAX_UNKNOWN
  }

  /** One round of the attribute loop; hasRelay says for which address families a relay socket exists. */
  function BindStep(s: BindScan, a: Attr, hasRelay: Ip -> bool): BindScan {
    match a
    case ChannelNumber(number) =>
      if s.chnum != 0 then s.(chnum := 0, err := 400)
      else
        var n := if number.Some? && ValidChannel(number.value) then number.value else 0;
        if n == 0 then s.(chnum := 0, err := 400) else s.(chnum := n)
    case XorPeerAddress(peer) =>
      var p := if peer.Some? then peer.value else ANY;
      var s1 := s.(peer := p, err := if !hasRelay(p.ip) then 443 else s.err);
      if Port(p) < 1 then s1.(err := 400) else s1.(found := true)
    case Skipped => s
    case DontFragment => s.(unknown := s.unknown + 1)
    case Data(_) => s.(unknown := s.unknown + 1)
    case Other(kind) => if Required(kind) then s.(unknown := s.unknown + 1) else s
  }

  function BindLoop(s: BindScan, attrs: seq<Attr>, hasRelay: Ip -> bool): BindScan
    decreases |attrs|
  {
    if attrs == [] || BindStops(s) then s else BindLoop(BindStep(s, attrs[0], hasRelay), attrs[1..], hasRelay)
  }

  /** The verdict after the loop: 0 when the request names a channel and a peer. */
  function BindVerdict(s: BindScan): int {
    if s.unknown > 0 then 420
    else if s.err != 0 then s.err
    else if s.chnum == 0 || AddrAny(s.peer) || !s.found then 400
    else if !ValidChannel(s.chnum) then 400
    else 0
  }

  // What an acceptable ChannelBind request is, said without a loop: one channel number, in range; only
  // decodable peer addresses with a port and a relay socket, the last of which counts; nothing unknown.

  ghost predicate GoodNumber(a: Attr) {
    a.ChannelNumber? && a.number.Some? && ValidChannel(a.number.value)
  }

  ghost predicate GoodPeer(a: Attr, hasRelay: Ip -> bool) {
    a.XorPeerAddress? && a.peer.Some? && !a.peer.value.ip.NoFamily? && a.peer.value.port > 0 && hasRelay(a.peer.value.ip)
  }

  ghost predicate Ignored(a: Attr) {
    a.Skipped? || (a.Other? && !Required(a.kind))
  }

  ghost predicate GoodBind(attrs: seq<Attr>, hasRelay: Ip -> bool, n: int, peer: Addr) {
    && (forall i :: 0 <= i < |attrs| ==> GoodNumber(attrs[i]) || GoodPeer(attrs[i], hasRelay) || Ignored(attrs[i]))
    && (exists i :: 0 <= i < |attrs| && GoodNumber(attrs[i]) && attrs[i].number.value == n)
    && (forall i, j :: 0 <= i < j < |attrs| ==> !(GoodNumber(attrs[i]) && GoodNumber(attrs[j])))
    && (exists i :: 0 <= i < |attrs| && GoodPeer(attrs[i], hasRelay) && attrs[i].peer.value == peer &&
                    forall j :: i < j < |attrs| ==> !attrs[j].XorPeerAddress?)
  }

  /** The state after a prefix that gave no error and nothing unknown. */
  ghost predicate CleanPrefix(attrs: seq<Attr>, hasRelay: Ip -> bool, s: BindScan) {
    && s.err == 0 && s.unknown == 0
    && (forall i :: 0 <= i < |attrs| ==> GoodNumber(attrs[i]) || GoodPeer(attrs[i], hasRelay) || Ignored(attrs[i]))
    && (forall i, j :: 0 <= i < j < |attrs| ==> !(GoodNumber(attrs[i]) && GoodNumber(attrs[j])))
    && (if s.chnum == 0 then forall i :: 0 <= i < |attrs| ==> !GoodNumber(attrs[i])
        else ValidChannel(s.chnum) && exists i :: 0 <= i < |attrs| && GoodNumber(attrs[i]) && attrs[i].number.value == s.chnum)
    && (if !s.found then forall i :: 0 <= i < |attrs| ==> !attrs[i].XorPeerAddress?
        else exists i :: 0 <= i < |attrs| && GoodPeer(attrs[i], hasRelay) && attrs[i].peer.value == s.peer &&
                         forall j :: i < j < |attrs| ==> !attrs[j].XorPeerAddress?)
  }

  lemma {:induction false} CleanStep(attrs: seq<Attr>, hasRelay: Ip -> bool, s: BindScan, a: Attr)
    requires CleanPrefix(attrs, hasRelay, s)
    ensures var s' := BindStep(s, a, hasRelay);
            if s'.err == 0 && s'.unknown == 0 then CleanPrefix(attrs + [a], hasRelay, s')
            else (s.chnum != 0 && GoodNumber(a)) || (!GoodNumber(a) && !GoodPeer(a, hasRelay) && !Ignored(a))
  {
    var s' := BindStep(s, a, hasRelay);
    var all := attrs + [a];
    if s'.err == 0 && s'.unknown == 0 {
      assert all[|attrs|] == a;
      assert forall i :: 0 <= i < |attrs| ==> all[i] == attrs[i];
      if s.chnum != 0 {
        var i :| 0 <= i < |attrs| && GoodNumber(attrs[i]) && attrs[i].number.value == s.chnum;
        assert GoodNumber(all[i]);
      }
      if s'.found && !a.XorPeerAddress? {
        var i :| 0 <= i < |attrs| && GoodPeer(attrs[i], hasRelay) && attrs[i].peer.value == s.peer &&
                 forall j :: i < j < |attrs| ==> !attrs[j].XorPeerAddress?;
        assert GoodPeer(all[i], hasRelay);
      }
    }
  }

  lemma {:induction false} TroubleStays(s: BindScan, attrs: seq<Attr>, hasRelay: Ip -> bool)
    requires s.err != 0 || s.unknown > 0
    ensures var r := BindLoop(s, attrs, hasRelay); r.err != 0 || r.unknown > 0
    decreases |attrs|
  {
    if attrs != [] && !BindStops(s) {
      TroubleStays(BindStep(s, attrs[0], hasRelay), attrs[1..], hasRelay);
    }
  }

  lemma {:induction false} BindLoopDecides(pre: seq<Attr>, s: BindScan, attrs: seq<Attr>, hasRelay: Ip -> bool)
    requires CleanPrefix(pre, hasRelay, s)
    ensures var r := BindLoop(s, attrs, hasRelay);
            if r.err == 0 && r.unknown == 0 then CleanPrefix(pre + attrs, hasRelay, r)
            else forall n, peer :: !GoodBind(pre + attrs, hasRelay, n, peer)
    decreases |attrs|
  {
    if attrs == [] {
      assert pre + attrs == pre;
    } else {
      var a, rest := attrs[0], attrs[1..];
      var s' := BindStep(s, a, hasRelay);
      CleanStep(pre, hasRelay, s, a);
      assert pre + attrs == (pre + [a]) + rest;
      if s'.err == 0 && s'.unknown == 0 {
        BindLoopDecides(pre + [a], s', rest, hasRelay);
      } else {
        TroubleStays(s', rest, hasRelay);
        var all := pre + attrs;
        assert all[|pre|] == a;
        if s.chnum != 0 && GoodNumber(a) {
          var i :| 0 <= i < |pre| && GoodNumber(pre[i]) && pre[i].number.value == s.chnum;
          assert all[i] == pre[i] && GoodNumber(all[i]) && GoodNumber(all[|pre|]);
        }
      }
    }
  }

  /** The attribute loop accepts exactly the good requests, and reads channel and peer off them. */
  lemma BindAcceptsIff(attrs: seq<Attr>, hasRelay: Ip -> bool)
    ensures var s := BindLoop(BIND_START, attrs, hasRelay);
      && (BindVerdict(s) == 0 ==> GoodBind(attrs, hasRelay, s.chnum, s.peer))
      && (forall n, peer :: GoodBind(attrs, hasRelay, n, peer) ==> BindVerdict(s) == 0 && s.chnum == n && s.peer == peer)
  {
    hide CleanPrefix, GoodBind, BindLoop, BindVerdict;
    NothingScanned(hasRelay);
    BindLoopDecides([], BIND_START, attrs, hasRelay);
    assert [] + attrs == attrs;
    var s := BindLoop(BIND_START, attrs, hasRelay);
    VerdictMeans(s);
    if s.err == 0 && s.unknown == 0 {
      ScannedMeansGood(attrs, hasRelay, s);
      forall n, peer | GoodBind(attrs, hasRelay, n, peer)
        ensures BindVerdict(s) == 0 && s.chnum == n && s.peer == peer
      {
        GoodMeansScanned(attrs, hasRelay, s, n, peer);
      }
    }
  }

  lemma GoodBindRange(attrs: seq<Attr>, hasRelay: Ip -> bool, n: int, peer: Addr)
    requires GoodBind(attrs, hasRelay, n, peer)
    ensures ValidChannel(n) && Port(peer) > 0 && !peer.ip.NoFamily?
  {
  }

  lemma NothingScanned(hasRelay: Ip -> bool)
    ensures CleanPrefix([], hasRelay, BIND_START)
  {
  }

  lemma VerdictMeans(s: BindScan)
    ensures BindVerdict(s) == 0 ==> s.err == 0 && s.unknown == 0
  {
  }

  lemma ScannedMeansGood(attrs: seq<Attr>, hasRelay: Ip -> bool, s: BindScan)
    requires CleanPrefix(attrs, hasRelay, s)
    ensures BindVerdict(s) == 0 ==> GoodBind(attrs, hasRelay, s.chnum, s.peer)
  {
  }

  lemma GoodMeansScanned(attrs: seq<Attr>, hasRelay: Ip -> bool, s: BindScan, n: int, peer: Addr)
    requires CleanPrefix(attrs, hasRelay, s) && GoodBind(attrs, hasRelay, n, peer)
    ensures s.chnum == n && s.found && s.peer == peer && BindVerdict(s) == 0
  {
    var i :| 0 <= i < |attrs| && GoodNumber(attrs[i]) && attrs[i].number.value == n;
    var j :| 0 <= j < |attrs| && GoodNumber(attrs[j]) && attrs[j].number.value == s.chnum;
    assert i == j;
    var k :| 0 <= k < |attrs| && GoodPeer(attrs[k], hasRelay) && attrs[k].peer.value == peer &&
             forall m :: k < m < |attrs| ==> !attrs[m].XorPeerAddress?;
    var l :| 0 <= l < |attrs| && GoodPeer(attrs[l], hasRelay) && attrs[l].peer.value == s.peer &&
             forall m :: l < m < |attrs| ==> !attrs[m].XorPeerAddress?;
    assert k == l;
  }

  // ---------------------------------------------------------------- scanning a CreatePermission request

  datatype PermScan = PermScan(found: nat, err: int, unknown: nat)

  predicate PermStops(s: PermScan) {
    s.err != 0 || s.unknown >= MAX_UNKNOWN
  }

  function PeerOf(a: Attr): Addr
    requires a.XorPeerAddress?
  {
    if a.peer.Some? then a.peer.value else ANY
  }

  function PermStep(s: PermScan, a: Attr, hasRelay: Ip -> bool, goodPeer: Addr -> bool): PermScan {
    match a
    case Skipped => s
    case XorPeerAddress(_) =>
      if !hasRelay(PeerOf(a).ip) then s.(err := 443)
      else if !goodPeer(PeerOf(a)) then s.(err := 403)
      else s.(found := s.found + 1)
    case Other(kind) => if Required(kind) then s.(unknown := s.unknown + 1) else s
    case _ => s.(unknown := s.unknown + 1)
  }

  function PermLoop(s: PermScan, attrs: seq<Attr>, hasRelay: Ip -> bool, goodPeer: Addr -> bool): PermScan
    decreases |attrs|
  {
    if attrs == [] || PermStops(s) then s
    else PermLoop(PermStep(s, attrs[0], hasRelay, goodPeer), attrs[1..], hasRelay, goodPeer)
  }

  function PermVerdict(s: PermScan): int {
    if s.unknown > 0 then 420 else if s.err != 0 then s.err else if s.found == 0 then 400 else 0
  }

  ghost predicate GoodPermAttr(a: Attr, hasRelay: Ip -> bool, goodPeer: Addr -> bool) {
    Ignored(a) || (a.XorPeerAddress? && hasRelay(PeerOf(a).ip) && goodPeer(PeerOf(a)))
  }

  /** The first pass lets a request through exactly when every attribute is acceptable and one is an address. */
  lemma {:induction false} PermAcceptsIff(s: PermScan, attrs: seq<Attr>, hasRelay: Ip -> bool, goodPeer: Addr -> bool)
    requires s.err == 0 && s.unknown == 0
    ensures PermVerdict(PermLoop(s, attrs, hasRelay, goodPeer)) == 0 <==>
              (forall i :: 0 <= i < |attrs| ==> GoodPermAttr(attrs[i], hasRelay, goodPeer)) &&
              (s.found > 0 || exists i :: 0 <= i < |attrs| && attrs[i].XorPeerAddress?)
    decreases |attrs|
  {
    if attrs != [] {
      var a, rest := attrs[0], attrs[1..];
      var s1 := PermStep(s, a, hasRelay, goodPeer);
      assert forall i :: 0 < i < |attrs| ==> attrs[i] == rest[i - 1];
      if s1.err == 0 && s1.unknown == 0 {
        PermAcceptsIff(s1, rest, hasRelay, goodPeer);
        if i :| 0 <= i < |rest| && rest[i].XorPeerAddress? {
          assert attrs[i + 1].XorPeerAddress?;
        }
      } else {
        PermTroubleStays(s1, rest, hasRelay, goodPeer);
      }
    }
  }

  lemma {:induction false} PermTroubleStays(s: PermScan, attrs: seq<Attr>, hasRelay: Ip -> bool, goodPeer: Addr -> bool)
    requires s.err != 0 || s.unknown > 0
    ensures var r := PermLoop(s, attrs, hasRelay, goodPeer); r.err != 0 || r.unknown > 0
    decreases |attrs|
  {
    if attrs != [] && !PermStops(s) {
      PermTroubleStays(PermStep(s, attrs[0], hasRelay, goodPeer), attrs[1..], hasRelay, goodPeer);
    }
  }

  /** Some address of a request names an IP. */
  ghost predicate Names(attrs: seq<Attr>, ip: Ip) {
    exists i :: 0 <= i < |attrs| && attrs[i].XorPeerAddress? && IpEq(PeerOf(attrs[i]).ip, ip)
  }

  lemma NamesStep(attrs: seq<Attr>, i: nat, ip: Ip)
    requires i < |attrs|
    ensures Names(attrs[..i + 1], ip) <==>
              Names(attrs[..i], ip) || (attrs[i].XorPeerAddress? && IpEq(PeerOf(attrs[i]).ip, ip))
  {
    var a, b := attrs[..i], attrs[..i + 1];
    assert forall j :: 0 <= j < i ==> a[j] == b[j];
    assert b[i] == attrs[i];
    if j :| 0 <= j < |a| && a[j].XorPeerAddress? && IpEq(PeerOf(a[j]).ip, ip) {
      assert b[j] == a[j];
    }
  }

  // ---------------------------------------------------------------- scanning a Send indication

  // The source never sets addr_found here, so its "Address duplication" error is never raised and the last
  // peer address of the indication counts.
  datatype SendScan = SendScan(peer: Addr, len: int, err: int, unknown: nat)

  const SEND_START := SendScan(ANY, -1, 0, 0)

  function SendStep(s: SendScan, a: Attr, dontFragment: bool): SendScan {
    match a
    case Skipped => s
    case DontFragment => if dontFragment then s else s.(unknown := s.unknown + 1)
    case XorPeerAddress(_) => s.(peer := PeerOf(a))
    case Data(len) => if s.len >= 0 then s.(err := 400) else s.(len := len)
    case Other(kind) => if Required(kind) then s.(unknown := s.unknown + 1) else s
    case ChannelNumber(_) => s.(unknown := s.unknown + 1)
  }

  function SendLoop(s: SendScan, attrs: seq<Attr>, dontFragment: bool): SendScan
    decreases |attrs|
  {
    if attrs == [] || s.err != 0 || s.unknown >= MAX_UNKNOWN then s
    else SendLoop(SendStep(s, attrs[0], dontFragment), attrs[1..], dontFragment)
  }

  /** What the loop wants to see before the data is sent. */
  predicate SendVerdict(s: SendScan) {
    s.err == 0 && s.unknown == 0 && !AddrAny(s.peer) && s.len >= 0
  }

  function SendError(s: SendScan): int {
    if s.err != 0 then s.err else if s.unknown > 0 then 420 else if AddrAny(s.peer) || s.len < 0 then 400 else 0
  }

  // What an acceptable Send indication is, said without a loop: nothing unknown, DONT-FRAGMENT only if the server
  // supports it, one DATA, and a last peer address that is not the zero address.

  ghost predicate SendAttr(a: Attr, dontFragment: bool) {
    Ignored(a) || (a.DontFragment? && dontFragment) || a.XorPeerAddress? || a.Data?
  }

  ghost predicate LastPeer(attrs: seq<Attr>, peer: Addr) {
    exists i :: 0 <= i < |attrs| && attrs[i].XorPeerAddress? && PeerOf(attrs[i]) == peer &&
                forall j :: i < j < |attrs| ==> !attrs[j].XorPeerAddress?
  }

  ghost predicate SomeData(attrs: seq<Attr>) {
    exists i :: 0 <= i < |attrs| && attrs[i].Data?
  }

  ghost predicate SendAttrs(attrs: seq<Attr>, dontFragment: bool) {
    && (forall i :: 0 <= i < |attrs| ==> SendAttr(attrs[i], dontFragment))
    && (forall i, j :: 0 <= i < j < |attrs| ==> !(attrs[i].Data? && attrs[j].Data?))
  }

  ghost predicate GoodSend(attrs: seq<Attr>, dontFragment: bool, peer: Addr) {
    SendAttrs(attrs, dontFragment) && SomeData(attrs) && LastPeer(attrs, peer) && !AddrAny(peer)
  }

  /** The state after a prefix without an error and without anything unknown. */
  ghost predicate SendPrefix(attrs: seq<Attr>, dontFragment: bool, s: SendScan) {
    && s.err == 0 && s.unknown == 0 && SendAttrs(attrs, dontFragment)
    && (s.len >= 0 <==> SomeData(attrs))
    && (if exists i :: 0 <= i < |attrs| && attrs[i].XorPeerAddress? then LastPeer(attrs, s.peer) else s.peer == ANY)
  }

  lemma SendSnoc(attrs: seq<Attr>, a: Attr, dontFragment: bool)
    ensures SendAttrs(attrs + [a], dontFragment)
            <==> SendAttrs(attrs, dontFragment) && SendAttr(a, dontFragment) && !(a.Data? && SomeData(attrs))
    ensures SomeData(attrs + [a]) <==> SomeData(attrs) || a.Data?
  {
    hide SendAttr;
    var all := attrs + [a];
    assert all[|attrs|] == a && forall i :: 0 <= i < |attrs| ==> all[i] == attrs[i];
  }

  lemma PeerSnoc(attrs: seq<Attr>, a: Attr, peer: Addr)
    ensures a.XorPeerAddress? ==> LastPeer(attrs + [a], PeerOf(a))
    ensures !a.XorPeerAddress? && LastPeer(attrs, peer) ==> LastPeer(attrs + [a], peer)
  {
    var all := attrs + [a];
    assert all[|attrs|] == a && forall i :: 0 <= i < |attrs| ==> all[i] == attrs[i];
  }

  lemma SendStepPrefix(pre: seq<Attr>, s: SendScan, a: Attr, dontFragment: bool)
    requires SendPrefix(pre, dontFragment, s)
    ensures var s' := SendStep(s, a, dontFragment);
            if s'.err == 0 && s'.unknown == 0 then SendPrefix(pre + [a], dontFragment, s')
            else !SendAttrs(pre + [a], dontFragment)
  {
    hide SendAttrs, SomeData, LastPeer;
    SendSnoc(pre, a, dontFragment);
    PeerSnoc(pre, a, s.peer);
    var all := pre + [a];
    assert all[|pre|] == a && forall i :: 0 <= i < |pre| ==> all[i] == pre[i];
  }

  lemma NotSendAttrs(pre: seq<Attr>, rest: seq<Attr>, dontFragment: bool)
    requires !SendAttrs(pre, dontFragment)
    ensures !SendAttrs(pre + rest, dontFragment)
  {
    hide SendAttr;
    assert forall i :: 0 <= i < |pre| ==> (pre + rest)[i] == pre[i];
  }

  lemma {:induction false} SendTroubleStays(s: SendScan, attrs: seq<Attr>, dontFragment: bool)
    requires s.err != 0 || s.unknown > 0
    ensures var r := SendLoop(s, attrs, dontFragment); r.err != 0 || r.unknown > 0
    decreases |attrs|
  {
    if attrs != [] && s.err == 0 && s.unknown < MAX_UNKNOWN {
      SendTroubleStays(SendStep(s, attrs[0], dontFragment), attrs[1..], dontFragment);
    }
  }

  lemma {:induction false} SendLoopDecides(pre: seq<Attr>, s: SendScan, attrs: seq<Attr>, dontFragment: bool)
    requires SendPrefix(pre, dontFragment, s)
    ensures var r := SendLoop(s, attrs, dontFragment);
            if r.err == 0 && r.unknown == 0 then SendPrefix(pre + attrs, dontFragment, r)
            else !SendAttrs(pre + attrs, dontFragment)
    decreases |attrs|
  {
    hide SendAttrs, SendStep;
    if attrs == [] {
      assert pre + attrs == pre;
    } else {
      hide SendPrefix;
      var a, rest := attrs[0], attrs[1..];
      var s' := SendStep(s, a, dontFragment);
      SendPrefixClean(pre, dontFragment, s);
      SendStepPrefix(pre, s, a, dontFragment);
      assert pre + attrs == (pre + [a]) + rest;
      if s'.err == 0 && s'.unknown == 0 {
        SendLoopDecides(pre + [a], s', rest, dontFragment);
      } else {
        SendTroubleStays(s', rest, dontFragment);
        NotSendAttrs(pre + [a], rest, dontFragment);
      }
    }
  }

  lemma SendPrefixClean(attrs: seq<Attr>, dontFragment: bool, s: SendScan)
    requires SendPrefix(attrs, dontFragment, s)
    ensures s.err == 0 && s.unknown == 0
  {
  }

  lemma OneLastPeer(attrs: seq<Attr>, p: Addr, q: Addr)
    requires LastPeer(attrs, p) && LastPeer(attrs, q)
    ensures p == q
  {
    var i :| 0 <= i < |attrs| && attrs[i].XorPeerAddress? && PeerOf(attrs[i]) == p &&
             forall j :: i < j < |attrs| ==> !attrs[j].XorPeerAddress?;
    var k :| 0 <= k < |attrs| && attrs[k].XorPeerAddress? && PeerOf(attrs[k]) == q &&
             forall j :: k < j < |attrs| ==> !attrs[j].XorPeerAddress?;
    assert i == k;
  }

  /** The attribute loop accepts exactly the good indications, and reads the peer off them. */
  lemma SendAcceptsIff(attrs: seq<Attr>, dontFragment: bool, peer: Addr)
    ensures var s := SendLoop(SEND_START, attrs, dontFragment);
            SendVerdict(s) && s.peer == peer <==> GoodSend(attrs, dontFragment, peer)
  {
    hide SendAttrs, SomeData, SendLoop;
    SendLoopDecides([], SEND_START, attrs, dontFragment) by {
      assert SendAttrs([], dontFragment) && !SomeData([]) by { SendNothing(dontFragment); }
    }
    assert [] + attrs == attrs;
    var s := SendLoop(SEND_START, attrs, dontFragment);
    if s.err == 0 && s.unknown == 0 && LastPeer(attrs, peer) {
      OneLastPeer(attrs, peer, s.peer);
    }
  }

  lemma SendNothing(dontFragment: bool)
    ensures SendAttrs([], dontFragment) && !SomeData([])
  {
  }

  // ---------------------------------------------------------------- the session

  datatype FromPeer = Dropped | ViaChannel(n: int) | ViaIndication

  class Session {
    const hash: Ip -> nat           // addr_hash_no_port
    const hasRelay: Ip -> bool      // a relay socket exists for the family of the address
    const goodPeer: Addr -> bool    // good_peer_addr
    const isTcpRelay: bool
    const serverRelay: bool
    const dontFragment: bool

    var isValid: bool
    var perms: seq<seq<Perm>>
    var chns: seq<seq<Chan>>

    ghost predicate Valid()
      reads this
    {
      Good(hash, perms, chns)
    }

    /** When the permission for an IP expires, if there is one. */
    ghost function Permission(ip: Ip): Option<int>
      reads this
      requires Valid()
    {
      Expiry(hash, perms, ip)
    }

    /** What a channel number is bound to, if anything. */
    ghost function Channel(n: nat): Option<Binding>
      reads this
      requires Valid()
    {
      Bound(chns, n)
    }

    constructor (hash: Ip -> nat, hasRelay: Ip -> bool, goodPeer: Addr -> bool,
                 isTcpRelay: bool, serverRelay: bool, dontFragment: bool)
      ensures Valid() && isValid
      ensures forall ip :: Permission(ip) == None
      ensures forall n: nat :: Channel(n) == None
    {
      this.hash, this.hasRelay, this.goodPeer := hash, hasRelay, goodPeer;
      this.isTcpRelay, this.serverRelay, this.dontFragment := isTcpRelay, serverRelay, dontFragment;
      isValid := true;
      perms := EmptyPerms();
      chns := EmptyChans();
      new;
      EmptyIsFree();
      FreeIsGood(hash, perms, chns);
    }

    /** get_from_turn_permission_hashtable. */
    method GetPermission(addr: Addr) returns (h: Option<Handle>)
      requires Valid()
      ensures h == FindPerm(hash, perms, addr.ip)
    {
      var b := hash(addr.ip) % HASH_SIZE;
      var i := Scan(perms[b], (p: Perm) => p.live && IpEq(p.addr.ip, addr.ip));
      return if i < |perms[b]| then Some(Handle(b, i)) else None;
    }

    /** ch_map_get. */
    method GetChannel(n: nat) returns (h: Option<Handle>)
      requires Valid()
      ensures h == FindChan(chns, n)
    {
      var b := n % HASH_SIZE;
      var i := Scan(chns[b], (c: Chan) => c.live && c.chnum == n);
      return if i < |chns[b]| then Some(Handle(b, i)) else None;
    }

    /** The search of allocation_get_ch_info_by_peer_addr: the port map of the permission for the peer's IP. */
    method GetChannelByPeer(peer: Addr) returns (h: Option<Handle>)
      requires Valid()
      ensures h == ChannelOf(hash, perms, peer)
    {
      var g := GetPermission(peer);
      match g {
        case None => return None;
        case Some(p) =>
          FindPermIff(hash, perms, peer.ip, p);
          return LmMap.Get(At(perms, p).chns, Port(peer));
      }
    }

    /** allocation_get_permission or else allocation_add_permission. */
    method ObtainPermission(addr: Addr) returns (h: Handle)
      requires Valid()
      modifies this`perms
      ensures (perms, h) == EnsurePerm(hash, old(perms), addr)
    {
      var f := GetPermission(addr);
      match f {
        case Some(p) =>
          h := p;
        case None =>
          var b := hash(addr.ip) % HASH_SIZE;
          var i := Scan(perms[b], (p: Perm) => !p.live);
          h := Handle(b, i);
          perms := Store(perms, h, ZeroPerm().(live := true, addr := addr));
      }
    }

    /** update_permission, as its one caller uses it: the port of the address is zeroed, so the look-up of a
        channel to refresh finds none and the channels of the permission keep their own expiry. */
    method UpdatePermission(addr: Addr, now: nat)
      requires Valid() && Port(addr) == 0
      modifies this`perms
      ensures Valid()
      ensures forall ip :: Permission(ip) ==
                if IpEq(addr.ip, ip) then Some(After(now, PERMISSION_LIFETIME)) else old(Permission(ip))
    {
      hide Expiry, Linked, Owned, EnsurePerm, FindPerm;
      GrantOk(hash, perms, chns, addr, After(now, PERMISSION_LIFETIME));
      EnsurePermOk(hash, perms, chns, addr);
      var h := ObtainPermission(addr);
      perms := RefreshPerm(perms, h, After(now, PERMISSION_LIFETIME));
      var c := LmMap.Get(At(perms, h).chns, Port(addr));
      if c.Some? {
        assert false;
      }
    }

    /** handle_turn_channel_bind.  err is the STUN error code and answered says that a response was built. */
    method ChannelBind(attrs: seq<Attr>, now: nat) returns (err: int, answered: bool)
      requires Valid()
      modifies this`perms, this`chns
      ensures Valid()
      ensures answered <==> err == 0 && !isTcpRelay && isValid
      ensures isTcpRelay ==> err == 403
      ensures !isTcpRelay && !isValid ==> err == 0
      ensures !isTcpRelay && isValid && BindVerdict(BindLoop(BIND_START, attrs, hasRelay)) != 0 ==>
        err == BindVerdict(BindLoop(BIND_START, attrs, hasRelay))
      // an error changes nothing
      ensures !answered ==> perms == old(perms) && chns == old(chns)
      // a success binds, or refreshes, exactly the requested pair
      ensures answered ==>
        exists n: nat, peer :: GoodBind(attrs, hasRelay, n, peer) &&
          BindsTo(hash, old(perms), old(chns), perms, chns, n, peer, After(now, CHANNEL_LIFETIME))
      // and which requests succeed
      ensures !isTcpRelay && isValid ==>
        (answered <==>
          exists n: nat, peer :: GoodBind(attrs, hasRelay, n, peer) &&
            MayBind(hash, old(perms), old(chns), goodPeer, n, peer))
    {
      hide Good, GoodBind, MayBind, BindsTo;
      err, answered := 0, false;
      if isTcpRelay {
        return 403, false;
      }
      if !isValid {
        return 0, false;
      }
      var s := BIND_START;
      var i := 0;
      while i < |attrs| && !BindStops(s)
        invariant 0 <= i <= |attrs|
        invariant BindLoop(s, attrs[i..], hasRelay) == BindLoop(BIND_START, attrs, hasRelay)
      {
        s := BindStep(s, attrs[i], hasRelay);
        i := i + 1;
      }
      BindAcceptsIff(attrs, hasRelay);
      err := BindVerdict(s);
      if err == 0 {
        GoodBindRange(attrs, hasRelay, s.chnum, s.peer);
        var n: nat, peer := s.chnum, s.peer;
        err := BindPair(n, peer, now);
        answered := err == 0;
      }
    }

    /** The rest of handle_turn_channel_bind, once number and peer are known. */
    method BindPair(n: nat, peer: Addr, now: nat) returns (err: int)
      requires Valid() && ValidChannel(n) && Port(peer) > 0
      modifies this`perms, this`chns
      ensures Valid()
      ensures err == 0 <==> MayBind(hash, old(perms), old(chns), goodPeer, n, peer)
      ensures err == 403 <==> Bound(old(chns), n).None? && !goodPeer(peer)
                              && forall m: nat :: Bound(old(chns), m).Some? ==> Bound(old(chns), m).value.peer != peer
      ensures err == 0 || err == 400 || err == 403
      ensures err != 0 ==> perms == old(perms) && chns == old(chns)
      ensures err == 0 ==> BindsTo(hash, old(perms), old(chns), perms, chns, n, peer, After(now, CHANNEL_LIFETIME))
    {
      hide Good, MayBind, BindsTo, ChannelOf;
      MayBindCases(hash, perms, chns, goodPeer, n, peer);
      PeerFreeIff(hash, perms, chns, n, peer);
      var c := GetChannel(n);
      if c.Some? {
        if !AddrEq(peer, At(chns, c.value).peer) {
          return 400;
        }
        RenewBinding(c.value, n, peer, now);
        return 0;
      }
      var other := GetChannelByPeer(peer);
      if other.Some? {
        return 400;
      }
      if !goodPeer(peer) {
        return 403;
      }
      NewBinding(n, peer, now);
      return 0;
    }

    /** update_channel_lifetime, after the checks on the channel's owner. */
    method RenewBinding(h: Handle, n: nat, peer: Addr, now: nat)
      requires Valid() && IsChan(chns, h, n) && At(chns, h).peer == peer
      modifies this`perms, this`chns
      ensures Valid() && BindsTo(hash, old(perms), old(chns), perms, chns, n, peer, After(now, CHANNEL_LIFETIME))
    {
      hide Expiry, Bound, Linked;
      RenewOk(hash, perms, chns, h, After(now, CHANNEL_LIFETIME));
      var owner := At(chns, h).owner;
      assert OwnedBy(perms, At(chns, h), h);
      if owner.None? || !AddrEqNoPort(peer, At(perms, owner.value).addr) || At(chns, h).port != Port(peer) {
        // the three "wrong permission info" errors: the invariant rules them out
        assert false;
      }
      perms := RefreshPerm(perms, owner.value, After(now, CHANNEL_LIFETIME));
      chns := RefreshChan(chns, h, After(now, CHANNEL_LIFETIME));
    }

    /** allocation_get_new_ch_info and update_channel_lifetime. */
    method NewBinding(n: nat, peer: Addr, now: nat)
      requires Valid() && CanBind(hash, perms, chns, n, peer)
      modifies this`perms, this`chns
      ensures Valid() && BindsTo(hash, old(perms), old(chns), perms, chns, n, peer, After(now, CHANNEL_LIFETIME))
    {
      hide Expiry, Bound, Linked, Owned, EnsurePerm;
      var expiration := After(now, CHANNEL_LIFETIME);
      BindNewOk(hash, perms, chns, n, peer, expiration);
      ghost var perms0, chns0 := perms, chns;
      var owner := ObtainPermission(peer);
      var b := n % HASH_SIZE;
      var j := Scan(chns[b], (c: Chan) => !c.live);
      var h := Handle(b, j);
      chns := Store(chns, h, Chan(true, n, Port(peer), peer, 0, false, Some(owner)));
      perms := LinkChan(perms, owner, Port(peer), h);
      perms := RefreshPerm(perms, owner, expiration);
      chns := RefreshChan(chns, h, expiration);
      assert (perms, chns) == BindNew(hash, perms0, chns0, n, peer, expiration);
      BindNewBinds(hash, perms0, chns0, n, peer, expiration);
    }

    /** handle_turn_create_permission: all or nothing. */
    method CreatePermission(attrs: seq<Attr>, now: nat) returns (err: int, answered: bool)
      requires Valid()
      modifies this`perms
      ensures Valid()
      ensures answered <==> isValid && err == 0
      ensures isValid ==> err == PermVerdict(PermLoop(PermScan(0, 0, 0), attrs, hasRelay, goodPeer))
      ensures answered <==>
        && isValid
        && (forall i :: 0 <= i < |attrs| ==> GoodPermAttr(attrs[i], hasRelay, goodPeer))
        && exists i :: 0 <= i < |attrs| && attrs[i].XorPeerAddress?
      ensures !answered ==> perms == old(perms)
      ensures answered ==>
        forall ip :: Permission(ip) ==
          if Names(attrs, ip) then Some(After(now, PERMISSION_LIFETIME)) else old(Permission(ip))
    {
      err, answered := 0, false;
      if !isValid {
        return;
      }
      var s := PermScan(0, 0, 0);
      var i := 0;
      PermAcceptsIff(s, attrs, hasRelay, goodPeer);
      while i < |attrs| && !PermStops(s)
        invariant 0 <= i <= |attrs|
        invariant PermLoop(s, attrs[i..], hasRelay, goodPeer) == PermLoop(PermScan(0, 0, 0), attrs, hasRelay, goodPeer)
      {
        s := PermStep(s, attrs[i], hasRelay, goodPeer);
        i := i + 1;
      }
      err := PermVerdict(s);
      if err == 0 {
        UpdateAll(attrs, now);
        answered := true;
      }
    }

    /** The second pass of handle_turn_create_permission. */
    method UpdateAll(attrs: seq<Attr>, now: nat)
      requires Valid()
      modifies this`perms
      ensures Valid()
      ensures forall ip :: Permission(ip) ==
                if Names(attrs, ip) then Some(After(now, PERMISSION_LIFETIME)) else old(Permission(ip))
    {
      hide Good, Expiry, Names;
      ghost var perms0 := perms;
      var i := 0;
      NamesNone(attrs);
      while i < |attrs|
        invariant 0 <= i <= |attrs|
        invariant Valid()
        invariant forall ip :: Permission(ip) ==
                    if Names(attrs[..i], ip) then Some(After(now, PERMISSION_LIFETIME)) else old(Permission(ip))
      {
        if attrs[i].XorPeerAddress? {
          UpdatePermission(WithPort(PeerOf(attrs[i]), 0), now);
        }
        forall ip
          ensures Names(attrs[..i + 1], ip) <==>
                    Names(attrs[..i], ip) || (attrs[i].XorPeerAddress? && IpEq(PeerOf(attrs[i]).ip, ip))
        {
          NamesStep(attrs, i, ip);
        }
        i := i + 1;
      }
      assert attrs[..i] == attrs;
    }

    /** client_ss_channel_timeout_handler, for an armed timer. */
    method ChannelTimeout(h: Handle)
      requires Valid() && Has(chns, h) && At(chns, h).timer
      modifies this`perms, this`chns
      ensures Valid()
      ensures forall ip :: Permission(ip) == old(Permission(ip))
      ensures forall m: nat :: Channel(m) == if m == old(At(chns, h).chnum) then None else old(Channel(m))
    {
      hide Expiry, Bound, Linked, Owned;
      DropChanOk(hash, perms, chns, h);
      var c := At(chns, h);
      perms := UnlinkChan(perms, c.owner.value, c.port);
      chns := Store(chns, h, ZeroChan());
    }

    /** client_ss_perm_timeout_handler and turn_permission_clean, for an armed timer. */
    method PermissionTimeout(p: Handle)
      requires Valid() && Has(perms, p) && At(perms, p).timer
      modifies this`perms, this`chns
      ensures Valid() && perms == Store(old(perms), p, ZeroPerm())
      ensures forall ip :: Permission(ip) == if IpEq(old(At(perms, p).addr.ip), ip) then None else old(Permission(ip))
      ensures forall m: nat :: Channel(m) == WithoutIp(old(Channel(m)), old(At(perms, p).addr.ip))
    {
      hide Expiry, Bound, Linked, Owned, ZeroAll;
      DropPermOk(hash, perms, chns, p);
      ZeroChannels(LmMap.Values(At(perms, p).chns));
      perms := Store(perms, p, ZeroPerm());
    }

    /** The lm_map_foreach of turn_permission_clean, with the clean-up callback. */
    method ZeroChannels(hs: seq<Handle>)
      requires forall i :: 0 <= i < |hs| ==> Has(chns, hs[i])
      modifies this`chns
      ensures chns == ZeroAll(old(chns), hs)
    {
      var i := 0;
      while i < |hs|
        invariant 0 <= i <= |hs|
        invariant forall j :: 0 <= j < |hs| ==> Has(chns, hs[j])
        invariant ZeroAll(chns, hs[i..]) == ZeroAll(old(chns), hs)
      {
        assert Has(chns, hs[i]);
        chns := Store(chns, hs[i], ZeroChan());
        i := i + 1;
      }
    }

    /** free_turn_permission_hashtable: one bucket. */
    method ClearBucket(b: nat)
      requires Valid() && b < HASH_SIZE
      modifies this`perms, this`chns
      ensures Valid()
      ensures forall h: Handle :: Has(perms, h) && h.bucket == b ==> At(perms, h) == ZeroPerm()
      ensures forall h: Handle :: Has(perms, h) ==> Has(old(perms), h) && (At(perms, h) == At(old(perms), h) || At(perms, h) == ZeroPerm())
    {
      hide Inv, ZeroAll, LmMap.EmptyTable, Expiry, Bound;
      var j := 0;
      InvShape(hash, perms, chns);
      while j < |perms[b]|
        invariant Valid() && |perms| == HASH_SIZE && 0 <= j <= |perms[b]|
        invariant forall h: Handle :: Has(perms, h) && h.bucket == b && h.slot < j ==> At(perms, h) == ZeroPerm()
        invariant forall h: Handle :: Has(perms, h) ==> Has(old(perms), h) && (At(perms, h) == At(old(perms), h) || At(perms, h) == ZeroPerm())
        decreases |perms[b]| - j
      {
        InvShape(hash, perms, chns);
        var h := Handle(b, j);
        assert perms[b][j] == At(perms, h);
        ghost var size := |perms[b]|;
        if perms[b][j].live {
          PermissionTimeout(h);
          InvShape(hash, perms, chns);
          assert |perms[b]| == size;
        }
        j := j + 1;
      }
    }

    /** handle_turn_send: where the data of the indication is sent, if anywhere. */
    method Send(attrs: seq<Attr>, ttl: int) returns (err: int, to: Option<Addr>)
      requires Valid()
      ensures forall peer :: to == Some(peer) <==>
                !isTcpRelay && isValid && ttl != 0 && GoodSend(attrs, dontFragment, peer)
                && (serverRelay || Permission(peer.ip).Some?)
      ensures err == 0 <==> !isTcpRelay && (!isValid || ttl == 0 || exists peer :: GoodSend(attrs, dontFragment, peer))
      ensures isTcpRelay ==> err == 403
      ensures !isTcpRelay && isValid && ttl != 0 ==> err == SendError(SendLoop(SEND_START, attrs, dontFragment))
    {
      hide GoodSend;
      err, to := 0, None;
      if isTcpRelay {
        return 403, None;
      }
      if isValid && ttl != 0 {
        var s := SEND_START;
        var i := 0;
        while i < |attrs| && s.err == 0 && s.unknown < MAX_UNKNOWN
          invariant 0 <= i <= |attrs|
          invariant SendLoop(s, attrs[i..], dontFragment) == SendLoop(SEND_START, attrs, dontFragment)
        {
          s := SendStep(s, attrs[i], dontFragment);
          i := i + 1;
        }
        forall peer
          ensures SendVerdict(s) && s.peer == peer <==> GoodSend(attrs, dontFragment, peer)
        {
          SendAcceptsIff(attrs, dontFragment, peer);
        }
        if s.err != 0 {
          err := s.err;
        } else if s.unknown > 0 {
          err := 420;
        } else if !AddrAny(s.peer) && s.len >= 0 {
          assert GoodSend(attrs, dontFragment, s.peer);
          var p := None;
          if !serverRelay {
            p := GetPermission(s.peer);
          }
          LookupsAgree(hash, perms, s.peer.ip);
          if p.Some? || serverRelay {
            to := Some(s.peer);
          }
        } else {
          err := 400;
        }
      }
    }

    /** write_to_peerchannel: where ChannelData for a channel number is sent, if anywhere. */
    method ChannelData(n: nat, ttl: int) returns (to: Option<Addr>)
      requires Valid()
      ensures to == if ttl != 0 && isValid && Channel(n).Some? then Some(Channel(n).value.peer) else None
      ensures to.Some? ==> Permission(to.value.ip).Some?
    {
      if ttl == 0 || !isValid {
        return None;
      }
      var c := GetChannel(n);
      if c.None? {
        return None;
      }
      FindChanIff(chns, n, c.value);
      OneToOne(hash, perms, chns, n, At(chns, c.value).peer);
      return Some(At(chns, c.value).peer);
    }

    /** peer_input_handler: how a datagram from a peer reaches the client, if it does; open says that neither
        socket is being closed. */
    method PeerInput(src: Addr, ttl: int, open: bool) returns (r: FromPeer)
      requires Valid() && !src.ip.NoFamily?
      ensures forall n: nat :: r == ViaChannel(n) <==>
                ttl != 0 && open && isValid && Channel(n).Some? && Channel(n).value.peer == src
      ensures r != Dropped && !serverRelay ==> Permission(src.ip).Some?
      ensures r == Dropped <==> ttl == 0 || !open || !isValid || (!serverRelay && Permission(src.ip).None?)
    {
      if ttl == 0 || !open || !isValid {
        return Dropped;
      }
      LookupsAgree(hash, perms, src.ip);
      var p := GetPermission(src);
      if p.None? && !serverRelay {
        return Dropped;
      }
      var c := GetChannelByPeer(src);
      forall n: nat
        ensures (Channel(n).Some? && Channel(n).value.peer == src) <==> (c.Some? && At(chns, c.value).chnum == n)
      {
        OneToOne(hash, perms, chns, n, src);
      }
      return if c.Some? then ViaChannel(At(chns, c.value).chnum) else ViaIndication;
    }

    /** clear_allocation: permissions first, which takes all channels with them. */
    method Clear()
      requires Valid()
      modifies this
      ensures Valid() && !isValid
      ensures perms == EmptyPerms() && chns == EmptyChans()
      ensures forall ip :: Permission(ip) == None
      ensures forall n: nat :: Channel(n) == None
    {
      hide Inv, Expiry, Bound, LmMap.EmptyTable;
      var b := 0;
      InvShape(hash, perms, chns);
      while b < HASH_SIZE
        invariant 0 <= b <= HASH_SIZE && Valid()
        invariant forall h: Handle :: Has(perms, h) && h.bucket < b ==> At(perms, h) == ZeroPerm()
      {
        ClearBucket(b);
        b := b + 1;
      }
      InvShape(hash, perms, chns);
      NoChannelLeft(hash, perms, chns);
      // the extra slots are freed
      Truncated(perms, chns);
      perms, chns := MainSlots(perms), MainSlots(chns);
      isValid := false;
      EmptyIsFree();
      FreeIsGood(hash, perms, chns);
    }
  }

  lemma LookupsAgree(hash: Ip -> nat, perms: seq<seq<Perm>>, ip: Ip)
    requires PermsOk(hash, perms)
    ensures FindPerm(hash, perms, ip).Some? <==> Expiry(hash, perms, ip).Some?
  {
  }

  function MainSlots<T>(t: seq<seq<T>>): seq<seq<T>>
    requires |t| == HASH_SIZE && forall i :: 0 <= i < HASH_SIZE ==> |t[i]| >= ARRAY_SIZE
  {
    seq(HASH_SIZE, i requires 0 <= i < HASH_SIZE => t[i][..ARRAY_SIZE])
  }

  function WithoutIp(b: Option<Binding>, ip: Ip): Option<Binding> {
    if b.Some? && b.value.peer.ip == ip then None else b
  }

  lemma InvShape(hash: Ip -> nat, perms: seq<seq<Perm>>, chns: seq<seq<Chan>>)
    requires Good(hash, perms, chns)
    ensures |perms| == |chns| == HASH_SIZE
    ensures forall h: Handle :: Has(perms, h) ==> h.bucket < HASH_SIZE
    ensures forall h: Handle :: Has(perms, h) ==> (At(perms, h).timer <==> At(perms, h).live)
    ensures forall h: Handle :: Has(perms, h) && !At(perms, h).live ==> At(perms, h) == ZeroPerm()
  {
  }

  lemma NamesNone(attrs: seq<Attr>)
    ensures forall ip :: !Names(attrs[..0], ip)
  {
  }

  /** Without permissions there are no channels: none is left for ch_map_clean. */
  lemma NoChannelLeft(hash: Ip -> nat, perms: seq<seq<Perm>>, chns: seq<seq<Chan>>)
    requires Good(hash, perms, chns) && forall h: Handle :: Has(perms, h) ==> At(perms, h) == ZeroPerm()
    ensures AllFree(perms, chns)
  {
    forall h: Handle | Has(chns, h)
      ensures At(chns, h) == ZeroChan()
    {
      OwnerLives(hash, perms, chns, h);
    }
  }

  lemma OwnerLives(hash: Ip -> nat, perms: seq<seq<Perm>>, chns: seq<seq<Chan>>, h: Handle)
    requires Good(hash, perms, chns) && Has(chns, h)
    ensures At(chns, h).live ==> exists p: Handle :: Has(perms, p) && At(perms, p).live
  {
    if At(chns, h).live {
      assert OwnedBy(perms, At(chns, h), h);
    }
  }

  lemma Truncated(perms: seq<seq<Perm>>, chns: seq<seq<Chan>>)
    requires AllFree(perms, chns)
    ensures MainSlots(perms) == EmptyPerms() && MainSlots(chns) == EmptyChans()
  {
    hide LmMap.EmptyTable;
    forall i, j | 0 <= i < HASH_SIZE && 0 <= j < ARRAY_SIZE
      ensures perms[i][j] == ZeroPerm() && chns[i][j] == ZeroChan()
    {
      assert At(perms, Handle(i, j)) == perms[i][j] && At(chns, Handle(i, j)) == chns[i][j];
    }
    forall i | 0 <= i < HASH_SIZE
      ensures perms[i][..ARRAY_SIZE] == [ZeroPerm(), ZeroPerm(), ZeroPerm()]
      ensures chns[i][..ARRAY_SIZE] == [ZeroChan(), ZeroChan(), ZeroChan()]
    {
    }
  }

  lemma BindNewBinds(hash: Ip -> nat, perms: seq<seq<Perm>>, chns: seq<seq<Chan>>, n: nat, peer: Addr, expiration: int)
    requires Good(hash, perms, chns) && CanBind(hash, perms, chns, n, peer)
    requires LmMap.Shaped(At(EnsurePerm(hash, perms, peer).0, EnsurePerm(hash, perms, peer).1).chns)
    requires var (perms', chns') := BindNew(hash, perms, chns, n, peer, expiration); Good(hash, perms', chns')
    ensures var (perms', chns') := BindNew(hash, perms, chns, n, peer, expiration);
            BindsTo(hash, perms, chns, perms', chns', n, peer, expiration)
  {
    hide Expiry, Bound, EnsurePerm, BindNew, CanBind;
    var (perms', chns') := BindNew(hash, perms, chns, n, peer, expiration);
    forall ip
      ensures Expiry(hash, perms', ip) == if IpEq(peer.ip, ip) then Some(expiration) else Expiry(hash, perms, ip)
    {
      BindNewEffect(hash, perms, chns, n, peer, expiration, ip, 0);
    }
    forall m: nat
      ensures Bound(chns', m) == if m == n then Some(Binding(peer, expiration)) else Bound(chns, m)
    {
      BindNewEffect(hash, perms, chns, n, peer, expiration, peer.ip, m);
    }
  }

  /** The search by peer finds a channel exactly if some number is bound to the peer. */
  lemma PeerFreeIff(hash: Ip -> nat, perms: seq<seq<Perm>>, chns: seq<seq<Chan>>, n: nat, peer: Addr)
    requires Good(hash, perms, chns)
    ensures ChannelOf(hash, perms, peer).None? <==> forall m: nat :: Bound(chns, m).Some? ==> Bound(chns, m).value.peer != peer
    ensures FindChan(chns, n).Some? <==> Bound(chns, n).Some?
  {
    hide FindChan, FindPerm, PortEntry;
    if FindChan(chns, n).Some? {
      FindChanIff(chns, n, FindChan(chns, n).value);
    }
    var c := ChannelOf(hash, perms, peer);
    if c.Some? {
      OneToOne(hash, perms, chns, At(chns, c.value).chnum, peer);
    } else {
      forall m: nat | Bound(chns, m).Some?
        ensures Bound(chns, m).value.peer != peer
      {
        OneToOne(hash, perms, chns, m, peer);
      }
    }
  }

  lemma MayBindCases(hash: Ip -> nat, perms: seq<seq<Perm>>, chns: seq<seq<Chan>>, goodPeer: Addr -> bool, n: nat, peer: Addr)
    requires Good(hash, perms, chns) && ValidChannel(n) && Port(peer) > 0
    ensures var f := FindChan(chns, n);
      if f.Some? then
        IsChan(chns, f.value, n) && (AddrEq(peer, At(chns, f.value).peer) <==> At(chns, f.value).peer == peer) &&
        (MayBind(hash, perms, chns, goodPeer, n, peer) <==> At(chns, f.value).peer == peer)
      else
        (ChannelOf(hash, perms, peer).None? ==> CanBind(hash, perms, chns, n, peer)) &&
        (MayBind(hash, perms, chns, goodPeer, n, peer) <==> goodPeer(peer) && ChannelOf(hash, perms, peer).None?)
  {
    hide FindChan, FindPerm, PortEntry;
    var f := FindChan(chns, n);
    if f.Some? {
      FindChanIff(chns, n, f.value);
    } else {
      var c := ChannelOf(hash, perms, peer);
      if c.Some? {
        OneToOne(hash, perms, chns, At(chns, c.value).chnum, peer);
      } else {
        forall m: nat | Bound(chns, m).Some?
          ensures Bound(chns, m).value.peer != peer
        {
          OneToOne(hash, perms, chns, m, peer);
        }
      }
    }
  }

  /** The tables after a successful binding, as lookups see them. */
  ghost predicate BindsTo(hash: Ip -> nat, perms: seq<seq<Perm>>, chns: seq<seq<Chan>>,
                          perms': seq<seq<Perm>>, chns': seq<seq<Chan>>, n: nat, peer: Addr, expiration: int) {
    && |perms| == |perms'| == |chns| == |chns'| == HASH_SIZE
    && (forall ip :: Expiry(hash, perms', ip) == if IpEq(peer.ip, ip) then Some(expiration) else Expiry(hash, perms, ip))
    && (forall m: nat :: Bound(chns', m) == if m == n then Some(Binding(peer, expiration)) else Bound(chns, m))
  }

  /** A pair may be bound when it already is, or when neither half is in use and the peer is allowed. */
  ghost predicate MayBind(hash: Ip -> nat, perms: seq<seq<Perm>>, chns: seq<seq<Chan>>, goodPeer: Addr -> bool,
                          n: nat, peer: Addr) {
    && |perms| == |chns| == HASH_SIZE
    && if Bound(chns, n).Some? then Bound(chns, n).value.peer == peer
       else goodPeer(peer) && forall m: nat :: Bound(chns, m).Some? ==> Bound(chns, m).value.peer != peer
  }

  function EmptyPerms(): seq<seq<Perm>> {
    seq(HASH_SIZE, _ => [ZeroPerm(), ZeroPerm(), ZeroPerm()])
  }

  function EmptyChans(): seq<seq<Chan>> {
    seq(HASH_SIZE, _ => [ZeroChan(), ZeroChan(), ZeroChan()])
  }

  /** Tables in which nothing is live. */
  ghost predicate AllFree(perms: seq<seq<Perm>>, chns: seq<seq<Chan>>) {
    && |perms| == |chns| == HASH_SIZE
    && (forall b :: 0 <= b < HASH_SIZE ==> |perms[b]| >= ARRAY_SIZE && |chns[b]| >= ARRAY_SIZE)
    && (forall h: Handle :: Has(perms, h) ==> At(perms, h) == ZeroPerm())
    && (forall h: Handle :: Has(chns, h) ==> At(chns, h) == ZeroChan())
  }

  lemma FreeIsGood(hash: Ip -> nat, perms: seq<seq<Perm>>, chns: seq<seq<Chan>>)
    requires AllFree(perms, chns)
    ensures Good(hash, perms, chns)
    ensures forall ip :: Expiry(hash, perms, ip) == None
    ensures forall n: nat :: Bound(chns, n) == None
  {
    hide LmMap.EmptyTable, Expiry, Bound;
    forall ip
      ensures Expiry(hash, perms, ip) == None
    {
      ExpiryNone(hash, perms, ip);
    }
    forall n: nat
      ensures Bound(chns, n) == None
    {
      BoundNone(chns, n);
    }
  }

  lemma EmptyIsFree()
    ensures AllFree(EmptyPerms(), EmptyChans())
  {
    hide LmMap.EmptyTable;
  }
}
