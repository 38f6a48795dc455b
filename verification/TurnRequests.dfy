/** Which requests a session answers and with which error, attribute by attribute and in numbers. */
module TurnRequests {
  import opened Options
  import opened IoAddr
  import opened Allocation
  import opened AllocationSteps
  import opened TurnSession

  // ---------------------------------------------------------------- attributes that no handler lists

  /** A request with an attribute that must be understood and is not is never accepted. */
  lemma RequiredRefused(attrs: seq<Attr>, i: nat, hasRelay: Ip -> bool, goodPeer: Addr -> bool, dontFragment: bool)
    requires i < |attrs| && attrs[i].Other? && attrs[i].kind <= 0x7FFF
    ensures forall n, peer :: !GoodBind(attrs, hasRelay, n, peer)
    ensures PermVerdict(PermLoop(PermScan(0, 0, 0), attrs, hasRelay, goodPeer)) != 0
    ensures forall peer :: !GoodSend(attrs, dontFragment, peer)
  {
    PermAcceptsIff(PermScan(0, 0, 0), attrs, hasRelay, goodPeer);
    assert !Ignored(attrs[i]);
    hide PermLoop;
  }

  /** Nor is one with an attribute that belongs to another request. */
  lemma ForeignRefused(attrs: seq<Attr>, i: nat, hasRelay: Ip -> bool, goodPeer: Addr -> bool, dontFragment: bool)
    requires i < |attrs|
    ensures attrs[i].DontFragment? || attrs[i].Data? ==> forall n, peer :: !GoodBind(attrs, hasRelay, n, peer)
    ensures attrs[i].DontFragment? || attrs[i].Data? || attrs[i].ChannelNumber? ==>
              PermVerdict(PermLoop(PermScan(0, 0, 0), attrs, hasRelay, goodPeer)) != 0
    ensures attrs[i].ChannelNumber? || (attrs[i].DontFragment? && !dontFragment) ==>
              forall peer :: !GoodSend(attrs, dontFragment, peer)
  {
    PermAcceptsIff(PermScan(0, 0, 0), attrs, hasRelay, goodPeer);
    hide PermLoop;
  }

  /** The error is 420, unless an earlier attribute has caused another one. */
  lemma RequiredIs420(pre: seq<Attr>, a: Attr, post: seq<Attr>, hasRelay: Ip -> bool, goodPeer: Addr -> bool)
    requires a.Other? && a.kind <= 0x7FFF
    ensures BindLoop(BIND_START, pre, hasRelay).err == 0 ==>
              BindVerdict(BindLoop(BIND_START, pre + [a] + post, hasRelay)) == 420
    ensures PermLoop(PermScan(0, 0, 0), pre, hasRelay, goodPeer).err == 0 ==>
              PermVerdict(PermLoop(PermScan(0, 0, 0), pre + [a] + post, hasRelay, goodPeer)) == 420
  {
    hide BindLoop, PermLoop;
    assert pre + [a] + post == pre + ([a] + post);
    BindConcat(BIND_START, pre, [a] + post, hasRelay);
    PermConcat(PermScan(0, 0, 0), pre, [a] + post, hasRelay, goodPeer);
    if BindLoop(BIND_START, pre, hasRelay).err == 0 {
      BindUnknown(BindLoop(BIND_START, pre, hasRelay), a, post, hasRelay);
    }
    if PermLoop(PermScan(0, 0, 0), pre, hasRelay, goodPeer).err == 0 {
      PermUnknown(PermLoop(PermScan(0, 0, 0), pre, hasRelay, goodPeer), a, post, hasRelay, goodPeer);
    }
  }

  lemma BindUnknown(s: BindScan, a: Attr, post: seq<Attr>, hasRelay: Ip -> bool)
    requires a.Other? && a.kind <= 0x7FFF && s.err == 0
    ensures BindVerdict(BindLoop(s, [a] + post, hasRelay)) == 420
  {
    assert ([a] + post)[1..] == post;
    if !BindStops(s) {
      BindUnknownStays(BindStep(s, a, hasRelay), post, hasRelay);
    }
  }

  lemma {:induction false} BindUnknownStays(s: BindScan, attrs: seq<Attr>, hasRelay: Ip -> bool)
    requires s.unknown > 0
    ensures BindLoop(s, attrs, hasRelay).unknown > 0
    decreases |attrs|
  {
    if attrs != [] && !BindStops(s) {
      BindUnknownStays(BindStep(s, attrs[0], hasRelay), attrs[1..], hasRelay);
    }
  }

  lemma PermUnknown(s: PermScan, a: Attr, post: seq<Attr>, hasRelay: Ip -> bool, goodPeer: Addr -> bool)
    requires a.Other? && a.kind <= 0x7FFF && s.err == 0
    ensures PermVerdict(PermLoop(s, [a] + post, hasRelay, goodPeer)) == 420
  {
    assert ([a] + post)[1..] == post;
    if !PermStops(s) {
      PermUnknownStays(PermStep(s, a, hasRelay, goodPeer), post, hasRelay, goodPeer);
    }
  }

  lemma {:induction false} PermUnknownStays(s: PermScan, attrs: seq<Attr>, hasRelay: Ip -> bool, goodPeer: Addr -> bool)
    requires s.unknown > 0
    ensures PermLoop(s, attrs, hasRelay, goodPeer).unknown > 0
    decreases |attrs|
  {
    if attrs != [] && !PermStops(s) {
      PermUnknownStays(PermStep(s, attrs[0], hasRelay, goodPeer), attrs[1..], hasRelay, goodPeer);
    }
  }

  /** A Send reports another error in preference, wherever it comes. */
  lemma SendRequired(pre: seq<Attr>, a: Attr, post: seq<Attr>, dontFragment: bool)
    requires a.Other? && a.kind <= 0x7FFF
    ensures SendError(SendLoop(SEND_START, pre + [a] + post, dontFragment)) != 0
    ensures SendLoop(SEND_START, pre + [a] + post, dontFragment).err == 0 ==>
              SendError(SendLoop(SEND_START, pre + [a] + post, dontFragment)) == 420
  {
    hide SendLoop;
    assert pre + [a] + post == pre + ([a] + post);
    SendConcat(SEND_START, pre, [a] + post, dontFragment);
    SendUnknown(SendLoop(SEND_START, pre, dontFragment), a, post, dontFragment);
  }

  lemma SendUnknown(s: SendScan, a: Attr, post: seq<Attr>, dontFragment: bool)
    requires a.Other? && a.kind <= 0x7FFF
    ensures var r := SendLoop(s, [a] + post, dontFragment); r.err != 0 || r.unknown > 0
  {
    assert ([a] + post)[1..] == post;
    if s.err == 0 && s.unknown < MAX_UNKNOWN {
      SendTroubleStays(SendStep(s, a, dontFragment), post, dontFragment);
    }
  }

  lemma {:induction false} BindConcat(s: BindScan, a: seq<Attr>, b: seq<Attr>, hasRelay: Ip -> bool)
    ensures BindLoop(s, a + b, hasRelay) == BindLoop(BindLoop(s, a, hasRelay), b, hasRelay)
    decreases |a|
  {
    if a == [] {
      assert a + b == b;
    } else if !BindStops(s) {
      assert (a + b)[0] == a[0] && (a + b)[1..] == a[1..] + b;
      BindConcat(BindStep(s, a[0], hasRelay), a[1..], b, hasRelay);
    }
  }

  lemma {:induction false} PermConcat(s: PermScan, a: seq<Attr>, b: seq<Attr>, hasRelay: Ip -> bool, goodPeer: Addr -> bool)
    ensures PermLoop(s, a + b, hasRelay, goodPeer) == PermLoop(PermLoop(s, a, hasRelay, goodPeer), b, hasRelay, goodPeer)
    decreases |a|
  {
    if a == [] {
      assert a + b == b;
    } else if !PermStops(s) {
      assert (a + b)[0] == a[0] && (a + b)[1..] == a[1..] + b;
      PermConcat(PermStep(s, a[0], hasRelay, goodPeer), a[1..], b, hasRelay, goodPeer);
    }
  }

  lemma {:induction false} SendConcat(s: SendScan, a: seq<Attr>, b: seq<Attr>, dontFragment: bool)
    ensures SendLoop(s, a + b, dontFragment) == SendLoop(SendLoop(s, a, dontFragment), b, dontFragment)
    decreases |a|
  {
    if a == [] {
      assert a + b == b;
    } else if s.err == 0 && s.unknown < MAX_UNKNOWN {
      assert (a + b)[0] == a[0] && (a + b)[1..] == a[1..] + b;
      SendConcat(SendStep(s, a[0], dontFragment), a[1..], b, dontFragment);
    }
  }

  /** An attribute that need not be understood may be put in or taken out anywhere: no answer of the three handlers
      changes. */
  lemma OptionalIgnored(pre: seq<Attr>, a: Attr, post: seq<Attr>, hasRelay: Ip -> bool, goodPeer: Addr -> bool,
                        dontFragment: bool)
    requires a.Other? && a.kind >= 0x8000
    ensures BindLoop(BIND_START, pre + [a] + post, hasRelay) == BindLoop(BIND_START, pre + post, hasRelay)
    ensures PermLoop(PermScan(0, 0, 0), pre + [a] + post, hasRelay, goodPeer)
            == PermLoop(PermScan(0, 0, 0), pre + post, hasRelay, goodPeer)
    ensures SendLoop(SEND_START, pre + [a] + post, dontFragment) == SendLoop(SEND_START, pre + post, dontFragment)
    ensures forall ip :: Names(pre + [a] + post, ip) <==> Names(pre + post, ip)
  {
    hide BindLoop, PermLoop, SendLoop, Names;
    assert pre + [a] + post == pre + ([a] + post);
    BindConcat(BIND_START, pre, [a] + post, hasRelay);
    BindConcat(BIND_START, pre, post, hasRelay);
    PermConcat(PermScan(0, 0, 0), pre, [a] + post, hasRelay, goodPeer);
    PermConcat(PermScan(0, 0, 0), pre, post, hasRelay, goodPeer);
    SendConcat(SEND_START, pre, [a] + post, dontFragment);
    SendConcat(SEND_START, pre, post, dontFragment);
    OneSkipped(BindLoop(BIND_START, pre, hasRelay), PermLoop(PermScan(0, 0, 0), pre, hasRelay, goodPeer),
               SendLoop(SEND_START, pre, dontFragment), a, post, hasRelay, goodPeer, dontFragment);
    forall ip
      ensures Names(pre + [a] + post, ip) <==> Names(pre + post, ip)
    {
      NamesBoth(pre, a, post, ip);
    }
  }

  lemma OneSkipped(s: BindScan, p: PermScan, q: SendScan, a: Attr, post: seq<Attr>, hasRelay: Ip -> bool,
                   goodPeer: Addr -> bool, dontFragment: bool)
    requires a.Other? && a.kind >= 0x8000
    ensures BindLoop(s, [a] + post, hasRelay) == BindLoop(s, post, hasRelay)
    ensures PermLoop(p, [a] + post, hasRelay, goodPeer) == PermLoop(p, post, hasRelay, goodPeer)
    ensures SendLoop(q, [a] + post, dontFragment) == SendLoop(q, post, dontFragment)
  {
    assert ([a] + post)[1..] == post;
  }

  lemma NamesBoth(pre: seq<Attr>, a: Attr, post: seq<Attr>, ip: Ip)
    requires !a.XorPeerAddress?
    ensures Names(pre + [a] + post, ip) <==> Names(pre + post, ip)
  {
    var x, y := pre + [a] + post, pre + post;
    if i :| 0 <= i < |x| && x[i].XorPeerAddress? && IpEq(PeerOf(x[i]).ip, ip) {
      assert i != |pre|;
      assert y[if i < |pre| then i else i - 1] == x[i];
    }
    if i :| 0 <= i < |y| && y[i].XorPeerAddress? && IpEq(PeerOf(y[i]).ip, ip) {
      assert x[if i < |pre| then i else i + 1] == y[i];
    }
  }

  // ---------------------------------------------------------------- the error codes

  /** The first attribute of a ChannelBind that is wrong decides its error, whatever comes behind it. */
  lemma BindFirstError(pre: seq<Attr>, a: Attr, post: seq<Attr>, hasRelay: Ip -> bool)
    requires var s := BindLoop(BIND_START, pre, hasRelay); s.err == 0 && s.unknown == 0
    ensures var err := BindVerdict(BindLoop(BIND_START, pre + [a] + post, hasRelay));
            && (a.ChannelNumber? && (a.number.None? || !(0x4000 <= a.number.value <= 0x7FFF)) ==> err == 400)
            && (a.ChannelNumber? && (exists i :: 0 <= i < |pre| && pre[i].ChannelNumber?) ==> err == 400)
            && (a.XorPeerAddress? && (a.peer.None? || a.peer.value.ip.NoFamily? || a.peer.value.port == 0) ==> err == 400)
            && ((a.XorPeerAddress? && a.peer.Some? && !a.peer.value.ip.NoFamily? && a.peer.value.port > 0
                 && !hasRelay(a.peer.value.ip)) ==> err == 443)
            && (a.DontFragment? || a.Data? ==> err == 420)
  {
    hide BindLoop, BindStep, BindVerdict, CleanPrefix;
    var s := BindLoop(BIND_START, pre, hasRelay);
    assert pre + [a] + post == pre + ([a] + post);
    BindConcat(BIND_START, pre, [a] + post, hasRelay);
    NothingScanned(hasRelay);
    BindLoopDecides([], BIND_START, pre, hasRelay);
    assert [] + pre == pre;
    NumberSeen(pre, hasRelay, s);
    OneMore(s, a, post, hasRelay);
    StepError(s, a, hasRelay);
  }

  lemma StepError(s: BindScan, a: Attr, hasRelay: Ip -> bool)
    requires s.err == 0 && s.unknown == 0
    ensures var t := BindStep(s, a, hasRelay);
            && (a.ChannelNumber? && (a.number.None? || !(0x4000 <= a.number.value <= 0x7FFF)) ==> t.err == 400 && t.unknown == 0)
            && (a.ChannelNumber? && s.chnum != 0 ==> t.err == 400 && t.unknown == 0)
            && (a.XorPeerAddress? && (a.peer.None? || a.peer.value.ip.NoFamily? || a.peer.value.port == 0) ==>
                  t.err == 400 && t.unknown == 0)
            && ((a.XorPeerAddress? && a.peer.Some? && !a.peer.value.ip.NoFamily? && a.peer.value.port > 0
                 && !hasRelay(a.peer.value.ip)) ==> t.err == 443 && t.unknown == 0)
            && (a.DontFragment? || a.Data? ==> t.unknown > 0)
  {
  }

  lemma NumberSeen(pre: seq<Attr>, hasRelay: Ip -> bool, s: BindScan)
    requires CleanPrefix(pre, hasRelay, s)
    ensures s.chnum != 0 <==> exists i :: 0 <= i < |pre| && pre[i].ChannelNumber?
  {
    if i :| 0 <= i < |pre| && pre[i].ChannelNumber? {
      assert GoodNumber(pre[i]) || GoodPeer(pre[i], hasRelay) || Ignored(pre[i]);
    }
  }

  lemma OneMore(s: BindScan, a: Attr, post: seq<Attr>, hasRelay: Ip -> bool)
    requires s.err == 0 && s.unknown == 0
    ensures var t := BindStep(s, a, hasRelay);
            t.err != 0 ==> BindVerdict(BindLoop(s, [a] + post, hasRelay)) == if t.unknown > 0 then 420 else t.err
    ensures BindStep(s, a, hasRelay).unknown > 0 ==> BindVerdict(BindLoop(s, [a] + post, hasRelay)) == 420
  {
    assert ([a] + post)[1..] == post;
    var t := BindStep(s, a, hasRelay);
    if t.unknown > 0 {
      BindUnknownStays(t, post, hasRelay);
    }
  }

  /** Without a number, or without an address, the error is 400. */
  lemma BindIncomplete(attrs: seq<Attr>, hasRelay: Ip -> bool)
    requires var s := BindLoop(BIND_START, attrs, hasRelay); s.err == 0 && s.unknown == 0
    requires (forall i :: 0 <= i < |attrs| ==> !attrs[i].ChannelNumber?) || (forall i :: 0 <= i < |attrs| ==> !attrs[i].XorPeerAddress?)
    ensures BindVerdict(BindLoop(BIND_START, attrs, hasRelay)) == 400
  {
    hide BindLoop;
    NothingScanned(hasRelay);
    BindLoopDecides([], BIND_START, attrs, hasRelay);
    assert [] + attrs == attrs;
  }

  /** The same for CreatePermission: 443 without a relay for the family, 403 for a peer that is not allowed, 420 for an
      attribute of another request, 400 without any address. */
  lemma PermFirstError(pre: seq<Attr>, a: Attr, post: seq<Attr>, hasRelay: Ip -> bool, goodPeer: Addr -> bool)
    requires var s := PermLoop(PermScan(0, 0, 0), pre, hasRelay, goodPeer); s.err == 0 && s.unknown == 0
    ensures var err := PermVerdict(PermLoop(PermScan(0, 0, 0), pre + [a] + post, hasRelay, goodPeer));
            && (a.XorPeerAddress? && a.peer.Some? && !hasRelay(a.peer.value.ip) ==> err == 443)
            && (a.XorPeerAddress? && a.peer.Some? && hasRelay(a.peer.value.ip) && !goodPeer(a.peer.value) ==> err == 403)
            && (a.DontFragment? || a.Data? || a.ChannelNumber? ==> err == 420)
    ensures (forall i :: 0 <= i < |pre| ==> !pre[i].XorPeerAddress?) ==>
              PermVerdict(PermLoop(PermScan(0, 0, 0), pre, hasRelay, goodPeer)) == 400
  {
    hide PermLoop;
    var s := PermLoop(PermScan(0, 0, 0), pre, hasRelay, goodPeer);
    assert pre + [a] + post == pre + ([a] + post);
    PermConcat(PermScan(0, 0, 0), pre, [a] + post, hasRelay, goodPeer);
    PermMore(s, a, post, hasRelay, goodPeer);
    PermAcceptsIff(PermScan(0, 0, 0), pre, hasRelay, goodPeer);
  }

  lemma PermMore(s: PermScan, a: Attr, post: seq<Attr>, hasRelay: Ip -> bool, goodPeer: Addr -> bool)
    requires s.err == 0 && s.unknown == 0
    ensures var t := PermStep(s, a, hasRelay, goodPeer);
            t.err != 0 && t.unknown == 0 ==> PermVerdict(PermLoop(s, [a] + post, hasRelay, goodPeer)) == t.err
    ensures PermStep(s, a, hasRelay, goodPeer).unknown > 0 ==> PermVerdict(PermLoop(s, [a] + post, hasRelay, goodPeer)) == 420
  {
    assert ([a] + post)[1..] == post;
    var t := PermStep(s, a, hasRelay, goodPeer);
    if t.unknown > 0 {
      PermUnknownStays(t, post, hasRelay, goodPeer);
    }
  }

  /** And for Send: a second DATA, no DATA, and no address but the zero address, are all 400. */
  lemma SendErrors(pre: seq<Attr>, a: Attr, post: seq<Attr>, dontFragment: bool)
    requires var s := SendLoop(SEND_START, pre, dontFragment); s.err == 0 && s.unknown == 0
    ensures a.Data? && SomeData(pre) ==> SendError(SendLoop(SEND_START, pre + [a] + post, dontFragment)) == 400
    ensures !SomeData(pre) || (forall i :: 0 <= i < |pre| ==> !pre[i].XorPeerAddress?) ==>
              SendError(SendLoop(SEND_START, pre, dontFragment)) == 400
  {
    hide SendLoop, SomeData, SendAttrs, LastPeer;
    var s := SendLoop(SEND_START, pre, dontFragment);
    assert pre + [a] + post == pre + ([a] + post);
    SendConcat(SEND_START, pre, [a] + post, dontFragment);
    SendNothing(dontFragment);
    assert SendPrefix([], dontFragment, SEND_START);
    SendLoopDecides([], SEND_START, pre, dontFragment);
    assert [] + pre == pre;
    SendMore(s, a, post, dontFragment);
  }

  lemma SendMore(s: SendScan, a: Attr, post: seq<Attr>, dontFragment: bool)
    requires s.err == 0 && s.unknown == 0
    ensures SendStep(s, a, dontFragment).err != 0 ==>
              SendError(SendLoop(s, [a] + post, dontFragment)) == SendStep(s, a, dontFragment).err
  {
    assert ([a] + post)[1..] == post;
  }

  // ---------------------------------------------------------------- lifetimes

  /** Channels last ten minutes and permissions five, in seconds of a 32-bit clock. */
  lemma Lifetimes(now: nat)
    ensures After(now, CHANNEL_LIFETIME) == (now + 600) % 0x1_0000_0000
    ensures After(now, PERMISSION_LIFETIME) == (now + 300) % 0x1_0000_0000
  {
  }

  /** The zero address, to which nothing is sent, is all zeros with port zero. */
  lemma ZeroAddress(b4: seq<u8>, b16: seq<u8>, port: u16)
    requires |b4| == 4 && |b16| == 16
    ensures AddrAny(Addr(V4(b4), port)) <==> b4 == [0, 0, 0, 0] && port == 0
    ensures AddrAny(Addr(V6(b16), port)) <==> port == 0 && forall i :: 0 <= i < 16 ==> b16[i] == 0
    ensures AddrAny(Addr(NoFamily, port))
  {
  }
}
