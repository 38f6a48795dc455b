/** Address attributes, plain and XORed (section 15.2 of RFC 5389), and the mapping of public to private
    addresses. */
module StunAddr {
  import opened IoAddr
  import opened Bytes
  import opened Options
  import opened Slots
  import opened StunMsg

  const STUN_ATTRIBUTE_XOR_MAPPED_ADDRESS: u16 := 0x0020
  const STUN_ATTRIBUTE_XOR_PEER_ADDRESS: u16 := 0x0012
  const STUN_ATTRIBUTE_XOR_RELAYED_ADDRESS: u16 := 0x0016

  // ---------------------------------------------------------------- encoding

  /** The pad an address is XORed with: the cookie, and behind it the transaction id. */
  function Pad(tid: seq<u8>): seq<u8> {
    STUN_MAGIC_COOKIE + tid
  }

  function Masked(b: seq<u8>, xored: bool, pad: seq<u8>): (r: seq<u8>)
    requires |b| <= |pad|
    ensures |r| == |b|
  {
    if xored then XorSeq(b, pad) else b
  }

  /** The value of an address attribute; an address without a family goes out as IPv4 zeros. */
  function Encoded(ca: Addr, xored: bool, tid: seq<u8>): seq<u8>
    requires ValidIp(ca.ip) && |tid| == 12
  {
    var port := Masked(Be16(ca.port), xored, Pad(tid));
    match ca.ip
    case NoFamily => [0, 1] + port + Masked([0, 0, 0, 0], xored, Pad(tid))
    case V4(b) => [0, 1] + port + Masked(b, xored, Pad(tid))
    case V6(b) => [0, 2] + port + Masked(b, xored, Pad(tid))
  }

  /** stun_addr_encode: the value is written into a field of the caller. */
  method Encode(ca: Addr, cfield: array<u8>, xored: bool, tid: seq<u8>) returns (clen: nat)
    requires ValidIp(ca.ip) && |tid| == 12 && cfield.Length >= 20
    modifies cfield
    ensures clen <= cfield.Length && cfield[..clen] == Encoded(ca, xored, tid)
  {
    hide Xor8, XorSeq, Be16;
    var pad := Pad(tid);
    cfield[0] := 0;
    var port := if xored then XorSeq(Be16(ca.port), pad) else Be16(ca.port);
    cfield[2], cfield[3] := port[0], port[1];
    match ca.ip {
      case NoFamily =>
        clen := 8;
        cfield[1] := 1;
        Copy(cfield, 4, if xored then XorSeq([0, 0, 0, 0], pad) else [0, 0, 0, 0]);
      case V4(b) =>
        clen := 8;
        cfield[1] := 1;
        Copy(cfield, 4, if xored then XorSeq(b, pad) else b);
      case V6(src) =>
        clen := 20;
        cfield[1] := 2;
        if xored {
          XorLoops(cfield, 4, src, STUN_MAGIC_COOKIE, tid);
        } else {
          Copy(cfield, 4, src);
        }
    }
    assert cfield[..4] == [0, cfield[1]] + port;
    assert cfield[..clen] == cfield[..4] + cfield[4..clen];
  }

  /** The two loops over an IPv6 address: four bytes with the cookie, twelve with the transaction id. */
  method XorLoops(dst: array<u8>, at: nat, src: seq<u8>, magic: seq<u8>, tid: seq<u8>)
    requires |src| == 16 && |magic| == 4 && |tid| == 12 && at + 16 <= dst.Length
    modifies dst
    ensures dst[at..at + 16] == XorSeq(src, magic + tid)
    ensures dst[..at] == old(dst[..at]) && dst[at + 16..] == old(dst[at + 16..])
  {
    hide Xor8;
    var i := 0;
    while i < 4
      invariant i <= 4
      invariant dst[at..at + i] == XorSeq(src, magic + tid)[..i]
      invariant dst[..at] == old(dst[..at]) && dst[at + 16..] == old(dst[at + 16..])
    {
      dst[at + i] := Xor8(src[i], magic[i]);
      i := i + 1;
    }
    i := 0;
    while i < 12
      invariant i <= 12
      invariant dst[at..at + 4 + i] == XorSeq(src, magic + tid)[..4 + i]
      invariant dst[..at] == old(dst[..at]) && dst[at + 16..] == old(dst[at + 16..])
    {
      dst[at + 4 + i] := Xor8(src[i + 4], tid[i]);
      i := i + 1;
    }
  }

  /** What a value decodes to: families 1 and 2 with exactly their lengths. */
  function Decoded(cfield: seq<u8>, xored: bool, tid: seq<u8>): Option<Addr>
    requires |tid| == 12
  {
    if |cfield| < 8 || cfield[0] != 0 then None
    else
      var port := Masked(cfield[2..4], xored, Pad(tid));
      if cfield[1] == 1 && |cfield| == 8 then
        Some(Addr(V4(Masked(cfield[4..], xored, Pad(tid))), U16(port, 0)))
      else if cfield[1] == 2 && |cfield| == 20 then
        Some(Addr(V6(Masked(cfield[4..], xored, Pad(tid))), U16(port, 0)))
      else None
  }

  /** stun_addr_decode. */
  method Decode(cfield: seq<u8>, xored: bool, tid: seq<u8>) returns (ca: Option<Addr>)
    requires |tid| == 12
    ensures ca == Decoded(cfield, xored, tid)
  {
    hide Xor8;
    if |cfield| < 8 || cfield[0] != 0 || (cfield[1] != 1 && cfield[1] != 2) {
      return None;
    }
    var pad := Pad(tid);
    var port := if xored then XorSeq(cfield[2..4], pad) else cfield[2..4];
    if cfield[1] == 1 {
      if |cfield| != 8 {
        return None;
      }
      return Some(Addr(V4(if xored then XorSeq(cfield[4..], pad) else cfield[4..]), U16(port, 0)));
    }
    if |cfield| != 20 {
      return None;
    }
    var dst := new u8[16](_ => 0);
    Copy(dst, 0, cfield[4..]);
    if xored {
      XorLoops(dst, 0, cfield[4..], STUN_MAGIC_COOKIE, tid);
    }
    assert dst[..] == dst[0..16];
    ca := Some(Addr(V6(dst[..]), U16(port, 0)));
  }

  /** Every IPv4 and IPv6 address is read back; one without a family becomes the IPv4 address zero. */
  lemma AddressRoundTrip(ca: Addr, xored: bool, tid: seq<u8>)
    requires ValidIp(ca.ip) && |tid| == 12
    ensures Decoded(Encoded(ca, xored, tid), xored, tid)
            == Some(if ca.ip.NoFamily? then Addr(V4([0, 0, 0, 0]), ca.port) else ca)
  {
    hide Xor8, Be16, XorSeq;
    var pad := Pad(tid);
    var b := match ca.ip case NoFamily => [0, 0, 0, 0] case V4(b4) => b4 case V6(b6) => b6;
    var e := Encoded(ca, xored, tid);
    assert e[2..4] == Masked(Be16(ca.port), xored, pad);
    assert e[4..] == Masked(b, xored, pad);
    MaskedTwice(Be16(ca.port), xored, pad);
    MaskedTwice(b, xored, pad);
    Be16U16(ca.port);
  }

  lemma Be16U16(v: u16)
    ensures U16(Be16(v), 0) == v
  {
  }

  lemma MaskedTwice(b: seq<u8>, xored: bool, pad: seq<u8>)
    requires |b| <= |pad|
    ensures Masked(Masked(b, xored, pad), xored, pad) == b
  {
    if xored {
      XorSeqTwice(b, pad);
    }
  }

  /** What decodes is the encoding of what it decodes to, so no two values stand for the same address. */
  lemma ValueRoundTrip(cfield: seq<u8>, xored: bool, tid: seq<u8>)
    requires |tid| == 12 && Decoded(cfield, xored, tid).Some?
    ensures var ca := Decoded(cfield, xored, tid).value;
            ValidIp(ca.ip) && Encoded(ca, xored, tid) == cfield
  {
    hide Xor8, XorSeq;
    var pad := Pad(tid);
    var port := Masked(cfield[2..4], xored, pad);
    MaskedTwice(cfield[2..4], xored, pad);
    MaskedTwice(cfield[4..], xored, pad);
    assert Be16(U16(port, 0)) == port;
    assert cfield == [cfield[0], cfield[1]] + cfield[2..4] + cfield[4..];
  }

  // ---------------------------------------------------------------- public and private addresses

  datatype Mapping = Mapping(pub: Addr, priv: Addr)

  function ToPrivate(m: seq<Mapping>, a: Addr): Addr {
    var i := First(m, (e: Mapping) => AddrEqNoPort(a, e.pub));
    if i < |m| then WithPort(m[i].priv, Port(a)) else a
  }

  function ToPublic(m: seq<Mapping>, a: Addr): Addr {
    var i := First(m, (e: Mapping) => AddrEqNoPort(a, e.priv));
    if i < |m| then WithPort(m[i].pub, Port(a)) else a
  }

  class Mappings {
    var entries: seq<Mapping>

    constructor ()
      ensures entries == []
    {
      entries := [];
    }

    /** ioa_addr_add_mapping. */
    method Add(apub: Addr, apriv: Addr)
      modifies this
      ensures entries == old(entries) + [Mapping(apub, apriv)]
    {
      entries := entries + [Mapping(apub, apriv)];
    }

    /** map_addr_from_public_to_private. */
    method MapToPrivate(a: Addr) returns (r: Addr)
      ensures r == ToPrivate(entries, a)
    {
      var i := Scan(entries, (e: Mapping) => AddrEqNoPort(a, e.pub));
      r := if i < |entries| then WithPort(entries[i].priv, Port(a)) else a;
    }

    /** map_addr_from_private_to_public. */
    method MapToPublic(a: Addr) returns (r: Addr)
      ensures r == ToPublic(entries, a)
    {
      var i := Scan(entries, (e: Mapping) => AddrEqNoPort(a, e.priv));
      r := if i < |entries| then WithPort(entries[i].pub, Port(a)) else a;
    }
  }

  /** Every mapped address has a family, and no public address is mapped twice. */
  ghost predicate OneToOne(m: seq<Mapping>) {
    && (forall i :: 0 <= i < |m| ==> !m[i].pub.ip.NoFamily? && !m[i].priv.ip.NoFamily?)
    && (forall i, j :: 0 <= i < j < |m| ==> m[i].pub.ip != m[j].pub.ip)
  }

  predicate IsPublic(m: seq<Mapping>, a: Addr) {
    exists i :: 0 <= i < |m| && AddrEqNoPort(a, m[i].pub) && m[i].priv.ip != a.ip
  }

  predicate IsPrivate(m: seq<Mapping>, a: Addr) {
    exists i :: 0 <= i < |m| && AddrEqNoPort(a, m[i].priv)
  }

  /** The first mapping of an address counts, and keeps its port. */
  lemma FirstMapping(m: seq<Mapping>, a: Addr, i: nat)
    requires i < |m|
    ensures AddrEqNoPort(a, m[i].priv) && (forall j :: 0 <= j < i ==> !AddrEqNoPort(a, m[j].priv)) ==>
              ToPublic(m, a) == WithPort(m[i].pub, a.port)
    ensures AddrEqNoPort(a, m[i].pub) && (forall j :: 0 <= j < i ==> !AddrEqNoPort(a, m[j].pub)) ==>
              ToPrivate(m, a) == WithPort(m[i].priv, a.port)
  {
  }

  /** Going out as public and coming back gives the same address exactly unless it is itself a public address
      of another one and not a private address. */
  lemma MappingRoundTripIff(m: seq<Mapping>, a: Addr)
    requires OneToOne(m)
    ensures ToPrivate(m, ToPublic(m, a)) == a <==> IsPrivate(m, a) || !IsPublic(m, a)
  {
    var i := First(m, (e: Mapping) => AddrEqNoPort(a, e.priv));
    if i < |m| {
      assert IsPrivate(m, a);
      FirstIs(m, (e: Mapping) => AddrEqNoPort(ToPublic(m, a), e.pub), i);
    } else {
      var j := First(m, (e: Mapping) => AddrEqNoPort(a, e.pub));
      assert forall k :: 0 <= k < |m| && AddrEqNoPort(a, m[k].pub) ==> k == j;
    }
  }

  /** The address that does not come back: a mapped public one, which is sent out as it is and taken for the private
      one on its way in. */
  lemma PublicComesBackPrivate()
    ensures var pub, priv := Addr(V4([192, 0, 2, 1]), 80), Addr(V4([10, 0, 0, 1]), 0);
            var m := [Mapping(pub, priv)];
            OneToOne(m) && ToPublic(m, pub) == pub && ToPrivate(m, pub) == priv.(port := 80)
  {
    var pub, priv := Addr(V4([192, 0, 2, 1]), 80), Addr(V4([10, 0, 0, 1]), 0);
    assert pub.ip.b4[0] != priv.ip.b4[0];
    FirstIs([Mapping(pub, priv)], (e: Mapping) => AddrEqNoPort(pub, e.priv), 1);
    FirstIs([Mapping(pub, priv)], (e: Mapping) => AddrEqNoPort(pub, e.pub), 0);
  }

  // ---------------------------------------------------------------- address attributes of messages

  predicate Xored(kind: u16) {
    kind in [STUN_ATTRIBUTE_XOR_MAPPED_ADDRESS, STUN_ATTRIBUTE_XOR_PEER_ADDRESS, STUN_ATTRIBUTE_XOR_RELAYED_ADDRESS]
  }

  predicate AnyNoPort(a: Addr) {
    match a.ip
    case NoFamily => true
    case V4(b) => AllZero(b)
    case V6(b) => AllZero(b)
  }

  /** stun_attr_get_addr_str for the attribute at a position. */
  function AddressAt(m: seq<Mapping>, s: seq<u8>, p: nat, fallback: Option<Addr>): Option<Addr>
    requires STUN_HEADER_LENGTH <= p && p + 4 <= |s| && p + 4 + U16(s, p + 2) <= |s|
  {
    match Decoded(s[p + 4..p + 4 + U16(s, p + 2)], Xored(U16(s, p)), s[8..20])
    case None => None
    case Some(pub) =>
      var ca := ToPrivate(m, pub);
      if fallback.Some? && AnyNoPort(ca) && !AnyNoPort(fallback.value) then Some(WithPort(fallback.value, Port(ca)))
      else Some(ca)
  }

  /** stun_attr_add_addr_str. */
  method AddAddress(maps: Mappings, buf: array<u8>, len: nat, kind: u16, ca: Addr, ghost attrs: seq<Attr>)
    returns (ret: int, newLen: nat)
    requires ValidIp(ca.ip) && forall i :: 0 <= i < |maps.entries| ==> ValidIp(maps.entries[i].pub.ip)
    requires buf.Length >= MAX_STUN_MESSAGE_SIZE && len <= buf.Length && Message(buf[..len], attrs)
    modifies buf
    ensures newLen <= buf.Length
    ensures ret == 0 ==>
      && Message(buf[..newLen], attrs + [Attr(kind, Encoded(ToPublic(maps.entries, ca), Xored(kind), old(buf[8..20])))])
      && Extends(old(buf[..len]), buf[..newLen])
    ensures ret != 0 ==> ret == -1 && newLen == len && buf[..] == old(buf[..])
    ensures len + 24 < MAX_STUN_MESSAGE_SIZE ==> ret == 0
  {
    hide Message, Extends, Encoded, Size;
    MessageLen(buf[..len], attrs);
    var tid := buf[8..20];
    var pub := maps.MapToPublic(ca);
    var cfield := new u8[64];
    var clen := Encode(pub, cfield, Xored(kind), tid);
    EncodedSize(pub, Xored(kind), tid);
    ret, newLen := AddToMessage(buf, len, Attr(kind, cfield[..clen]), attrs);
  }

  lemma EncodedSize(ca: Addr, xored: bool, tid: seq<u8>)
    requires ValidIp(ca.ip) && |tid| == 12
    ensures Size(Encoded(ca, xored, tid)) <= 24
  {
  }

  /** An address attribute of a message gives back the address that was put in, for every transaction id and
      kind of attribute, exactly when the mapping does. */
  lemma AddressAttributeRoundTrip(m: seq<Mapping>, s: seq<u8>, p: nat, kind: u16, ca: Addr)
    requires OneToOne(m) && STUN_HEADER_LENGTH <= p
    requires !ca.ip.NoFamily? && ValidIp(ca.ip) && ValidIp(ToPublic(m, ca).ip)
    requires |s| >= STUN_HEADER_LENGTH && HasAttr(s, p, Attr(kind, Encoded(ToPublic(m, ca), Xored(kind), s[8..20])))
    ensures AddressAt(m, s, p, None) == Some(ca) <==> IsPrivate(m, ca) || !IsPublic(m, ca)
  {
    hide Encoded, Decoded, ToPrivate;
    MappingRoundTripIff(m, ca);
    AddressRoundTrip(ToPublic(m, ca), Xored(kind), s[8..20]);
  }
}
