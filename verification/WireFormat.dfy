/** The formats octet by octet, and the values that other implementations agree on: nothing here is said through the
    functions that write and read them. */
module WireFormat {
  import opened Options
  import opened IoAddr
  import opened Bytes
  import opened StunMsg
  import opened StunTypes
  import opened StunAttrs
  import opened StunAddr
  import opened Framing
  import StunFingerprint
  import Crc32

  // ---------------------------------------------------------------- messages

  /** A command message: twenty octets of header with two zero bits, the length of the rest and the cookie. */
  lemma CommandBytes(s: seq<u8>)
    ensures IsCommand(s) <==>
      && |s| >= 20 && s[0] < 0x40
      && (s[2] as int) * 256 + s[3] == |s| - 20 && |s| % 4 == 0
      && s[4] == 0x21 && s[5] == 0x12 && s[6] == 0xA4 && s[7] == 0x42
  {
    if |s| >= 20 {
      assert s[4..8] == [s[4], s[5], s[6], s[7]];
    }
  }

  /** An attribute: two octets of type, two of length, the value, and padding to a multiple of four. */
  lemma AttributeBytes(s: seq<u8>, p: nat, a: Attr)
    ensures HasAttr(s, p, a) <==>
      && p + 4 + (|a.value| + 3) / 4 * 4 <= |s|
      && (s[p] as int) * 256 + s[p + 1] == a.kind
      && (s[p + 2] as int) * 256 + s[p + 3] == |a.value|
      && forall i :: 0 <= i < |a.value| ==> s[p + 4 + i] == a.value[i]
  {
    RoundedUp(|a.value|);
    hide RoundUp;
    SliceIs(s, p + 4, a.value);
  }

  /** A ChannelData message: a number with the first two bits 01, the length of the data, the data, and padding. */
  lemma ChannelBytes(f: seq<u8>, chn: u16, data: seq<u8>, padded: bool)
    ensures IsChannelFrame(f, chn, data, padded) <==>
      && 0x4000 <= chn <= 0x7FFF && |data| <= 65503
      && |f| == 4 + (if padded then (|data| + 3) / 4 * 4 else |data|)
      && (f[0] as int) * 256 + f[1] == chn
      && (f[2] as int) * 256 + f[3] == |data|
      && forall i :: 0 <= i < |data| ==> f[4 + i] == data[i]
  {
    RoundedUp(|data|);
    hide RoundUp;
    SliceIs(f, 4, data);
  }

  lemma RoundedUp(n: nat)
    ensures RoundUp(n) == (n + 3) / 4 * 4
  {
  }

  lemma SliceIs(s: seq<u8>, at: nat, x: seq<u8>)
    ensures at + |x| <= |s| ==> (s[at..at + |x|] == x <==> forall i :: 0 <= i < |x| ==> s[at + i] == x[i])
  {
    if at + |x| <= |s| && s[at..at + |x|] == x {
      var t := s[at..at + |x|];
      assert forall i :: 0 <= i < |x| ==> t[i] == s[at + i];
    }
  }

  /** What is taken for a ChannelData message: its length field names exactly the bytes behind it, or those that are left
      fit without padding, or, where padding may be left out, at most three are too many. */
  lemma ChannelAccepted(s: seq<u8>, mandatory: bool)
    ensures |s| < 4 ==> ChannelMessage(s, mandatory) == None
    ensures |s| >= 4 ==>
      var n, chn := (s[2] as int) * 256 + s[3], (s[0] as int) * 256 + s[1];
      var rest := (if |s| > 65535 then 65535 else |s|) - 4;
      ChannelMessage(s, mandatory)
      == if 0x4000 <= chn <= 0x7FFF && n <= rest
            && (n == rest || rest % 4 == 0 || (!mandatory && n != 0 && rest - n <= 3))
         then Some((chn, n + 4)) else None
  {
  }

  /** The first octets of a whole command message. */
  predicate CommandAhead(s: seq<u8>) {
    |s| >= 20 && s[0] < 0x40 && s[4] == 0x21 && s[5] == 0x12 && s[6] == 0xA4 && s[7] == 0x42 && s[3] % 4 == 0
  }

  /** Which length a stream is cut at: a command by its header. */
  lemma CommandCut(http: HttpTest, s: seq<u8>)
    requires CommandAhead(s)
    requires (s[2] as int) * 256 + s[3] + 20 <= |s| && (s[2] as int) * 256 + s[3] < 65516
    ensures FrameLen(http, s, true) == (s[2] as int) * 256 + s[3] + 20
  {
    assert s[4..8] == [s[4], s[5], s[6], s[7]];
  }

  /** Otherwise what the HTTP test says. */
  lemma HttpCut(http: HttpTest, s: seq<u8>)
    requires |s| >= 1 && 0 < http(s) <= |s|
    requires !CommandAhead(s) || ((s[2] as int) * 256 + s[3] < 65516 && (s[2] as int) * 256 + s[3] + 20 > |s|)
    ensures FrameLen(http, s, true) == http(s)
  {
    if |s| >= 8 {
      assert s[4..8] == [s[4], s[5], s[6], s[7]];
    }
  }

  /** Otherwise a ChannelData message by its padded length, which is right up to 65528 octets of data. */
  lemma ChannelCut(http: HttpTest, s: seq<u8>)
    requires |s| >= 4 && 0x40 <= s[0] <= 0x7F && !(0 < http(s) <= |s|) && (s[2] as int) * 256 + s[3] <= 65528
    ensures var n := 4 + ((s[2] as int) * 256 + s[3] + 3) / 4 * 4;
            FrameLen(http, s, true) == if n <= |s| then n else -1
  {
    PaddedExactIff(U16(s, 2));
    hide PaddedLen;
  }

  /** And otherwise nothing. */
  lemma NoCut(http: HttpTest, s: seq<u8>)
    requires |s| >= 1 ==> !(0 < http(s) <= |s|) && (|s| >= 4 ==> s[0] < 0x40 || s[0] >= 0x80)
    requires !CommandAhead(s) || ((s[2] as int) * 256 + s[3] < 65516 && (s[2] as int) * 256 + s[3] + 20 > |s|)
    ensures FrameLen(http, s, true) == -1
  {
    if |s| >= 8 {
      assert s[4..8] == [s[4], s[5], s[6], s[7]];
    }
  }

  // ---------------------------------------------------------------- types

  /** The bits of a method are parted by the two class bits: 0x010 for an indication, 0x100 for a response, both for an
      error. */
  lemma TypeLayout(c: Class, code: u16)
    requires code < 0x1000
    ensures Make(c, code) ==
      code % 0x10 + 0x20 * (code / 0x10 % 8) + 0x200 * (code / 0x80)
      + match c case Request => 0 case Indication => 0x010 case Success => 0x100 case Error => 0x110
  {
    UpperBits(code);
    assert code % 0x1000 == code;
  }

  lemma UpperBits(m: u16)
    requires m < 0x1000
    ensures m / 0x80 % 8 * 0x200 + m / 0x400 * 0x1000 == 0x200 * (m / 0x80)
  {
    var q: int := m / 0x80;
    assert q / 8 == m / 0x400;
    assert q == q % 8 + 8 * (q / 8);
  }

  /** Binding, Allocate, Send and Data as they are on the wire. */
  lemma KnownTypes()
    ensures Make(Request, 1) == 0x0001 && Make(Success, 1) == 0x0101 && Make(Error, 1) == 0x0111
    ensures Make(Request, 3) == 0x0003 && Make(Success, 3) == 0x0103 && Make(Error, 3) == 0x0113
    ensures Make(Indication, 6) == 0x0016 && Make(Indication, 7) == 0x0017 && Make(Request, 0xFFF) == 0x3EEF
  {
    hide Make;
    TypeLayout(Request, 1);
    TypeLayout(Success, 1);
    TypeLayout(Error, 1);
    TypeLayout(Request, 3);
    TypeLayout(Success, 3);
    TypeLayout(Error, 3);
    TypeLayout(Indication, 6);
    TypeLayout(Indication, 7);
    TypeLayout(Request, 0xFFF);
  }

  // ---------------------------------------------------------------- addresses

  /** Two bits differ. */
  function Differ(a: nat, b: nat): nat {
    if a % 2 == b % 2 then 0 else 1
  }

  /** Exclusive or, bit by bit. */
  lemma XorOctet(a: u8, b: u8)
    ensures Xor8(a, b) == Differ(a, b) + 2 * Differ(a / 2, b / 2) + 4 * Differ(a / 4, b / 4) + 8 * Differ(a / 8, b / 8)
              + 16 * Differ(a / 16, b / 16) + 32 * Differ(a / 32, b / 32) + 64 * Differ(a / 64, b / 64)
              + 128 * Differ(a / 128, b / 128)
  {
    hide XorBits, Differ;
    Halves(a);
    Halves(b);
    XorStep(a, b, 8);
    XorStep(a / 2, b / 2, 7);
    XorStep(a / 4, b / 4, 6);
    XorStep(a / 8, b / 8, 5);
    XorStep(a / 16, b / 16, 4);
    XorStep(a / 32, b / 32, 3);
    XorStep(a / 64, b / 64, 2);
    XorStep(a / 128, b / 128, 1);
    XorNone();
  }

  lemma XorNone()
    ensures XorBits(0, 0, 0) == 0
  {
  }

  lemma Halves(a: u8)
    ensures a / 2 / 2 == a / 4 && a / 4 / 2 == a / 8 && a / 8 / 2 == a / 16 && a / 16 / 2 == a / 32
    ensures a / 32 / 2 == a / 64 && a / 64 / 2 == a / 128 && a / 128 / 2 == 0
  {
  }

  lemma XorStep(a: nat, b: nat, n: nat)
    requires n > 0
    ensures XorBits(a, b, n) == Differ(a, b) + 2 * XorBits(a / 2, b / 2, n - 1)
  {
    SumBit(a, b);
  }

  lemma SumBit(a: nat, b: nat)
    ensures (a + b) % 2 == Differ(a, b)
  {
  }

  /** Which address attributes are XORed. */
  lemma XoredKinds(kind: u16)
    ensures Xored(kind) <==> kind == 0x0020 || kind == 0x0012 || kind == 0x0016
  {
  }

  const VECTOR_TID: seq<u8> := [0xb7, 0xe7, 0xa7, 0x01, 0xbc, 0x34, 0xd6, 0x86, 0xfa, 0x87, 0xdf, 0xae]

  lemma VectorPort()
    ensures Xor8(0x80, 0x21) == 0xa1
    ensures Xor8(0x55, 0x12) == 0x47
  {
    hide Xor8;
    XorOctet(0x80, 0x21);
    XorOctet(0x55, 0x12);
  }

  lemma VectorIp()
    ensures Xor8(0xc0, 0x21) == 0xe1
    ensures Xor8(0x00, 0x12) == 0x12
  {
    hide Xor8;
    XorOctet(0xc0, 0x21);
    XorOctet(0x00, 0x12);
  }

  lemma VectorIpRest()
    ensures Xor8(0x02, 0xa4) == 0xa6
    ensures Xor8(0x01, 0x42) == 0x43
  {
    hide Xor8;
    XorOctet(0x02, 0xa4);
    XorOctet(0x01, 0x42);
  }

  /** The mapped address of the sample response in section 2.2 of RFC 5769, XORed and in the clear. */
  lemma AddressVector()
    ensures var v4 := Addr(V4([192, 0, 2, 1]), 32853);
            && StunAddr.Encoded(v4, true, VECTOR_TID) == [0, 1, 0xa1, 0x47, 0xe1, 0x12, 0xa6, 0x43]
            && StunAddr.Encoded(v4, false, VECTOR_TID) == [0, 1, 0x80, 0x55, 192, 0, 2, 1]
  {
    hide Xor8;
    VectorPort();
    VectorIp();
    VectorIpRest();
    assert Be16(32853) == [0x80, 0x55];
    assert XorSeq([0x80, 0x55], Pad(VECTOR_TID)) == [0xa1, 0x47];
    assert XorSeq([192, 0, 2, 1], Pad(VECTOR_TID)) == [0xe1, 0x12, 0xa6, 0x43];
  }

  /** The octets of every address value: family 1 or 2, the port with the start of the cookie, the address with the cookie
      and, behind four octets, the transaction id. */
  lemma AddressLayout(ip: seq<u8>, v6: bool, port: u16, tid: seq<u8>)
    requires |tid| == 12 && |ip| == if v6 then 16 else 4
    ensures var ca := Addr(if v6 then V6(ip) else V4(ip), port);
            var x, y := StunAddr.Encoded(ca, true, tid), StunAddr.Encoded(ca, false, tid);
            && |x| == |y| == (if v6 then 20 else 8)
            && x[0] == y[0] == 0 && x[1] == y[1] == (if v6 then 2 else 1)
            && y[2] == port / 256 && y[3] == port % 256 && x[2] == Xor8(port / 256, 0x21) && x[3] == Xor8(port % 256, 0x12)
            && y[4..] == ip
            && x[4] == Xor8(ip[0], 0x21) && x[5] == Xor8(ip[1], 0x12) && x[6] == Xor8(ip[2], 0xA4) && x[7] == Xor8(ip[3], 0x42)
            && forall i :: 4 <= i < |ip| ==> x[4 + i] == Xor8(ip[i], tid[i - 4])
  {
    hide Xor8;
  }

  /** An address attribute may stand for a default: a zero address gives the default with the port of the attribute. */
  lemma DefaultAddress(m: seq<Mapping>, s: seq<u8>, p: nat, d: Addr)
    requires 20 <= p && p + 4 <= |s| && p + 4 + U16(s, p + 2) <= |s|
    ensures var ca := AddressAt(m, s, p, None);
            AddressAt(m, s, p, Some(d))
            == if ca.Some? && ZeroIp(ca.value.ip) && !ZeroIp(d.ip) then Some(d.(port := Port(ca.value))) else ca
  {
    hide StunAddr.Decoded, ToPrivate;
  }

  predicate ZeroIp(ip: Ip) {
    match ip
    case NoFamily => true
    case V4(b) => forall i :: 0 <= i < |b| ==> b[i] == 0
    case V6(b) => forall i :: 0 <= i < |b| ==> b[i] == 0
  }

  // ---------------------------------------------------------------- FINGERPRINT

  /** The value of a FINGERPRINT is the CRC-32 with 0x5354554E, octet for octet. */
  lemma FingerprintOctets(s: seq<u8>)
    ensures var w := StunFingerprint.Word(Crc32.Crc(StunFingerprint.Octets(s)));
            StunFingerprint.Fingerprint(s) == [Xor8(w[0], 0x53), Xor8(w[1], 0x54), Xor8(w[2], 0x55), Xor8(w[3], 0x4E)]
  {
    hide Xor8, Crc32.Crc, StunFingerprint.Word;
  }

  /** A word goes out with its highest octet first. */
  lemma WordVector()
    ensures StunFingerprint.Word(0xCBF4_3926) == [0xCB, 0xF4, 0x39, 0x26]
  {
  }

  /** The four types of a Binding message. */
  lemma BindingTypes(t: u16)
    requires t < 0x4000
    ensures MethodOf(t) == 1 <==> t == 0x0001 || t == 0x0011 || t == 0x0101 || t == 0x0111
  {
    hide MethodOf, ClassOf;
    var a, x, b, y, d, e := Places(t);
    Reads(t, a, x, b, y, d, e);
  }

  lemma Places(t: u16) returns (a: int, x: int, b: int, y: int, d: int, e: int)
    requires t < 0x4000
    ensures 0 <= a < 16 && 0 <= x < 2 && 0 <= b < 8 && 0 <= y < 2 && 0 <= d < 8 && 0 <= e < 4
    ensures t == a + 0x10 * x + 0x20 * b + 0x100 * y + 0x200 * d + 0x1000 * e
  {
    var t1: int := t / 0x10;
    var t2: int := t1 / 2;
    var t3: int := t2 / 8;
    var t4: int := t3 / 2;
    a, x, b, y, d, e := t % 0x10, t1 % 2, t2 % 8, t3 % 2, t4 % 8, t4 / 8;
  }

  /** What the full check accepts: without a FINGERPRINT any message, or only a Binding one where one is demanded; with
      one, exactly if it is four octets long and right. */
  lemma CheckMeans(b: seq<u8>, len: nat, must: bool)
    requires StunFingerprint.Readable(b, len) && IsCommand(b[..len])
    ensures NoneOfKind(b[..len], 0x8028) ==>
      (StunFingerprint.Checked(b, len, must) <==>
         !must || (b[0] == 0 && (b[1] == 0x01 || b[1] == 0x11)) || (b[0] == 1 && (b[1] == 0x01 || b[1] == 0x11)))
    ensures forall p: nat :: FirstOfKind(b[..len], p, 0x8028) ==>
      (p + 4 <= len && (StunFingerprint.Checked(b, len, must) <==>
         b[p + 2] == 0 && b[p + 3] == 4 && p + 8 <= |b| && b[p + 4..p + 8] == StunFingerprint.Fingerprint(b[..p])))
  {
    hide Find, Offsets, NoneOfKind, FirstOfKind, MethodOf, IsCommand;
    FindIff(b[..len], 0x8028);
    FindIsFirst(b[..len], First(b[..len]), 0x8028);
    CommandBytes(b[..len]);
    BindingTypes((b[0] as int) * 256 + b[1]);
  }

  // ---------------------------------------------------------------- CRC-32

  /** The check value of CRC-32: the digits 1 to 9. */
  lemma CrcCheckValue()
    ensures Crc32.Crc([0x31, 0x32, 0x33, 0x34, 0x35, 0x36, 0x37, 0x38, 0x39]) == 0xCBF4_3926
  {
    hide Crc32.Update, Crc32.Feed;
    var d: seq<bv8> := [0x31, 0x32, 0x33, 0x34, 0x35, 0x36, 0x37, 0x38, 0x39];
    CrcStart();
    CrcOctet(d[..0], 0x31);
    CrcOctet(d[..1], 0x32);
    CrcOctet(d[..2], 0x33);
    CrcOctet(d[..3], 0x34);
    CrcOctet(d[..4], 0x35);
    CrcOctet(d[..5], 0x36);
    CrcOctet(d[..6], 0x37);
    CrcOctet(d[..7], 0x38);
    CrcOctet(d[..8], 0x39);
    CrcUpdates();
    CrcMoreUpdates();
    assert d[..0] == [] && d[..0] + [0x31] == d[..1] && d[..1] + [0x32] == d[..2] && d[..2] + [0x33] == d[..3];
    assert d[..3] + [0x34] == d[..4] && d[..4] + [0x35] == d[..5] && d[..5] + [0x36] == d[..6];
    assert d[..6] + [0x37] == d[..7] && d[..7] + [0x38] == d[..8] && d[..8] + [0x39] == d;
  }

  function Register(d: seq<bv8>): bv32 {
    Crc32.Feed(0xFFFF_FFFF, Crc32.AllBits(d))
  }

  lemma CrcStart()
    ensures Register([]) == 0xFFFF_FFFF
  {
  }

  lemma CrcOctet(d: seq<bv8>, c: bv8)
    ensures Register(d + [c]) == Crc32.Update(Register(d), c)
  {
    hide Crc32.Update, Crc32.FeedBit, Crc32.BitsOf;
    assert (d + [c])[..|d|] == d;
    Crc32.TableStep(Register(d), c);
    Crc32.FeedConcat(0xFFFF_FFFF, Crc32.AllBits(d), Crc32.BitsOf(c));
  }

  lemma CrcUpdates()
    ensures Crc32.Update(0xFFFF_FFFF, 0x31) == 0x7C23_1048 && Crc32.Update(0x7C23_1048, 0x32) == 0xB0AC_BB32
    ensures Crc32.Update(0xB0AC_BB32, 0x33) == 0x77B7_9C2D && Crc32.Update(0x77B7_9C2D, 0x34) == 0x641C_1F5C
  {
  }

  lemma CrcMoreUpdates()
    ensures Crc32.Update(0x641C_1F5C, 0x35) == 0x340A_C5E3 && Crc32.Update(0x340A_C5E3, 0x36) == 0xF68D_2C9E
    ensures Crc32.Update(0xF68D_2C9E, 0x37) == 0xAFFC_9660 && Crc32.Update(0xAFFC_9660, 0x38) == 0x651F_2550
    ensures Crc32.Update(0x651F_2550, 0x39) == 0x340B_C6D9
  {
  }
}
