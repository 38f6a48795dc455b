/** MESSAGE-INTEGRITY (section 15.4 of RFC 5389). */
module StunIntegrity {
  import opened IoAddr
  import opened Bytes
  import opened Options
  import opened StunMsg
  import opened StunAttrs

  datatype ShaType = SHA1 | SHA256 | SHA384 | SHA512

  function ShaSize(sha: ShaType): nat {
    match sha
    case SHA1 => 20
    case SHA256 => 32
    case SHA384 => 48
    case SHA512 => 64
  }

  /** get_hmackey_size. */
  function HmacKeySize(sha: ShaType): nat {
    match sha
    case SHA1 => 16
    case SHA256 => 32
    case SHA384 => 48
    case SHA512 => 64
  }

  datatype Credentials = ShortTerm(password: seq<u8>) | LongTerm(key: seq<u8>)

  function KeyOf(c: Credentials, sha: ShaType): seq<u8> {
    match c
    case ShortTerm(password) => password
    case LongTerm(key) => if |key| >= 64 then key[..HmacKeySize(sha)] else key
  }

  // OpenSSL's HMAC: the digest of some data under a key, or a failure.
  type Hmac = (ShaType, seq<u8>, seq<u8>) -> Option<seq<u8>>

  ghost predicate IsHmac(hmac: Hmac) {
    forall sha, key, data :: hmac(sha, key, data).Some? ==> |hmac(sha, key, data).value| == ShaSize(sha)
  }

  // ---------------------------------------------------------------- MESSAGE-INTEGRITY

  /** What the digest covers: the bytes before the attribute, with a length field that ends behind it. */
  function Covered(s: seq<u8>, p: nat, sha: ShaType): seq<u8>
    requires STUN_HEADER_LENGTH <= p <= |s|
  {
    SetLen(s, p + 4 + ShaSize(sha))[..p]
  }

  /** The verdict on a message: 1 intact, 0 not intact, -1 cannot be decided. */
  ghost function Verdict(hmac: Hmac, c: Credentials, sha: ShaType, s: seq<u8>): int
    requires IsCommand(s)
  {
    FirstInside(s);
    FindIsFirst(s, First(s), STUN_ATTRIBUTE_MESSAGE_INTEGRITY);
    match Find(s, First(s), STUN_ATTRIBUTE_MESSAGE_INTEGRITY)
    case None => -1
    case Some(p) =>
      if U16(s, p + 2) != ShaSize(sha) || p + 4 + ShaSize(sha) > |s| then -1
      else
        match hmac(sha, KeyOf(c, sha), Covered(s, p, sha))
        case None => -1
        case Some(mac) => if mac == s[p + 4..p + 4 + ShaSize(sha)] then 1 else 0
  }

  ghost predicate Intact(hmac: Hmac, c: Credentials, sha: ShaType, s: seq<u8>) {
    IsCommand(s) && Verdict(hmac, c, sha, s) == 1
  }

  predicate Lacks(attrs: seq<Attr>, kind: u16) {
    forall i :: 0 <= i < |attrs| ==> attrs[i].kind != kind
  }

  /** The digest of a received message: the length field is rewritten for the computation, and restored. */
  method DigestAt(hmac: Hmac, c: Credentials, sha: ShaType, buf: array<u8>, len: nat, p: nat)
    returns (mac: Option<seq<u8>>)
    requires STUN_HEADER_LENGTH <= p && p + 4 + ShaSize(sha) <= len <= buf.Length
    requires U16(buf[..], 2) + STUN_HEADER_LENGTH == len
    modifies buf
    ensures buf[..] == old(buf[..])
    ensures mac == hmac(sha, KeyOf(c, sha), Covered(old(buf[..len]), p, sha))
  {
    hide Splice, SetLen, ShaSize;
    ghost var was := buf[..];
    var newLen := p + 4 + ShaSize(sha);
    RewriteLength(was, len, newLen);
    Copy(buf, 2, Be16((newLen - STUN_HEADER_LENGTH) % 0x1_0000));
    assert buf[..p] == buf[..][..len][..p];
    mac := hmac(sha, KeyOf(c, sha), buf[..p]);
    Copy(buf, 2, Be16((len - STUN_HEADER_LENGTH) % 0x1_0000));
  }

  /** stun_check_message_integrity_by_key_str. */
  method CheckIntegrity(hmac: Hmac, c: Credentials, sha: ShaType, buf: array<u8>, len: nat) returns (ret: int)
    requires len <= buf.Length && IsCommand(buf[..len])
    modifies buf
    ensures buf[..] == old(buf[..])
    ensures ret == Verdict(hmac, c, sha, old(buf[..len]))
  {
    hide IsCommand, Find, Covered, KeyOf, ShaSize, Offsets, U16;
    ghost var was, s := buf[..], buf[..len];
    MessageLength(s);
    SameLength(was, len);
    var sar := FirstByType(buf[..len], STUN_ATTRIBUTE_MESSAGE_INTEGRITY);
    if sar == None {
      return -1;
    }
    var p := sar.value;
    FindIsFirst(s, First(s), STUN_ATTRIBUTE_MESSAGE_INTEGRITY);
    if U16(buf[..len], p + 2) != ShaSize(sha) {
      return -1;
    }
    var origLen := MsgLen(buf[..len]);
    var newLen := p + 4 + ShaSize(sha);
    if newLen > origLen {
      return -1;
    }
    var mac := DigestAt(hmac, c, sha, buf, len, p);
    match mac {
      case None => return -1;
      case Some(m) =>
        assert buf[..] == was && s == was[..len];
        assert buf[p + 4..newLen] == buf[..][p + 4..newLen] == s[p + 4..newLen];
        return if m == buf[p + 4..newLen] then 1 else 0;
    }
  }

  lemma SameLength(b: seq<u8>, len: nat)
    requires STUN_HEADER_LENGTH <= len <= |b|
    ensures U16(b[..len], 2) == U16(b, 2)
  {
  }

  lemma RewriteLength(b: seq<u8>, len: nat, newLen: nat)
    requires STUN_HEADER_LENGTH <= len <= |b| && U16(b, 2) + STUN_HEADER_LENGTH == len && newLen >= STUN_HEADER_LENGTH
    ensures var b1 := Splice(b, 2, Be16((newLen - STUN_HEADER_LENGTH) % 0x1_0000));
            && b1[..len] == SetLen(b[..len], newLen)
            && Splice(b1, 2, Be16((len - STUN_HEADER_LENGTH) % 0x1_0000)) == b
  {
    var w := Be16((newLen - STUN_HEADER_LENGTH) % 0x1_0000);
    var back := Be16((len - STUN_HEADER_LENGTH) % 0x1_0000);
    assert back[0] == b[2] && back[1] == b[3];
    hide Be16, U16, Splice;
    var b1 := Splice(b, 2, w);
    assert b1[..len] == SetLen(b[..len], newLen);
    assert Splice(b1, 2, back) == b;
  }

  /** stun_attr_add_integrity_str. The digest is written over the value that was appended to make room for it, which
      comes from memory that nobody has set. */
  method AddIntegrity(hmac: Hmac, c: Credentials, sha: ShaType, buf: array<u8>, len: nat, room: seq<u8>,
                      ghost attrs: seq<Attr>)
    returns (ret: int, newLen: nat, ghost mac: seq<u8>)
    requires |room| == ShaSize(sha)
    requires IsHmac(hmac) && buf.Length >= MAX_STUN_MESSAGE_SIZE && len <= buf.Length && Message(buf[..len], attrs)
    modifies buf
    ensures newLen <= buf.Length
    ensures ret == 0 ==>
      && newLen == len + 4 + ShaSize(sha)
      && Message(buf[..newLen], attrs + [Attr(STUN_ATTRIBUTE_MESSAGE_INTEGRITY, mac)])
      && Extends(old(buf[..len]), buf[..newLen])
    ensures ret == 0 && Lacks(attrs, STUN_ATTRIBUTE_MESSAGE_INTEGRITY) ==> Intact(hmac, c, sha, buf[..newLen])
    ensures ret == 0 ==> hmac(sha, KeyOf(c, sha), buf[..len]) == Some(mac)
    ensures ret == 0 || ret == -1
    // without a digest the room for it stays in the message
    ensures ret == -1 && newLen != len ==>
      Message(buf[..newLen], attrs + [Attr(STUN_ATTRIBUTE_MESSAGE_INTEGRITY, room)])
    ensures len + 4 + ShaSize(sha) >= MAX_STUN_MESSAGE_SIZE ==>
      ret == -1 && newLen == len && buf[..] == old(buf[..])
    ensures (forall data :: hmac(sha, KeyOf(c, sha), data).Some?) && len + 4 + ShaSize(sha) < MAX_STUN_MESSAGE_SIZE ==>
      ret == 0
  {
    hide Message, Intact, Extends, HasAttr, Splice, ShaSize, KeyOf, Lacks;
    mac := [];
    ShaSizes(sha);
    var size := ShaSize(sha);
    var a := Attr(STUN_ATTRIBUTE_MESSAGE_INTEGRITY, room);
    ghost var s := buf[..len];
    ret, newLen := AddToMessage(buf, len, a, attrs);
    if ret < 0 {
      return -1, newLen, [];
    }
    ghost var q := buf[..newLen];
    assert buf[..newLen - 4 - size] == q[..|q| - 4 - size];
    var digest := hmac(sha, KeyOf(c, sha), buf[..newLen - 4 - size]);
    match digest {
      case None => return -1, newLen, [];
      case Some(m) =>
        Copy(buf, newLen - size, m);
        mac := m;
        assert buf[..len] == q[..len];
        assert buf[..newLen] == Splice(q, newLen - size, m);
        Sealed(hmac, c, sha, s, q, attrs, room, m);
        ret := 0;
    }
  }

  lemma ShaSizes(sha: ShaType)
    ensures ShaSize(sha) % 4 == 0 && ShaSize(sha) <= 64
  {
  }

  lemma Sealed(hmac: Hmac, c: Credentials, sha: ShaType, s: seq<u8>, q: seq<u8>, attrs: seq<Attr>, room: seq<u8>,
               mac: seq<u8>)
    requires Message(s, attrs) && Message(q, attrs + [Attr(STUN_ATTRIBUTE_MESSAGE_INTEGRITY, room)]) && Extends(s, q)
    requires |room| == |mac| == ShaSize(sha) && |q| == |s| + 4 + |room|
    requires hmac(sha, KeyOf(c, sha), q[..|q| - 4 - |mac|]) == Some(mac)
    ensures var r := Splice(q, |q| - |mac|, mac);
            && Message(r, attrs + [Attr(STUN_ATTRIBUTE_MESSAGE_INTEGRITY, mac)]) && Extends(s, r)
            && (Lacks(attrs, STUN_ATTRIBUTE_MESSAGE_INTEGRITY) ==> Intact(hmac, c, sha, r))
  {
    hide Message, Extends, HasAttr, Splice, KeyOf, Verdict;
    FillLast(s, q, attrs, STUN_ATTRIBUTE_MESSAGE_INTEGRITY, room, mac);
    var r := Splice(q, |q| - |mac|, mac);
    assert q[..|s|] == q[..|q| - 4 - |mac|];
    MessageLen(r, attrs + [Attr(STUN_ATTRIBUTE_MESSAGE_INTEGRITY, mac)]);
    if Lacks(attrs, STUN_ATTRIBUTE_MESSAGE_INTEGRITY) {
      SealedVerdict(hmac, c, sha, s, r, attrs, mac);
    }
  }

  lemma {:induction false} LastAttr(s: seq<u8>, pos: nat, attrs: seq<Attr>, a: Attr)
    requires Holds(s, pos, attrs + [a])
    ensures |s| >= Size(a.value) && HasAttr(s, |s| - Size(a.value), a)
    decreases |attrs|
  {
    if attrs == [] {
      assert (attrs + [a])[0] == a && (attrs + [a])[1..] == [];
    } else {
      assert (attrs + [a])[0] == attrs[0] && (attrs + [a])[1..] == attrs[1..] + [a];
      LastAttr(s, pos + Size(attrs[0].value), attrs[1..], a);
    }
  }

  /** Writing over the value of the last attribute replaces that value. */
  lemma FillLast(s: seq<u8>, q: seq<u8>, attrs: seq<Attr>, kind: u16, room: seq<u8>, value: seq<u8>)
    requires Message(s, attrs) && Message(q, attrs + [Attr(kind, room)]) && Extends(s, q)
    requires |room| == |value| && |room| % 4 == 0 && |q| == |s| + 4 + |room|
    ensures var r := Splice(q, |q| - |value|, value);
            && Message(r, attrs + [Attr(kind, value)]) && Extends(s, r)
            && HasAttr(r, |s|, Attr(kind, value)) && r[..|s|] == q[..|s|]
  {
    hide Holds, IsCommand, Splice;
    var r := Splice(q, |q| - |value|, value);
    var a := Attr(kind, value);
    LastAttr(q, STUN_HEADER_LENGTH, attrs, Attr(kind, room));
    MessageLen(s, attrs);
    MessageLen(q, attrs + [Attr(kind, room)]);
    assert r[..|s|] == q[..|s|];
    assert r[4..|s|] == r[..|s|][4..] && q[4..|s|] == q[..|s|][4..] && r[..2] == q[..2];
    assert U16(r, 2) == U16(q, 2) && U16(r, |s|) == U16(q, |s|) && U16(r, |s| + 2) == U16(q, |s| + 2);
    assert r[|s| + 4..|s| + 4 + |value|] == value;
    SameHeader(s, r);
    HoldsLast(r, |s|, a);
    HoldsExtend(s, r, STUN_HEADER_LENGTH, attrs, a);
  }

  /** A message whose last attribute is the digest of what precedes it checks as intact. */
  lemma SealedVerdict(hmac: Hmac, c: Credentials, sha: ShaType, s: seq<u8>, r: seq<u8>, attrs: seq<Attr>, mac: seq<u8>)
    requires |mac| == ShaSize(sha) && Message(s, attrs) && |r| == |s| + 4 + |mac|
    requires Message(r, attrs + [Attr(STUN_ATTRIBUTE_MESSAGE_INTEGRITY, mac)]) && Extends(s, r)
    requires HasAttr(r, |s|, Attr(STUN_ATTRIBUTE_MESSAGE_INTEGRITY, mac))
    requires Lacks(attrs, STUN_ATTRIBUTE_MESSAGE_INTEGRITY)
    requires hmac(sha, KeyOf(c, sha), r[..|s|]) == Some(mac)
    ensures Verdict(hmac, c, sha, r) == 1
  {
    hide Holds, IsCommand, Find, Extends;
    FirstInside(r);
    MessageLen(s, attrs);
    MessageLen(r, attrs + [Attr(STUN_ATTRIBUTE_MESSAGE_INTEGRITY, mac)]);
    FindAppended(s, r, STUN_HEADER_LENGTH, attrs, Attr(STUN_ATTRIBUTE_MESSAGE_INTEGRITY, mac));
    OwnLength(r);
    assert Covered(r, |s|, sha) == r[..|s|];
  }

  lemma OwnLength(r: seq<u8>)
    requires |r| >= STUN_HEADER_LENGTH && U16(r, 2) + STUN_HEADER_LENGTH == |r|
    ensures SetLen(r, |r|) == r
  {
    assert Be16(U16(r, 2)) == r[2..4];
  }

  /** Appending further attributes does not change a verdict. */
  lemma VerdictExtends(hmac: Hmac, c: Credentials, sha: ShaType, s: seq<u8>, r: seq<u8>)
    requires IsCommand(s) && IsCommand(r) && Extends(s, r)
    requires Verdict(hmac, c, sha, s) >= 0
    ensures Verdict(hmac, c, sha, r) == Verdict(hmac, c, sha, s)
  {
    hide IsCommand, Find, Offsets, Extends;
    FirstInside(s);
    FirstInside(r);
    FindIsFirst(s, First(s), STUN_ATTRIBUTE_MESSAGE_INTEGRITY);
    FindGrown(s, r, STUN_HEADER_LENGTH, STUN_ATTRIBUTE_MESSAGE_INTEGRITY);
    var p := Find(s, First(s), STUN_ATTRIBUTE_MESSAGE_INTEGRITY).value;
    SameAt(s, r, p);
    SameCovered(s, r, p, sha);
  }

  lemma SameCovered(s: seq<u8>, r: seq<u8>, p: nat, sha: ShaType)
    requires Extends(s, r) && STUN_HEADER_LENGTH <= p && p + 4 + ShaSize(sha) <= |s|
    ensures Covered(r, p, sha) == Covered(s, p, sha)
    ensures r[p + 4..p + 4 + ShaSize(sha)] == s[p + 4..p + 4 + ShaSize(sha)]
    ensures |s| <= |r|
  {
    forall i | 4 <= i < |s|
      ensures r[i] == s[i]
    {
      assert r[i] == r[4..|s|][i - 4];
    }
  }

  // ---------------------------------------------------------------- what a verdict means

  /** The sizes of the digests and of the keys, octet for octet. */
  lemma Sizes()
    ensures ShaSize(SHA1) == 20 && ShaSize(SHA256) == 32 && ShaSize(SHA384) == 48 && ShaSize(SHA512) == 64
    ensures HmacKeySize(SHA1) == 16 && HmacKeySize(SHA256) == 32 && HmacKeySize(SHA384) == 48 && HmacKeySize(SHA512) == 64
  {
  }

  /** The HMAC key: the password, or the start of the 64 octets that a long-term key takes. */
  ghost predicate IsKey(c: Credentials, sha: ShaType, key: seq<u8>) {
    match c
    case ShortTerm(password) => key == password
    case LongTerm(k) =>
      && |k| == 64
      && (sha.SHA1? ==> key == k[..16]) && (sha.SHA256? ==> key == k[..32])
      && (sha.SHA384? ==> key == k[..48]) && (sha.SHA512? ==> key == k[..64])
  }

  ghost predicate IsDigestSize(sha: ShaType, size: nat) {
    && (sha.SHA1? ==> size == 20) && (sha.SHA256? ==> size == 32)
    && (sha.SHA384? ==> size == 48) && (sha.SHA512? ==> size == 64)
  }

  /** The answer on a message whose first MESSAGE-INTEGRITY is at p: 1 exactly if the digest of all bytes before it, with
      a length field that ends behind it, is its value; 0 exactly if HMAC gives another one; -1 otherwise. */
  lemma VerdictMeans(hmac: Hmac, c: Credentials, sha: ShaType, s: seq<u8>, p: nat, size: nat, key: seq<u8>)
    requires FirstOfKind(s, p, 0x0008) && IsKey(c, sha, key) && IsDigestSize(sha, size)
    ensures p + 4 <= |s| && p >= 20
    ensures var fits := s[p + 2] == 0 && s[p + 3] == size && p + 4 + size <= |s|;
            var n := (p + 4 + size - 20) % 0x1_0000;
            var mac := hmac(sha, key, s[..2] + [n / 0x100, n % 0x100] + s[4..p]);
            && (Verdict(hmac, c, sha, s) == 1 <==> fits && mac.Some? && mac.value == s[p + 4..p + 4 + size])
            && (Verdict(hmac, c, sha, s) == 0 <==> fits && mac.Some? && mac.value != s[p + 4..p + 4 + size])
            && (Verdict(hmac, c, sha, s) == -1 <==> !fits || mac.None?)
  {
    Sizes();
    FindIff(s, 0x0008);
    KeyIs(c, sha, key);
    hide Find, Offsets, IsCommand, Forward, KeyOf;
    if p + 4 + size <= |s| {
      var n := (p + 4 + size - 20) % 0x1_0000;
      assert Covered(s, p, sha) == s[..2] + [n / 0x100, n % 0x100] + s[4..p];
    }
  }

  lemma KeyIs(c: Credentials, sha: ShaType, key: seq<u8>)
    requires IsKey(c, sha, key)
    ensures KeyOf(c, sha) == key
  {
  }

  /** Without a MESSAGE-INTEGRITY there is no verdict. */
  lemma NoVerdict(hmac: Hmac, c: Credentials, sha: ShaType, s: seq<u8>)
    requires NoneOfKind(s, 0x0008)
    ensures Verdict(hmac, c, sha, s) == -1
  {
    FindIff(s, 0x0008);
    hide Find, Offsets, IsCommand, Forward;
  }

  /** A message whose digest was changed in transit, in whatever bytes, checks as 0. */
  lemma ForgedVerdict(hmac: Hmac, c: Credentials, sha: ShaType, s: seq<u8>, r: seq<u8>, attrs: seq<Attr>, mac: seq<u8>,
                      forged: seq<u8>)
    requires |forged| == ShaSize(sha) && Message(s, attrs) && |r| == |s| + 4 + |forged|
    requires Message(r, attrs + [Attr(STUN_ATTRIBUTE_MESSAGE_INTEGRITY, forged)]) && Extends(s, r)
    requires HasAttr(r, |s|, Attr(STUN_ATTRIBUTE_MESSAGE_INTEGRITY, forged))
    requires Lacks(attrs, STUN_ATTRIBUTE_MESSAGE_INTEGRITY)
    requires hmac(sha, KeyOf(c, sha), r[..|s|]) == Some(mac) && mac != forged
    ensures Verdict(hmac, c, sha, r) == 0
  {
    hide Holds, IsCommand, Find, Extends;
    FirstInside(r);
    MessageLen(s, attrs);
    MessageLen(r, attrs + [Attr(STUN_ATTRIBUTE_MESSAGE_INTEGRITY, forged)]);
    FindAppended(s, r, STUN_HEADER_LENGTH, attrs, Attr(STUN_ATTRIBUTE_MESSAGE_INTEGRITY, forged));
    OwnLength(r);
    assert Covered(r, |s|, sha) == r[..|s|];
  }
}
