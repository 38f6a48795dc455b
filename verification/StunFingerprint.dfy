/** FINGERPRINT (section 15.5 of RFC 5389) and the full check of a received message. */
module StunFingerprint {
  import opened IoAddr
  import opened Bytes
  import opened Options
  import opened StunMsg
  import opened StunAttrs
  import opened StunIntegrity
  import opened StunTypes
  import Crc32

  const FINGERPRINT_XOR: seq<u8> := [0x53, 0x54, 0x55, 0x4e]

  function Octets(s: seq<u8>): seq<bv8> {
    seq(|s|, i requires 0 <= i < |s| => s[i] as bv8)
  }

  function Word(v: bv32): (r: seq<u8>)
    ensures |r| == 4
  {
    Be32(v as int)
  }

  /** The value of a FINGERPRINT behind some bytes: their CRC-32 with a fixed pattern. */
  function Fingerprint(s: seq<u8>): (r: seq<u8>)
    ensures |r| == 4
  {
    XorSeq(Word(Crc32.Crc(Octets(s))), FINGERPRINT_XOR)
  }

  method ComputeFingerprint(s: seq<u8>) returns (r: seq<u8>)
    ensures r == Fingerprint(s)
  {
    var crc := Crc32.Compute(Octets(s));
    r := XorSeq(Word(crc), FINGERPRINT_XOR);
  }

  /** stun_attr_add_fingerprint_str: a failing append is not noticed, and then the last four bytes of the message
      are overwritten. */
  method AddFingerprint(buf: array<u8>, len: nat, ghost attrs: seq<Attr>) returns (newLen: nat)
    requires buf.Length >= MAX_STUN_MESSAGE_SIZE && len <= buf.Length && Message(buf[..len], attrs)
    modifies buf
    ensures newLen <= buf.Length
    ensures len + 8 < MAX_STUN_MESSAGE_SIZE ==>
      && newLen == len + 8
      && Message(buf[..newLen], attrs + [Attr(STUN_ATTRIBUTE_FINGERPRINT, Fingerprint(buf[..len]))])
      && Extends(old(buf[..len]), buf[..newLen])
      && HasAttr(buf[..newLen], len, Attr(STUN_ATTRIBUTE_FINGERPRINT, Fingerprint(buf[..len])))
    ensures len + 8 >= MAX_STUN_MESSAGE_SIZE ==>
      newLen == len && buf[..] == Splice(old(buf[..]), len - 4, Fingerprint(old(buf[..len - 8])))
  {
    hide Message, Fingerprint, Splice, HasAttr, Extends;
    ghost var s := buf[..len];
    MessageLen(s, attrs);
    var ret;
    ret, newLen := AddToMessage(buf, len, Attr(STUN_ATTRIBUTE_FINGERPRINT, [0, 0, 0, 0]), attrs);
    ghost var q := buf[..newLen];
    var crc := ComputeFingerprint(buf[..newLen - 8]);
    assert q[..newLen - 8] == buf[..newLen - 8];
    Copy(buf, newLen - 4, crc);
    if ret == 0 {
      FillLast(s, q, attrs, STUN_ATTRIBUTE_FINGERPRINT, [0, 0, 0, 0], crc);
      assert buf[..newLen] == Splice(q, newLen - 4, crc);
      assert buf[..newLen][..len] == buf[..len];
    }
  }

  /** A fingerprint of the right length that is found can be read, if need be behind the end of the message. */
  ghost predicate Readable(b: seq<u8>, len: nat) {
    && len <= |b|
    && (!IsCommand(b[..len]) ||
          (FirstInside(b[..len]);
           FindIsFirst(b[..len], First(b[..len]), STUN_ATTRIBUTE_FINGERPRINT);
           match Find(b[..len], First(b[..len]), STUN_ATTRIBUTE_FINGERPRINT)
           case None => true
           case Some(p) => U16(b, p + 2) == 4 ==> p + 8 <= |b|))
  }

  /** The verdict of the full check on the bytes from the message on: the fingerprint's four bytes are read even
      when the message ends before them. */
  ghost predicate Checked(b: seq<u8>, len: nat, mustCheckFingerprint: bool)
    requires Readable(b, len)
  {
    && IsCommand(b[..len])
    && (FirstInside(b[..len]);
        FindIsFirst(b[..len], First(b[..len]), STUN_ATTRIBUTE_FINGERPRINT);
        match Find(b[..len], First(b[..len]), STUN_ATTRIBUTE_FINGERPRINT)
        case None => MethodOf(U16(b, 0)) == STUN_METHOD_BINDING || !mustCheckFingerprint
        case Some(p) => U16(b, p + 2) == 4 && b[p + 4..p + 8] == Fingerprint(b[..p]))
  }

  /** stun_is_command_message_full_check_str; present is the flag the caller hands in to be updated. */
  method FullCheck(buf: array<u8>, len: nat, mustCheckFingerprint: bool, present: bool)
    returns (ok: bool, nowPresent: bool)
    requires Readable(buf[..], len)
    ensures ok <==> Checked(buf[..], len, mustCheckFingerprint)
    // the flag is set by a fingerprint that matches, cleared by its absence, and kept otherwise
    ensures IsCommand(buf[..len]) && NoneOfKind(buf[..len], 0x8028) ==> !nowPresent
    ensures IsCommand(buf[..len]) && !NoneOfKind(buf[..len], 0x8028) ==> nowPresent == (ok || present)
    ensures !IsCommand(buf[..len]) ==> nowPresent == present && !ok
  {
    hide Find, Fingerprint, Offsets, MethodOf;
    ghost var b := buf[..];
    assert b[..len] == buf[..len];
    nowPresent := present;
    hide NoneOfKind, FirstOfKind;
    if !IsCommand(buf[..len]) {
      return false, nowPresent;
    }
    var sar := FirstByType(buf[..len], STUN_ATTRIBUTE_FINGERPRINT);
    FindIsFirst(b[..len], First(b[..len]), STUN_ATTRIBUTE_FINGERPRINT);
    FindIff(b[..len], STUN_ATTRIBUTE_FINGERPRINT);
    match sar {
      case None =>
        nowPresent := false;
        if MethodOf(U16(buf[..], 0)) == STUN_METHOD_BINDING {
          return true, nowPresent;
        }
        return !mustCheckFingerprint, nowPresent;
      case Some(p) =>
        if U16(buf[..], p + 2) != 4 {
          return false, nowPresent;
        }
        var crc := ComputeFingerprint(buf[..p]);
        assert b[..p] == buf[..p] && b[p + 4..p + 8] == buf[p + 4..p + 8];
        ok := buf[p + 4..p + 8] == crc;
        if ok {
          nowPresent := true;
        }
    }
  }

  /** A FINGERPRINT added last, with none before, makes the full check pass whatever the caller demands. */
  lemma FingerprintChecks(s: seq<u8>, b: seq<u8>, attrs: seq<Attr>, must: bool)
    requires Message(s, attrs) && Lacks(attrs, STUN_ATTRIBUTE_FINGERPRINT) && |s| + 8 <= |b|
    requires IsCommand(b[..|s| + 8]) && Extends(s, b[..|s| + 8])
    requires HasAttr(b[..|s| + 8], |s|, Attr(STUN_ATTRIBUTE_FINGERPRINT, Fingerprint(b[..|s|])))
    ensures Readable(b, |s| + 8) && Checked(b, |s| + 8, must)
  {
    hide Find, Fingerprint, Offsets, MethodOf, Holds, IsCommand, Extends;
    var r := b[..|s| + 8];
    FirstInside(r);
    FindAppended(s, r, STUN_HEADER_LENGTH, attrs, Attr(STUN_ATTRIBUTE_FINGERPRINT, Fingerprint(b[..|s|])));
    MessageLen(s, attrs);
    FindIsFirst(r, First(r), STUN_ATTRIBUTE_FINGERPRINT);
    assert b[|s| + 4..|s| + 8] == r[|s| + 4..|s| + 8];
  }

  /** Signed, grown by any further attributes and fingerprinted: both checks accept the result. */
  method SignAndSeal(hmac: Hmac, c: Credentials, sha: ShaType, buf: array<u8>, len: nat, room: seq<u8>,
                     ghost attrs: seq<Attr>, more: seq<Attr>, mustCheckFingerprint: bool)
    returns (grownLen: nat, newLen: nat, integrity: int, checked: bool)
    requires IsHmac(hmac) && (forall data :: hmac(sha, KeyOf(c, sha), data).Some?)
    requires buf.Length >= MAX_STUN_MESSAGE_SIZE && len + 4 + ShaSize(sha) < MAX_STUN_MESSAGE_SIZE
    requires |room| == ShaSize(sha) && Message(buf[..len], attrs)
    requires Lacks(attrs, STUN_ATTRIBUTE_MESSAGE_INTEGRITY)
    requires Lacks(attrs, STUN_ATTRIBUTE_FINGERPRINT) && Lacks(more, STUN_ATTRIBUTE_FINGERPRINT)
    modifies buf
    ensures grownLen + 8 < MAX_STUN_MESSAGE_SIZE ==> newLen == grownLen + 8 && integrity == 1 && checked
  {
    hide Message, Fingerprint, HasAttr, Extends, Intact, Checked, Lacks, ShaSize, KeyOf, Fitting;
    var ret;
    ghost var mac;
    ret, newLen, mac := AddIntegrity(hmac, c, sha, buf, len, room, attrs);
    ghost var s1 := buf[..newLen];
    ghost var attrs1 := attrs + [Attr(STUN_ATTRIBUTE_MESSAGE_INTEGRITY, mac)];
    grownLen := AddAll(buf, newLen, more, attrs1);
    ghost var s2 := buf[..grownLen];
    ghost var attrs2 := attrs1 + Fitting(newLen, more);
    newLen := AddFingerprint(buf, grownLen, attrs2);
    integrity, checked := -1, false;
    if newLen == grownLen + 8 && newLen < MAX_STUN_MESSAGE_SIZE {
      ghost var s3 := buf[..newLen];
      ExtendsAll(s1, s2, s3);
      StillIntact(hmac, c, sha, s1, attrs1, s3, attrs2 + [Attr(STUN_ATTRIBUTE_FINGERPRINT, Fingerprint(buf[..grownLen]))]);
      integrity := CheckIntegrity(hmac, c, sha, buf, newLen);
      LacksFitting(attrs, mac, |s1|, more);
      FingerprintChecks(s2, buf[..], attrs2, mustCheckFingerprint);
      var present;
      checked, present := FullCheck(buf, newLen, mustCheckFingerprint, false);
    }
  }

  lemma LacksFitting(attrs: seq<Attr>, mac: seq<u8>, n: nat, more: seq<Attr>)
    requires Lacks(attrs, STUN_ATTRIBUTE_FINGERPRINT) && Lacks(more, STUN_ATTRIBUTE_FINGERPRINT)
    ensures Lacks(attrs + [Attr(STUN_ATTRIBUTE_MESSAGE_INTEGRITY, mac)] + Fitting(n, more), STUN_ATTRIBUTE_FINGERPRINT)
  {
    FittingSome(n, more, STUN_ATTRIBUTE_FINGERPRINT);
  }

  lemma {:induction false} FittingSome(n: nat, more: seq<Attr>, kind: u16)
    requires Lacks(more, kind)
    ensures Lacks(Fitting(n, more), kind)
    decreases |more|
  {
    if more != [] {
      FittingSome(NewLen(n, more[0].value), more[1..], kind);
      FittingSome(n, more[1..], kind);
    }
  }

  lemma StillIntact(hmac: Hmac, c: Credentials, sha: ShaType, s: seq<u8>, a: seq<Attr>, r: seq<u8>, b: seq<Attr>)
    requires Message(s, a) && Message(r, b) && Extends(s, r) && Intact(hmac, c, sha, s)
    ensures IsCommand(r) && Verdict(hmac, c, sha, r) == 1
  {
    hide Holds, IsCommand, Extends, Verdict;
    VerdictExtends(hmac, c, sha, s, r);
  }
}
