/** Octets in network order, as the message codec reads and writes them. */
module Bytes {
  import opened IoAddr

  type u32 = x: int | 0 <= x < 0x1_0000_0000

  function Be16(v: u16): (r: seq<u8>)
    ensures |r| == 2
  {
    [v / 0x100, v % 0x100]
  }

  function U16(s: seq<u8>, i: nat): u16
    requires i + 2 <= |s|
  {
    0x100 * (s[i] as int) + s[i + 1]
  }

  function Be32(v: u32): (r: seq<u8>)
    ensures |r| == 4
  {
    [v / 0x100_0000, v / 0x1_0000 % 0x100, v / 0x100 % 0x100, v % 0x100]
  }

  /** The next multiple of four. */
  function RoundUp(n: nat): (r: nat)
    ensures r % 4 == 0 && n <= r < n + 4
  {
    if n % 4 == 0 then n else n + 4 - n % 4
  }

  /** Exclusive or of the n lowest bits. */
  function XorBits(a: nat, b: nat, n: nat): (r: nat) {
    if n == 0 then 0 else (a + b) % 2 + 2 * XorBits(a / 2, b / 2, n - 1)
  }

  lemma {:induction false} XorBound(a: nat, b: nat, n: nat, bound: nat)
    requires Pow2(n) == bound
    ensures XorBits(a, b, n) < bound
  {
    if n > 0 {
      XorBound(a / 2, b / 2, n - 1, Pow2(n - 1));
    }
  }

  function Pow2(n: nat): (r: nat)
    ensures r > 0
  {
    if n == 0 then 1 else 2 * Pow2(n - 1)
  }

  /** Exclusive or undoes itself. */
  lemma {:induction false} XorBitsTwice(a: nat, m: nat, n: nat)
    requires a < Pow2(n)
    ensures XorBits(XorBits(a, m, n), m, n) == a
  {
    if n > 0 {
      var r := XorBits(a / 2, m / 2, n - 1);
      LowBit(a, m, r);
      XorBitsTwice(a / 2, m / 2, n - 1);
    }
  }

  lemma LowBit(a: nat, m: nat, r: nat)
    ensures ((a + m) % 2 + 2 * r) / 2 == r && ((a + m) % 2 + 2 * r + m) % 2 == a % 2
  {
    var x, y := a % 2, m % 2;
    assert a == 2 * (a / 2) + x && m == 2 * (m / 2) + y;
    var p := if x == y then 0 else 1;
    assert (a + m) % 2 == p;
  }

  function Xor8(a: u8, b: u8): u8 {
    XorBound(a, b, 8, 0x100);
    XorBits(a, b, 8)
  }

  lemma Xor8Twice(a: u8, m: u8)
    ensures Xor8(Xor8(a, m), m) == a
  {
    XorBitsTwice(a, m, 8);
  }

  /** A word is exclusive-or-ed octet by octet. */
  function XorSeq(a: seq<u8>, m: seq<u8>): (r: seq<u8>)
    requires |a| <= |m|
    ensures |r| == |a|
  {
    seq(|a|, i requires 0 <= i < |a| => Xor8(a[i], m[i]))
  }

  lemma XorSeqTwice(a: seq<u8>, m: seq<u8>)
    requires |a| <= |m|
    ensures |XorSeq(a, m)| == |a| && XorSeq(XorSeq(a, m), m) == a
  {
    hide Xor8;
    forall i | 0 <= i < |a|
      ensures Xor8(Xor8(a[i], m[i]), m[i]) == a[i]
    {
      Xor8Twice(a[i], m[i]);
    }
  }

  /** A buffer with src written over it from a position on. */
  function Splice(b: seq<u8>, at: nat, src: seq<u8>): (r: seq<u8>)
    requires at + |src| <= |b|
    ensures |r| == |b|
    ensures forall i :: 0 <= i < |b| ==> r[i] == if at <= i < at + |src| then src[i - at] else b[i]
  {
    b[..at] + src + b[at + |src|..]
  }

  /** ns_bcopy into a buffer. */
  method Copy(buf: array<u8>, at: nat, src: seq<u8>)
    requires at + |src| <= buf.Length
    modifies buf
    ensures buf[..] == Splice(old(buf[..]), at, src)
  {
    var i := 0;
    while i < |src|
      invariant i <= |src|
      invariant buf[..] == Splice(old(buf[..]), at, src[..i])
    {
      buf[at + i] := src[i];
      i := i + 1;
    }
    assert src[..i] == src;
  }
}
