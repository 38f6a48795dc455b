/** Base 64 (section 4 of RFC 4648), as the loops over octets and sextets compute it. */
module Base64 {
  import opened IoAddr
  import opened Options

  type u6 = x: int | 0 <= x < 64

  /** encoding_table. */
  function Code(v: u6): char {
    match v
    case 0 => 'A' case 1 => 'B' case 2 => 'C' case 3 => 'D' case 4 => 'E' case 5 => 'F' case 6 => 'G' case 7 => 'H'
    case 8 => 'I' case 9 => 'J' case 10 => 'K' case 11 => 'L' case 12 => 'M' case 13 => 'N' case 14 => 'O' case 15 => 'P'
    case 16 => 'Q' case 17 => 'R' case 18 => 'S' case 19 => 'T' case 20 => 'U' case 21 => 'V' case 22 => 'W' case 23 => 'X'
    case 24 => 'Y' case 25 => 'Z' case 26 => 'a' case 27 => 'b' case 28 => 'c' case 29 => 'd' case 30 => 'e' case 31 => 'f'
    case 32 => 'g' case 33 => 'h' case 34 => 'i' case 35 => 'j' case 36 => 'k' case 37 => 'l' case 38 => 'm' case 39 => 'n'
    case 40 => 'o' case 41 => 'p' case 42 => 'q' case 43 => 'r' case 44 => 's' case 45 => 't' case 46 => 'u' case 47 => 'v'
    case 48 => 'w' case 49 => 'x' case 50 => 'y' case 51 => 'z' case 52 => '0' case 53 => '1' case 54 => '2' case 55 => '3'
    case 56 => '4' case 57 => '5' case 58 => '6' case 59 => '7' case 60 => '8' case 61 => '9' case 62 => '+' case _ => '/'
  }

  /** The value of a character: the inverse of the encoding table, zero for every other character. */
  function Value(c: char): u6 {
    if 'A' <= c <= 'Z' then c as int - 65
    else if 'a' <= c <= 'z' then c as int - 97 + 26
    else if '0' <= c <= '9' then c as int - 48 + 52
    else if c == '+' then 62
    else if c == '/' then 63
    else 0
  }

  lemma ValueOfCode(v: u6)
    ensures Value(Code(v)) == v && Code(v) != '=' && Code(v) < 128 as char
  {
  }

  lemma CodeOfValue(c: char)
    ensures Value(c) != 0 ==> Code(Value(c)) == c
  {
  }

  // ---------------------------------------------------------------- encoding

  /** An octet of the data, zero behind its end. */
  function OctetOr0(d: seq<u8>, i: nat): u8 {
    if i < |d| then d[i] else 0
  }

  /** The four groups of six bits of the g-th three octets. */
  function Group(d: seq<u8>, g: nat): (s: seq<u6>)
    ensures |s| == 4
  {
    var a, b, c := OctetOr0(d, 3 * g), OctetOr0(d, 3 * g + 1), OctetOr0(d, 3 * g + 2);
    [a / 4, a % 4 * 16 + b / 16, b % 16 * 4 + c / 64, c % 64]
  }

  function Sextet(d: seq<u8>, j: nat): u6 {
    Group(d, j / 4)[j % 4]
  }

  lemma SextetsOfGroup(d: seq<u8>, g: nat)
    ensures Sextet(d, 4 * g) == Group(d, g)[0] && Sextet(d, 4 * g + 1) == Group(d, g)[1]
    ensures Sextet(d, 4 * g + 2) == Group(d, g)[2] && Sextet(d, 4 * g + 3) == Group(d, g)[3]
  {
  }

  function PadLen(n: nat): nat {
    match n % 3 case 0 => 0 case 1 => 2 case _ => 1
  }

  /** The base 64 text of some data: its sextets, and padding to a multiple of four. */
  function Encoded(d: seq<u8>): (s: string)
    ensures |s| == (|d| + 2) / 3 * 4
  {
    var n := (|d| + 2) / 3 * 4;
    seq(n, j requires 0 <= j < n => if j < n - PadLen(|d|) then Code(Sextet(d, j)) else '=')
  }

  /** base64_encode. */
  method Encode(data: seq<u8>) returns (s: string)
    ensures s == Encoded(data)
  {
    hide Code, Group, Sextet;
    var n := 4 * ((|data| + 2) / 3);
    var enc := new char[n];
    var i, j := 0, 0;
    ghost var g := 0;
    while i < |data|
      invariant i == (if 3 * g < |data| then 3 * g else |data|) && j == 4 * g <= n
      invariant i == |data| ==> j == n
      invariant forall k :: 0 <= k < j ==> enc[k] == Code(Sextet(data, k))
    {
      var a, b, c := 0, 0, 0;
      a := data[i];
      i := i + 1;
      if i < |data| {
        b := data[i];
        i := i + 1;
      }
      if i < |data| {
        c := data[i];
        i := i + 1;
      }
      var t := EncodeTriple(a, b, c);
      GroupIs(data, g, a, b, c);
      SextetsOfGroup(data, g);
      enc[j], enc[j + 1], enc[j + 2], enc[j + 3] := Code(t[0]), Code(t[1]), Code(t[2]), Code(t[3]);
      j := j + 4;
      g := g + 1;
    }
    PadEnd(data, enc, n);
    return enc[..];
  }

  lemma GroupIs(d: seq<u8>, g: nat, a: u8, b: u8, c: u8)
    requires a == OctetOr0(d, 3 * g) && b == OctetOr0(d, 3 * g + 1) && c == OctetOr0(d, 3 * g + 2)
    ensures Group(d, g) == [a / 4, a % 4 * 16 + b / 16, b % 16 * 4 + c / 64, c % 64]
  {
  }

  /** The loop that overwrites the last characters by padding. */
  method PadEnd(data: seq<u8>, enc: array<char>, n: nat)
    requires enc.Length == n == 4 * ((|data| + 2) / 3)
    requires forall k :: 0 <= k < n ==> enc[k] == Code(Sextet(data, k))
    modifies enc
    ensures enc[..] == Encoded(data)
  {
    hide Code, Sextet;
    var i := 0;
    while i < PadLen(|data|)
      invariant i <= PadLen(|data|) <= n
      invariant forall k :: 0 <= k < n - i ==> enc[k] == Code(Sextet(data, k))
      invariant forall k :: n - i <= k < n ==> enc[k] == '='
    {
      enc[n - 1 - i] := '=';
      i := i + 1;
    }
  }

  /** Cutting 24 bits into sextets. */
  method EncodeTriple(a: u8, b: u8, c: u8) returns (s: seq<u6>)
    ensures s == [a / 4, a % 4 * 16 + b / 16, b % 16 * 4 + c / 64, c % 64]
  {
    var triple: int := (a as int) * 0x1_0000 + (b as int) * 0x100 + c;
    Sextets(triple, a / 4, a % 4 * 16 + b / 16, b % 16 * 4 + c / 64, c % 64);
    return [triple / 0x4_0000 % 64, triple / 0x1000 % 64, triple / 0x40 % 64, triple % 64];
  }

  lemma Sextets(x: int, s0: int, s1: int, s2: int, s3: int)
    requires 0 <= s0 < 64 && 0 <= s1 < 64 && 0 <= s2 < 64 && 0 <= s3 < 64
    requires x == 0x4_0000 * s0 + 0x1000 * s1 + 0x40 * s2 + s3
    ensures x / 0x4_0000 % 64 == s0 && x / 0x1000 % 64 == s1 && x / 0x40 % 64 == s2 && x % 64 == s3
  {
    assert x / 0x40 == 0x1000 * s0 + 0x40 * s1 + s2;
    assert x / 0x1000 == 0x40 * s0 + s1;
    assert x / 0x4_0000 == s0;
  }

  // ---------------------------------------------------------------- decoding

  /** The three octets that the g-th four characters stand for. */
  function Triplet(s: string, g: nat): (t: seq<u8>)
    requires 4 * g + 4 <= |s|
    ensures |t| == 3
  {
    var p, q, r, u := Value(s[4 * g]), Value(s[4 * g + 1]), Value(s[4 * g + 2]), Value(s[4 * g + 3]);
    [p * 4 + q / 16, q % 16 * 16 + r / 4, r % 4 * 64 + u]
  }

  function Octet(s: string, k: nat): u8
    requires 4 * (k / 3) + 4 <= |s|
  {
    Triplet(s, k / 3)[k % 3]
  }

  lemma OctetsOfTriplet(s: string, g: nat)
    requires 4 * g + 4 <= |s|
    ensures 3 * g / 3 == (3 * g + 1) / 3 == (3 * g + 2) / 3 == g
    ensures Octet(s, 3 * g) == Triplet(s, g)[0]
    ensures Octet(s, 3 * g + 1) == Triplet(s, g)[1] && Octet(s, 3 * g + 2) == Triplet(s, g)[2]
  {
    hide Triplet;
    assert 3 * g % 3 == 0 && (3 * g + 1) % 3 == 1 && (3 * g + 2) % 3 == 2;
  }

  function DecodedLen(s: string): int
    requires |s| >= 4
  {
    |s| / 4 * 3 - (if s[|s| - 1] == '=' then 1 else 0) - (if s[|s| - 2] == '=' then 1 else 0)
  }

  /** The data a text stands for; none when its length is not a multiple of four. */
  function Decoded(s: string): Option<seq<u8>>
    requires |s| > 0
  {
    if |s| % 4 != 0 then None
    else Some(seq(DecodedLen(s), k requires 0 <= k < DecodedLen(s) => Octet(s, k)))
  }

  /** build_base64_decoding_table. */
  method BuildDecodingTable() returns (table: array<u6>)
    ensures fresh(table) && table.Length == 256
    ensures forall c: char :: c < 128 as char ==> table[c as int] == Value(c)
  {
    hide Code, Value;
    table := new u6[256](_ => 0);
    var i := 0;
    while i < 64
      invariant i <= 64
      invariant forall v: u6 :: v < i ==> Code(v) < 128 as char && table[Code(v) as int] == v
      invariant forall k :: 0 <= k < 256 && table[k] != 0 ==> k < 128 && Value(k as char) == table[k]
    {
      ValueOfCode(i);
      forall v: u6 | v < i
        ensures Code(v) != Code(i)
      {
        ValueOfCode(v);
      }
      table[Code(i) as int] := i;
      i := i + 1;
    }
    forall c: char | c < 128 as char
      ensures table[c as int] == Value(c)
    {
      CodeOfValue(c);
    }
  }

  /** base64_decode. The characters index the table as C's plain char does, so a text of a
      right length must be ASCII; its last two are read before anything else, so it must not be empty. */
  method Decode(s: string, table: array<u6>) returns (data: Option<seq<u8>>)
    requires |s| > 0 && (|s| % 4 == 0 ==> forall i :: 0 <= i < |s| ==> s[i] < 128 as char)
    requires table.Length == 256 && forall c: char :: c < 128 as char ==> table[c as int] == Value(c)
    ensures data == Decoded(s)
  {
    hide Value, Triplet, Octet;
    if |s| % 4 != 0 {
      return None;
    }
    var n := |s| / 4 * 3;
    if s[|s| - 1] == '=' {
      n := n - 1;
    }
    if s[|s| - 2] == '=' {
      n := n - 1;
    }
    var out := new u8[n];
    var i, j := 0, 0;
    ghost var g := 0;
    while i < |s|
      invariant i == 4 * g <= |s| && j == (if 3 * g <= n then 3 * g else n)
      invariant forall k :: 0 <= k < j ==> out[k] == Octet(s, k)
    {
      var a := if s[i] == '=' then 0 else table[s[i] as int];
      var b := if s[i + 1] == '=' then 0 else table[s[i + 1] as int];
      var c := if s[i + 2] == '=' then 0 else table[s[i + 2] as int];
      var d := if s[i + 3] == '=' then 0 else table[s[i + 3] as int];
      var t := DecodeQuad(a, b, c, d);
      TripletIs(s, g, a, b, c, d);
      OctetsOfTriplet(s, g);
      i := i + 4;
      j := StoreOctets(out, j, t);
      g := g + 1;
    }
    assert j == n == DecodedLen(s);
    assert out[..] == Decoded(s).value;
    return Some(out[..]);
  }

  /** The three stores, as far as there is room. */
  method StoreOctets(out: array<u8>, at: nat, t: seq<u8>) returns (j: nat)
    requires at <= out.Length && |t| == 3
    modifies out
    ensures j == if at + 3 <= out.Length then at + 3 else out.Length
    ensures forall k :: 0 <= k < at ==> out[k] == old(out[k])
    ensures forall k :: at <= k < j ==> out[k] == t[k - at]
  {
    j := at;
    if j < out.Length {
      out[j] := t[0];
      j := j + 1;
    }
    if j < out.Length {
      out[j] := t[1];
      j := j + 1;
    }
    if j < out.Length {
      out[j] := t[2];
      j := j + 1;
    }
  }

  lemma TripletIs(s: string, g: nat, a: u6, b: u6, c: u6, d: u6)
    requires 4 * g + 4 <= |s|
    requires a == (if s[4 * g] == '=' then 0 else Value(s[4 * g]))
    requires b == (if s[4 * g + 1] == '=' then 0 else Value(s[4 * g + 1]))
    requires c == (if s[4 * g + 2] == '=' then 0 else Value(s[4 * g + 2]))
    requires d == (if s[4 * g + 3] == '=' then 0 else Value(s[4 * g + 3]))
    ensures Triplet(s, g) == [a * 4 + b / 16, b % 16 * 16 + c / 4, c % 4 * 64 + d]
  {
  }

  /** Cutting 24 bits into octets. */
  method DecodeQuad(a: u6, b: u6, c: u6, d: u6) returns (t: seq<u8>)
    ensures t == [a * 4 + b / 16, b % 16 * 16 + c / 4, c % 4 * 64 + d]
  {
    var triple: int := (a as int) * 0x4_0000 + (b as int) * 0x1000 + (c as int) * 0x40 + d;
    Octets(triple, a * 4 + b / 16, b % 16 * 16 + c / 4, c % 4 * 64 + d);
    return [triple / 0x1_0000 % 0x100, triple / 0x100 % 0x100, triple % 0x100];
  }

  lemma Octets(x: int, t0: int, t1: int, t2: int)
    requires 0 <= t0 < 0x100 && 0 <= t1 < 0x100 && 0 <= t2 < 0x100
    requires x == 0x1_0000 * t0 + 0x100 * t1 + t2
    ensures x / 0x1_0000 % 0x100 == t0 && x / 0x100 % 0x100 == t1 && x % 0x100 == t2
  {
    assert x / 0x100 == 0x100 * t0 + t1;
    assert x / 0x1_0000 == t0;
  }

  // ---------------------------------------------------------------- round trip

  /** Decoding undoes encoding for every data that is not empty. */
  lemma RoundTrip(d: seq<u8>)
    requires |d| > 0
    ensures Decoded(Encoded(d)) == Some(d)
    ensures forall i :: 0 <= i < |Encoded(d)| ==> Encoded(d)[i] < 128 as char
  {
    hide Encoded, Value, Triplet;
    var s := Encoded(d);
    EncodedChars(d);
    PaddingCounts(d);
    forall k | 0 <= k < |d|
      ensures 4 * (k / 3) + 4 <= |s| && Octet(s, k) == d[k]
    {
      TripletBack(d, k / 3, k % 3);
    }
    assert Decoded(s).value == d;
  }

  lemma EncodedChars(d: seq<u8>)
    ensures var s := Encoded(d);
            && |s| == (|d| + 2) / 3 * 4
            && (forall i :: 0 <= i < |s| ==> s[i] < 128 as char && (s[i] == '=' <==> i >= |s| - PadLen(|d|)))
            && (forall i :: 0 <= i < |s| - PadLen(|d|) ==> Value(s[i]) == Sextet(d, i))
  {
    hide Code, Value, Sextet;
    var s := Encoded(d);
    forall i | 0 <= i < |s|
      ensures s[i] < 128 as char && (s[i] == '=' <==> i >= |s| - PadLen(|d|))
      ensures i < |s| - PadLen(|d|) ==> Value(s[i]) == Sextet(d, i)
    {
      ValueOfCode(Sextet(d, i));
    }
  }

  lemma PaddingCounts(d: seq<u8>)
    requires |d| > 0
    ensures |Encoded(d)| >= 4 && |Encoded(d)| % 4 == 0 && DecodedLen(Encoded(d)) == |d|
  {
    hide Encoded, Value, Sextet;
    EncodedChars(d);
    Thirds(|d|);
  }

  lemma Thirds(n: nat)
    requires n > 0
    ensures (n + 2) / 3 * 4 >= 4 && (n + 2) / 3 * 4 % 4 == 0
    ensures (n + 2) / 3 * 4 / 4 * 3 - PadLen(n) == n
  {
  }

  /** The octets of a group come back; only those are asked for that the data has. */
  lemma TripletBack(d: seq<u8>, g: nat, r: nat)
    requires r < 3 && 3 * g + r < |d|
    ensures 4 * g + 4 <= |Encoded(d)| && Triplet(Encoded(d), g)[r] == d[3 * g + r]
  {
    hide Encoded, Value, Sextet, Group;
    var s := Encoded(d);
    EncodedChars(d);
    SextetsOfGroup(d, g);
    var a, b, c := OctetOr0(d, 3 * g), OctetOr0(d, 3 * g + 1), OctetOr0(d, 3 * g + 2);
    GroupIs(d, g, a, b, c);
    OctetsBack(a, b, c);
  }

  lemma OctetsBack(a: u8, b: u8, c: u8)
    ensures a / 4 * 4 + (a % 4 * 16 + b / 16) / 16 == a
    ensures (a % 4 * 16 + b / 16) % 16 * 16 + (b % 16 * 4 + c / 64) / 4 == b
    ensures (b % 16 * 4 + c / 64) % 4 * 64 + c % 64 == c
  {
  }

  // ---------------------------------------------------------------- known texts

  /** The alphabet of RFC 4648. */
  lemma Alphabet(v: u6)
    ensures v < 26 ==> Code(v) as int == 65 + v
    ensures 26 <= v < 52 ==> Code(v) as int == 97 + (v - 26)
    ensures 52 <= v < 62 ==> Code(v) as int == 48 + (v - 52)
    ensures v == 62 ==> Code(v) == '+'
    ensures v == 63 ==> Code(v) == '/'
  {
  }

  /** The test vectors of section 10 of RFC 4648 for "f", "fo" and "foo". */
  lemma Vectors()
    ensures Encoded([102]) == "Zg==" && Encoded([102, 111]) == "Zm8=" && Encoded([102, 111, 111]) == "Zm9v"
  {
    hide Code, Group;
    Letters();
    GroupIs([102], 0, 102, 0, 0);
    SextetsOfGroup([102], 0);
    GroupIs([102, 111], 0, 102, 111, 0);
    SextetsOfGroup([102, 111], 0);
    GroupIs([102, 111, 111], 0, 102, 111, 111);
    SextetsOfGroup([102, 111, 111], 0);
    hide Sextet;
  }

  lemma Letters()
    ensures Code(25) == 'Z' && Code(32) == 'g' && Code(38) == 'm' && Code(60) == '8' && Code(61) == '9' && Code(47) == 'v'
  {
  }
}
