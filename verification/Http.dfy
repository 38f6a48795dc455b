/** The test for an HTTP request that the framing of a stream makes before it looks for ChannelData. */
module Http {
  import opened IoAddr

  const VERSION: seq<u8> := [0x20, 0x48, 0x54, 0x54, 0x50, 0x2F]     // " HTTP/"
  const BLANK_LINE: seq<u8> := [0x0D, 0x0A, 0x0D, 0x0A]
  const CONTENT_LENGTH: seq<u8> :=
    [0x63, 0x6F, 0x6E, 0x74, 0x65, 0x6E, 0x74, 0x2D, 0x6C, 0x65, 0x6E, 0x67, 0x74, 0x68, 0x3A, 0x20]
  const FULL_VERBS: seq<seq<u8>> :=
    [[0x47, 0x45, 0x54, 0x20], [0x50, 0x4F, 0x53, 0x54, 0x20], [0x44, 0x45, 0x4C, 0x45, 0x54, 0x45, 0x20], [0x50, 0x55, 0x54, 0x20]]

  function ToLower(b: u8): u8 {
    if 0x41 <= b <= 0x5A then b + 0x20 else b
  }

  /** sheadof. */
  predicate StartsWith(s: seq<u8>, head: seq<u8>, ignoreCase: bool) {
    && |head| <= |s|
    && forall i :: 0 <= i < |head| ==> head[i] == s[i] || (ignoreCase && ToLower(head[i]) == ToLower(s[i]))
  }

  /** Where a text is found first; the length of the bytes if it is not. */
  function Find(s: seq<u8>, needle: seq<u8>, ignoreCase: bool): (i: nat)
    ensures i <= |s|
    ensures i < |s| ==> StartsWith(s[i..], needle, ignoreCase)
    ensures forall j :: 0 <= j < i ==> !StartsWith(s[j..], needle, ignoreCase)
  {
    if s == [] || StartsWith(s, needle, ignoreCase) then 0
    else
      var i := 1 + Find(s[1..], needle, ignoreCase);
      FindLater(s, needle, ignoreCase, i);
      i
  }

  lemma FindLater(s: seq<u8>, needle: seq<u8>, ignoreCase: bool, i: nat)
    requires s != [] && !StartsWith(s, needle, ignoreCase) && 0 < i <= |s|
    requires forall j :: 0 <= j < i - 1 ==> !StartsWith(s[1..][j..], needle, ignoreCase)
    ensures forall j :: 0 <= j < i ==> !StartsWith(s[j..], needle, ignoreCase)
    ensures s[1..][i - 1..] == s[i..]
  {
    forall j | 0 <= j < i
      ensures !StartsWith(s[j..], needle, ignoreCase)
    {
      if j > 0 {
        assert s[1..][j - 1..] == s[j..];
      } else {
        assert s[0..] == s;
      }
    }
  }

  /** findstr. */
  method FindStr(s: seq<u8>, needle: seq<u8>, ignoreCase: bool) returns (i: nat)
    requires needle != []
    ensures i == Find(s, needle, ignoreCase)
  {
    if |needle| > |s| {
      return |s|;
    }
    i := 0;
    while i < |s| - |needle| + 1 && !StartsWith(s[i..], needle, ignoreCase)
      invariant i <= |s| - |needle| + 1
      invariant forall j :: 0 <= j < i ==> !StartsWith(s[j..], needle, ignoreCase)
    {
      i := i + 1;
    }
    if i == |s| - |needle| + 1 {
      i := |s|;
    }
  }

  lemma FitsAt(s: seq<u8>, i: nat, text: seq<u8>)
    requires i <= |s| && StartsWith(s[i..], text, true)
    ensures i + |text| <= |s|
  {
  }

  predicate HasVerb(s: seq<u8>) {
    exists i :: 0 <= i < |FULL_VERBS| && StartsWith(s, FULL_VERBS[i], false)
  }

  /** The length of the head of a request: verb, version, and everything up to the first empty line behind it; zero
      if there is none. */
  function HeadLen(s: seq<u8>): (n: nat)
    ensures n == 0 || 14 <= n <= |s|
  {
    if |s| < 12 || !HasVerb(s) then 0
    else
      var version := 4 + Find(s[4..], VERSION, false);
      if version >= |s| || version + 10 > |s| then 0
      else
        var blank := version + 6 + Find(s[version + 6..], BLANK_LINE, false);
        if blank >= |s| then 0 else blank + 4
  }

  /** The length of the body as the source reads it off the head; readLength is strtoul. */
  function BodyLen(readLength: seq<u8> -> nat, s: seq<u8>, head: nat): nat
    requires 14 <= head <= |s|
  {
    var header := Find(s[..head - 4], CONTENT_LENGTH, true);
    var length := if header < head - 4 then readLength(s[header + 16..]) else 0;
    Capped(length)
  }

  const BODY_LIMIT := 0x0FFF_FFFF

  function Capped(length: nat): nat {
    if 0 < length < BODY_LIMIT then length else 0
  }

  /** is_http_inline: the length of an HTTP request, or zero. */
  function IsHttp(readLength: seq<u8> -> nat, s: seq<u8>): nat {
    if HeadLen(s) == 0 then 0 else HeadLen(s) + BodyLen(readLength, s, HeadLen(s))
  }

  /** The loops of is_http_inline. */
  method IsHttpInline(readLength: seq<u8> -> nat, s: seq<u8>) returns (length: int)
    ensures length == IsHttp(readLength, s)
  {
    hide StartsWith, HasVerb, Find;
    if |s| >= 12 && HasVerb(s) {
      var version := FindStr(s[4..], VERSION, false);
      if version < |s| - 4 {
        var diff := 4 + version + 6;
        if diff + 4 <= |s| {
          var blank := FindStr(s[diff..], BLANK_LINE, false);
          if blank < |s| - diff {
            length := diff + blank + 4;
            var header := FindStr(s[..diff + blank], CONTENT_LENGTH, true);
            if header < diff + blank {
              FitsAt(s[..diff + blank], header, CONTENT_LENGTH);
              var content := readLength(s[header + 16..]);
              if content > 0 && content < 0x0FFF_FFFF {
                length := length + content;
              }
            }
            return length;
          }
        }
      }
    }
    return 0;
  }

  /** One of the four verbs, then " HTTP/" somewhere, then an empty line. */
  ghost predicate IsRequest(s: seq<u8>) {
    HasVerb(s) && exists p: nat, q: nat :: 4 <= p && p + 6 <= q && At(s, p, VERSION) && At(s, q, BLANK_LINE)
  }

  /** Exactly that is taken for an HTTP request. */
  lemma HttpIff(readLength: seq<u8> -> nat, s: seq<u8>)
    ensures IsHttp(readLength, s) > 0 <==> IsRequest(s)
  {
    hide HeadLen, BodyLen, HasVerb, At;
    if HeadLen(s) > 0 {
      var _ := HeadAt(s);
    }
    if p: nat, q: nat :| HasVerb(s) && 4 <= p && p + 6 <= q && At(s, p, VERSION) && At(s, q, BLANK_LINE) {
      HeadEnds(s, p, q);
    }
  }

  /** The head ends with its empty line, which has a version before it. */
  lemma HeadAt(s: seq<u8>) returns (p: nat)
    requires HeadLen(s) > 0
    ensures HasVerb(s) && 4 <= p && p + 6 <= HeadLen(s) - 4 && At(s, p, VERSION) && At(s, HeadLen(s) - 4, BLANK_LINE)
  {
    hide StartsWith, HasVerb, At;
    p := 4 + Find(s[4..], VERSION, false);
    StartsAt(s, 4, p, VERSION);
    StartsAt(s, p + 6, HeadLen(s) - 4, BLANK_LINE);
  }

  /** It ends no later than with any empty line that has a version before it. */
  lemma HeadEnds(s: seq<u8>, p: nat, q: nat)
    requires HasVerb(s) && 4 <= p && p + 6 <= q && At(s, p, VERSION) && At(s, q, BLANK_LINE)
    ensures 0 < HeadLen(s) <= q + 4
  {
    hide StartsWith, HasVerb, At;
    Inside(s, q, BLANK_LINE);
    Inside(s, p, VERSION);
    StartsAt(s, 4, p, VERSION);
    FoundBy(s[4..], VERSION, p - 4);
    var first := 4 + Find(s[4..], VERSION, false);
    StartsAt(s, first + 6, q, BLANK_LINE);
    FoundBy(s[first + 6..], BLANK_LINE, q - first - 6);
  }

  ghost predicate At(s: seq<u8>, i: nat, text: seq<u8>) {
    i + |text| <= |s| && s[i..i + |text|] == text
  }

  lemma Inside(s: seq<u8>, i: nat, text: seq<u8>)
    requires At(s, i, text)
    ensures i + |text| <= |s|
  {
  }

  lemma FoundBy(s: seq<u8>, text: seq<u8>, i: nat)
    requires i < |s| && StartsWith(s[i..], text, false)
    ensures Find(s, text, false) <= i
  {
    hide StartsWith;
  }

  lemma StartsAt(s: seq<u8>, from: nat, i: nat, text: seq<u8>)
    requires from <= i <= |s|
    ensures StartsWith(s[from..][i - from..], text, false) <==> At(s, i, text)
  {
    var tail := s[i..];
    assert s[from..][i - from..] == tail;
    if At(s, i, text) {
      assert tail[..|text|] == text;
    }
    if StartsWith(tail, text, false) {
      assert s[i..i + |text|] == text;
    }
  }

  /** The shortest request: verb, version and empty line, one right behind the other. */
  lemma ShortRequest(readLength: seq<u8> -> nat, s: seq<u8>)
    requires |s| >= 14 && s[..4] == FULL_VERBS[0] && s[4..10] == VERSION && s[10..14] == BLANK_LINE
    ensures IsHttp(readLength, s) == 14
  {
    assert StartsWith(s, FULL_VERBS[0], false) by {
      assert forall i :: 0 <= i < 4 ==> s[i] == s[..4][i];
    }
    hide StartsWith;
    StartsAt(s, 4, 4, VERSION);
    FoundBy(s[4..], VERSION, 0);
    StartsAt(s, 10, 10, BLANK_LINE);
    FoundBy(s[10..], BLANK_LINE, 0);
    NoRoom(s[..10], CONTENT_LENGTH);
  }

  lemma NoRoom(s: seq<u8>, text: seq<u8>)
    requires |s| < |text|
    ensures Find(s, text, true) == |s|
  {
  }

  // ---------------------------------------------------------------- with more bytes behind

  /** What is found stays found where it is. */
  lemma FindExtends(s: seq<u8>, rest: seq<u8>, text: seq<u8>)
    requires Find(s, text, false) < |s|
    ensures Find(s + rest, text, false) == Find(s, text, false)
  {
    var i, r := Find(s, text, false), s + rest;
    forall j | 0 <= j <= i
      ensures StartsWith(r[j..], text, false) <==> StartsWith(s[j..], text, false)
    {
      assert r[j..] == s[j..] + rest;
      StartsExtends(s[j..], rest, text);
    }
    hide StartsWith;
    FoundBy(r, text, i);
  }

  lemma StartsExtends(s: seq<u8>, rest: seq<u8>, text: seq<u8>)
    requires |text| <= |s|
    ensures StartsWith(s + rest, text, false) <==> StartsWith(s, text, false)
  {
  }

  lemma VerbExtends(s: seq<u8>, rest: seq<u8>)
    requires HasVerb(s)
    ensures HasVerb(s + rest)
  {
    var i :| 0 <= i < |FULL_VERBS| && StartsWith(s, FULL_VERBS[i], false);
    assert StartsWith(s + rest, FULL_VERBS[i], false);
  }

  lemma HeadExtends(s: seq<u8>, rest: seq<u8>)
    requires HeadLen(s) > 0
    ensures HeadLen(s + rest) == HeadLen(s)
  {
    hide StartsWith, HasVerb, Find;
    var r := s + rest;
    VerbExtends(s, rest);
    var version := 4 + Find(s[4..], VERSION, false);
    assert r[4..] == s[4..] + rest;
    FindExtends(s[4..], rest, VERSION);
    assert r[version + 6..] == s[version + 6..] + rest;
    FindExtends(s[version + 6..], rest, BLANK_LINE);
  }

  // How strtoul reads a number: white space, a sign, digits; the value is exact once something else follows.

  datatype Scan = Space | Signed(neg: bool) | Digits(neg: bool, n: nat) | Ended(neg: bool, n: nat)

  const ULONG_MAX := 0xFFFF_FFFF_FFFF_FFFF

  predicate IsSpace(b: u8) {
    b == 0x20 || 9 <= b <= 13
  }

  predicate IsDigit(b: u8) {
    0x30 <= b <= 0x39
  }

  function ScanByte(st: Scan, b: u8): Scan {
    match st
    case Space =>
      if IsSpace(b) then Space
      else if b == 0x2D then Signed(true)
      else if b == 0x2B then Signed(false)
      else if IsDigit(b) then Digits(false, b - 0x30)
      else Ended(false, 0)
    case Signed(neg) => if IsDigit(b) then Digits(neg, b - 0x30) else Ended(neg, 0)
    case Digits(neg, n) => if IsDigit(b) then Digits(neg, 10 * n + (b - 0x30)) else Ended(neg, n)
    case Ended(_, _) => st
  }

  function ScanNumber(st: Scan, s: seq<u8>): Scan {
    if s == [] then st else ScanByte(ScanNumber(st, s[..|s| - 1]), s[|s| - 1])
  }

  function ScanValue(st: Scan): nat {
    match st
    case Ended(neg, n) => if n > ULONG_MAX then ULONG_MAX else if neg && n > 0 then ULONG_MAX + 1 - n else n
    case _ => 0
  }

  /** strtoul on 64 bits; of a number that the end of the bytes cuts off nothing is said. */
  ghost predicate IsStrtoul(readLength: seq<u8> -> nat) {
    forall s :: ScanNumber(Space, s).Ended? ==> readLength(s) == ScanValue(ScanNumber(Space, s))
  }

  lemma {:induction false} ScanConcat(st: Scan, a: seq<u8>, b: seq<u8>)
    ensures ScanNumber(st, a + b) == ScanNumber(ScanNumber(st, a), b)
  {
    if b == [] {
      assert a + b == a;
    } else {
      assert (a + b)[..|a + b| - 1] == a + b[..|b| - 1];
      ScanConcat(st, a, b[..|b| - 1]);
    }
  }

  lemma {:induction false} EndedStays(st: Scan, s: seq<u8>)
    requires st.Ended?
    ensures ScanNumber(st, s) == st
  {
    if s != [] {
      EndedStays(st, s[..|s| - 1]);
    }
  }

  /** A zero ends any number. */
  function Stop(st: Scan): Scan {
    ScanByte(st, 0)
  }

  lemma ScanStop(st: Scan, s: seq<u8>)
    requires s != [] && s[0] == 0
    ensures ScanNumber(st, s) == Stop(st) && Stop(st).Ended?
  {
    assert s == [0] + s[1..] && [0 as u8][..0] == [];
    ScanConcat(st, [0], s[1..]);
    EndedStays(Stop(st), s[1..]);
  }

  /** The Content-Length number of a request, if it has one, ends inside the bytes. */
  ghost predicate NumberInside(s: seq<u8>)
    requires HeadLen(s) > 0
  {
    HasLength(s) ==> ScanNumber(Space, LengthText(s)).Ended?
  }

  ghost predicate HasLength(s: seq<u8>)
    requires HeadLen(s) > 0
  {
    Find(s[..HeadLen(s) - 4], CONTENT_LENGTH, true) < HeadLen(s) - 4
  }

  ghost function LengthText(s: seq<u8>): (t: seq<u8>)
    requires HeadLen(s) > 0 && HasLength(s)
    ensures |t| >= 4 && t[|t| - 1] == s[|s| - 1]
  {
    FitsAt(s[..HeadLen(s) - 4], Find(s[..HeadLen(s) - 4], CONTENT_LENGTH, true), CONTENT_LENGTH);
    s[Find(s[..HeadLen(s) - 4], CONTENT_LENGTH, true) + 16..]
  }

  /** The length of a request with more bytes behind it. */
  lemma HttpExtends(readLength: seq<u8> -> nat, s: seq<u8>, rest: seq<u8>)
    requires HeadLen(s) > 0
    ensures IsHttp(readLength, s + rest)
            == HeadLen(s) + if HasLength(s) then Capped(readLength(LengthText(s) + rest)) else 0
  {
    hide HeadLen, Find;
    HeadExtends(s, rest);
    var r, h := s + rest, HeadLen(s);
    assert r[..h - 4] == s[..h - 4];
    var header := Find(s[..h - 4], CONTENT_LENGTH, true);
    if header < h - 4 {
      FitsAt(s[..h - 4], header, CONTENT_LENGTH);
      assert r[header + 16..] == LengthText(s) + rest;
    }
  }

  function Zeros(n: nat): seq<u8> {
    seq(n, _ => 0)
  }

  /** A request whose number ends inside has one length, whatever follows. */
  lemma LengthFixed(readLength: seq<u8> -> nat, s: seq<u8>, rest: seq<u8>)
    requires IsStrtoul(readLength) && HeadLen(s) > 0 && NumberInside(s)
    ensures 0 < IsHttp(readLength, s + rest) == IsHttp(readLength, s) < HeadLen(s) + BODY_LIMIT
  {
    hide HeadLen, IsHttp, ScanNumber, HasLength;
    HttpExtends(readLength, s, rest);
    HttpExtends(readLength, s, []);
    assert s + [] == s;
    if HasLength(s) {
      var t := LengthText(s);
      assert t + [] == t;
      ScanConcat(Space, t, rest);
      EndedStays(ScanNumber(Space, t), rest);
    }
  }

  /** Otherwise what follows decides: the number may go on with a digit or not. */
  lemma LengthOpen(readLength: seq<u8> -> nat, s: seq<u8>, tail: seq<u8>)
    requires IsStrtoul(readLength) && HeadLen(s) > 0 && !NumberInside(s) && tail != [] && tail[0] == 0
    ensures var x, y := IsHttp(readLength, s + tail), IsHttp(readLength, s + ([0x31] + tail));
            !(x == |s| == y) && 0 < x < HeadLen(s) + BODY_LIMIT && 0 < y < HeadLen(s) + BODY_LIMIT
  {
    hide HeadLen, IsHttp, HasLength, IsStrtoul;
    var t, more := LengthText(s), [0x31 as u8] + tail;
    HttpExtends(readLength, s, tail);
    HttpExtends(readLength, s, more);
    var st := ScanNumber(Space, t);
    ScanConcat(Space, t, tail);
    ScanStop(st, tail);
    ScanConcat(Space, t, more);
    ScanConcat(st, [0x31], tail);
    assert ScanNumber(st, [0x31]) == ScanByte(st, 0x31) by { assert [0x31 as u8][..0] == []; }
    ScanStop(ScanByte(st, 0x31), tail);
    Reads(readLength, t + tail);
    Reads(readLength, t + more);
    AnotherDigit(st);
    if HeadLen(s) == |s| {
      HeadLast(s);
      AfterSpace(t);
    }
  }

  lemma Reads(readLength: seq<u8> -> nat, s: seq<u8>)
    requires IsStrtoul(readLength) && ScanNumber(Space, s).Ended?
    ensures readLength(s) == ScanValue(ScanNumber(Space, s))
  {
  }

  lemma HeadLast(s: seq<u8>)
    requires HeadLen(s) == |s| > 0
    ensures s[|s| - 1] == 0x0A
  {
    hide HeadLen;
    var _ := HeadAt(s);
    assert s[|s| - 1] == s[|s| - 4..|s| - 4 + 4][3];
  }

  lemma AfterSpace(t: seq<u8>)
    requires t != [] && IsSpace(t[|t| - 1]) && !ScanNumber(Space, t).Ended?
    ensures ScanNumber(Space, t) == Space
  {
  }

  /** One digit more never leaves the length of a body as it was, except for no body. */
  lemma AnotherDigit(st: Scan)
    requires !st.Ended?
    ensures var x, y := Capped(ScanValue(Stop(st))), Capped(ScanValue(Stop(ScanByte(st, 0x31))));
            (x == y ==> x == 0) && (st.Space? ==> x == 0 && y == 1)
  {
  }

  function Swallowing(): seq<u8> {
    VERSION + BLANK_LINE + Zeros(BODY_LIMIT)
  }

  /** Bytes that start with a verb and hold no whole head become a longer request when one is completed behind them. */
  lemma Swallowed(readLength: seq<u8> -> nat, s: seq<u8>)
    requires HasVerb(s) && HeadLen(s) == 0 && |s| >= 4
    ensures |s| < IsHttp(readLength, s + Swallowing()) <= |s + Swallowing()|
  {
    hide HeadLen, HasVerb, StartsWith, Find;
    var r := s + Swallowing();
    VerbExtends(s, Swallowing());
    assert At(r, |s|, VERSION) && At(r, |s| + 6, BLANK_LINE);
    HeadEnds(r, |s|, |s| + 6);
    var p := HeadAt(r);
    if HeadLen(r) <= |s| {
      assert At(s, p, VERSION) by { assert s[p..p + 6] == r[p..p + 6]; }
      assert At(s, HeadLen(r) - 4, BLANK_LINE) by { assert s[HeadLen(r) - 4..HeadLen(r)] == r[HeadLen(r) - 4..HeadLen(r)]; }
      HeadEnds(s, p, HeadLen(r) - 4);
    }
  }

  /** Without a carriage return there is no head; without a c there is no Content-Length. */
  lemma NoHead(s: seq<u8>)
    requires forall i :: 0 <= i < |s| ==> s[i] != 0x0D
    ensures HeadLen(s) == 0
  {
    hide HeadLen;
    if HeadLen(s) > 0 {
      var p := HeadAt(s);
      FirstByte(s, HeadLen(s) - 4, BLANK_LINE);
    }
  }

  lemma FirstByte(s: seq<u8>, i: nat, text: seq<u8>)
    requires i < |s| && text != [] && (At(s, i, text) || StartsWith(s[i..], text, true))
    ensures ToLower(s[i]) == ToLower(text[0]) && (At(s, i, text) ==> s[i] == text[0])
  {
    if At(s, i, text) {
      assert s[i] == s[i..i + |text|][0];
    }
  }

  lemma HeadBehind(s: seq<u8>, q: nat)
    requires HasVerb(s) && At(s, 4, VERSION) && 10 <= q && At(s, q, BLANK_LINE)
    requires forall i :: 0 <= i < q ==> s[i] != 0x0D && ToLower(s[i]) != 0x63
    ensures HeadLen(s) == q + 4 && Find(s[..q], CONTENT_LENGTH, true) == q
  {
    hide HeadLen, HasVerb;
    HeadEnds(s, 4, q);
    var p := HeadAt(s);
    FirstByte(s, HeadLen(s) - 4, BLANK_LINE);
    var i := Find(s[..q], CONTENT_LENGTH, true);
    if i < q {
      FirstByte(s[..q], i, CONTENT_LENGTH);
    }
  }

  // "GET / HTTP/1.1", "Content-Length: ", "5" and the empty line.
  const GET_LINE: seq<u8> := [0x47, 0x45, 0x54, 0x20, 0x2F, 0x20, 0x48, 0x54, 0x54, 0x50, 0x2F, 0x31, 0x2E, 0x31, 0x0D, 0x0A]
  const LENGTH_NAME: seq<u8> := [0x43, 0x6F, 0x6E, 0x74, 0x65, 0x6E, 0x74, 0x2D, 0x4C, 0x65, 0x6E, 0x67, 0x74, 0x68, 0x3A, 0x20]
  const SAMPLE: seq<u8> := GET_LINE + LENGTH_NAME + [0x35, 0x0D, 0x0A, 0x0D, 0x0A]

  /** The four verbs, each with the space behind it. */
  lemma Verbs(s: seq<u8>)
    ensures HasVerb(s) <==>
      || (|s| >= 4 && s[0] == 'G' as int && s[1] == 'E' as int && s[2] == 'T' as int && s[3] == ' ' as int)
      || (|s| >= 5 && s[0] == 'P' as int && s[1] == 'O' as int && s[2] == 'S' as int && s[3] == 'T' as int && s[4] == ' ' as int)
      || (|s| >= 7 && s[0] == 'D' as int && s[1] == 'E' as int && s[2] == 'L' as int && s[3] == 'E' as int && s[4] == 'T' as int
          && s[5] == 'E' as int && s[6] == ' ' as int)
      || (|s| >= 4 && s[0] == 'P' as int && s[1] == 'U' as int && s[2] == 'T' as int && s[3] == ' ' as int)
  {
    assert HasVerb(s) <==> || StartsWith(s, FULL_VERBS[0], false) || StartsWith(s, FULL_VERBS[1], false)
                           || StartsWith(s, FULL_VERBS[2], false) || StartsWith(s, FULL_VERBS[3], false);
  }

  /** A body of up to 268435454 octets counts. */
  lemma BodyLimit(length: nat)
    ensures Capped(length) == if length <= 268435454 then length else 0
  {
  }

  /** A request as clients send it: 37 octets of head and 5 of body. */
  lemma SampleRequest(readLength: seq<u8> -> nat)
    requires IsStrtoul(readLength)
    ensures IsHttp(readLength, SAMPLE) == 42
  {
    SampleHead();
    SampleHeader();
    SampleNumber();
    hide HeadLen, Find, ScanNumber;
  }

  lemma SampleHead()
    ensures HeadLen(SAMPLE) == 37
  {
    SampleParts();
    SampleReturns();
    hide HeadLen, HasVerb, At;
    HeadEnds(SAMPLE, 5, 33);
    var p := HeadAt(SAMPLE);
    AtOctets(SAMPLE, HeadLen(SAMPLE) - 4);
  }

  lemma SampleParts()
    ensures HasVerb(SAMPLE) && At(SAMPLE, 5, VERSION) && At(SAMPLE, 33, BLANK_LINE)
  {
    assert StartsWith(SAMPLE, FULL_VERBS[0], false);
    assert SAMPLE[5..11] == GET_LINE[5..11] == VERSION;
    assert SAMPLE[33..37] == BLANK_LINE;
  }

  /** Two octets behind a carriage return there is another one at the end only. */
  lemma SampleReturns()
    ensures forall i :: 0 <= i < 33 && SAMPLE[i] == 0x0D ==> SAMPLE[i + 2] != 0x0D
  {
    assert forall i :: 0 <= i < 16 ==> SAMPLE[i] == GET_LINE[i];
    assert forall i :: 0 <= i < 14 ==> GET_LINE[i] != 0x0D;
    assert forall i :: 16 <= i < 32 ==> SAMPLE[i] == LENGTH_NAME[i - 16];
    assert forall i :: 0 <= i < 16 ==> LENGTH_NAME[i] != 0x0D;
  }

  lemma AtOctets(s: seq<u8>, i: nat)
    requires At(s, i, BLANK_LINE)
    ensures i + 4 <= |s| && s[i] == 0x0D && s[i + 2] == 0x0D
  {
    var t := s[i..i + |BLANK_LINE|];
    assert t[0] == s[i] && t[2] == s[i + 2];
  }

  lemma SampleHeader()
    ensures Find(SAMPLE[..33], CONTENT_LENGTH, true) == 16
  {
    var s := SAMPLE[..33];
    LengthName();
    SampleFirst();
    var tail := s[16..];
    assert forall i :: 0 <= i < 16 ==> tail[i] == LENGTH_NAME[i];
    assert StartsWith(tail, CONTENT_LENGTH, true);
    hide StartsWith, ToLower;
    var i := Find(s, CONTENT_LENGTH, true);
    assert i <= 16;
    FirstByte(s, i, CONTENT_LENGTH);
  }

  lemma LengthName()
    ensures forall i :: 0 <= i < 16 ==> ToLower(CONTENT_LENGTH[i]) == ToLower(LENGTH_NAME[i])
  {
  }

  lemma SampleFirst()
    ensures forall i :: 0 <= i < 16 ==> ToLower(SAMPLE[..33][i]) != ToLower(CONTENT_LENGTH[0])
  {
    assert forall i :: 0 <= i < 16 ==> SAMPLE[..33][i] == GET_LINE[i];
    assert forall i :: 0 <= i < 16 ==> ToLower(GET_LINE[i]) != 0x63;
  }

  lemma SampleNumber()
    ensures ScanNumber(Space, SAMPLE[32..]) == Ended(false, 5)
  {
    var t := SAMPLE[32..];
    assert t == [0x35] + t[1..] && t[1..] == [0x0D] + t[2..] && |t| == 5;
    ScanConcat(Space, [0x35], t[1..]);
    ScanConcat(Digits(false, 5), [0x0D], t[2..]);
    assert [0x35 as u8][..0] == [] && [0x0D as u8][..0] == [];
    assert ScanNumber(Space, [0x35]) == Digits(false, 5);
    assert ScanNumber(Digits(false, 5), [0x0D]) == Ended(false, 5);
    EndedStays(Ended(false, 5), t[2..]);
  }
}
