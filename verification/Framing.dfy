/** Cutting a byte stream into STUN messages and padded ChannelData messages (section 11.5 of RFC 5766). */
module Framing {
  import opened IoAddr
  import opened Bytes
  import opened Options
  import opened StunMsg
  import opened Http

  // ---------------------------------------------------------------- ChannelData messages

  /** stun_init_channel_message_str: the header goes into the buffer, the data is put behind it by the caller. */
  method InitChannel(chn: u16, buf: array<u8>, length: int, doPadding: bool) returns (ret: int, len: nat)
    requires buf.Length >= MAX_STUN_MESSAGE_SIZE
    modifies buf
    ensures ret == 0 <==> 0 <= length <= MAX_STUN_MESSAGE_SIZE - 4
    ensures ret == 0 ==>
      && len == 4 + (if doPadding then RoundUp(length) else length)
      && buf[..] == Splice(old(buf[..]), 0, Be16(chn) + Be16(length))
    ensures ret != 0 ==> ret == -1 && buf[..] == old(buf[..])
  {
    len := 0;
    if length < 0 || MAX_STUN_MESSAGE_SIZE < 4 + length {
      return -1, len;
    }
    ghost var was := buf[..];
    Copy(buf, 0, Be16(chn));
    Copy(buf, 2, Be16(length));
    assert buf[..] == Splice(was, 0, Be16(chn) + Be16(length));
    var rlen := length;
    if doPadding && rlen % 4 != 0 {
      rlen := (rlen / 4 + 1) * 4 % 0x1_0000;
    }
    return 0, 4 + rlen;
  }

  /** A ChannelData message as it was built: header, data, and padding of any content. */
  predicate IsChannelFrame(f: seq<u8>, chn: u16, data: seq<u8>, padded: bool) {
    && ValidChannel(chn) && 4 + |data| <= MAX_STUN_MESSAGE_SIZE
    && |f| == 4 + (if padded then RoundUp(|data|) else |data|)
    && U16(f, 0) == chn && U16(f, 2) == |data|
    && f[4..4 + |data|] == data
  }

  /** The header that is written and the caller's data behind it make such a message. */
  lemma BuiltChannel(was: seq<u8>, chn: u16, data: seq<u8>, padded: bool)
    requires ValidChannel(chn) && 4 + |data| <= MAX_STUN_MESSAGE_SIZE && 4 + RoundUp(|data|) <= |was|
    requires was[4..4 + |data|] == data
    ensures var b := Splice(was, 0, Be16(chn) + Be16(|data|));
            IsChannelFrame(b[..4 + (if padded then RoundUp(|data|) else |data|)], chn, data, padded)
  {
    hide Splice;
    var b := Splice(was, 0, Be16(chn) + Be16(|data|));
    assert b[0] == chn / 0x100 && b[1] == chn % 0x100 && b[2] == |data| / 0x100 && b[3] == |data| % 0x100;
    assert b[4..4 + |data|] == was[4..4 + |data|];
    var f := b[..4 + (if padded then RoundUp(|data|) else |data|)];
    assert f[4..4 + |data|] == b[4..4 + |data|];
  }

  /** What stun_is_channel_message_str says: the channel number and the length without padding. */
  function ChannelMessage(s: seq<u8>, mandatoryPadding: bool): Option<(u16, nat)> {
    if |s| < 4 || !ValidChannel(U16(s, 0)) then None
    else
      var blen := if |s| > 0xFFFF then 0xFFFF else |s|;
      var actual := blen - 4;
      var header := U16(s, 2);
      if header > actual then None
      else if header != actual && actual % 4 != 0
              && (mandatoryPadding || actual < header || header == 0 || actual - header > 3) then None
      else Some((U16(s, 0), header + 4))
  }

  /** The channel number and the data of a built ChannelData message are recovered, with and without padding,
      whether or not padding is demanded. */
  lemma ChannelRoundTrip(f: seq<u8>, chn: u16, data: seq<u8>, padded: bool, mandatoryPadding: bool)
    requires IsChannelFrame(f, chn, data, padded)
    ensures ChannelMessage(f, mandatoryPadding) == Some((chn, 4 + |data|)) && f[4..4 + |data|] == data
    ensures !IsCommand(f)
  {
    assert |f| <= 0xFFFF;
    if padded {
      assert (|f| - 4) % 4 == 0;
    }
  }

  // ---------------------------------------------------------------- the length of the next message

  const VERBS: seq<seq<u8>> := [[0x47, 0x45, 0x54, 0x20], [0x50, 0x4F, 0x53, 0x54], [0x44, 0x45, 0x4C, 0x45], [0x50, 0x55, 0x54, 0x20]]

  /** The first bytes of the HTTP verbs GET, POST, DELETE and PUT. */
  predicate LooksLikeHttp(s: seq<u8>) {
    |s| >= 4 && s[..4] in VERBS
  }

  // The length of the HTTP request at the start of some bytes, or zero.
  type HttpTest = seq<u8> -> int

  ghost predicate IsHttpTest(http: HttpTest) {
    forall s :: http(s) > 0 ==> LooksLikeHttp(s)
  }

  /** stun_get_message_len_str, in the source's 16-bit arithmetic: -1 when no whole message is there. */
  function FrameLen(http: HttpTest, s: seq<u8>, padding: bool): int {
    if |s| == 0 then -1
    else if IsCommandStart(s) && (U16(s, 2) + STUN_HEADER_LENGTH) % 0x1_0000 <= |s| then
      (U16(s, 2) + STUN_HEADER_LENGTH) % 0x1_0000
    else if 0 < http(s) <= |s| then http(s)
    else if |s| >= 4 && ValidChannel(U16(s, 0)) && PaddedLen(U16(s, 2), padding) <= |s| then
      PaddedLen(U16(s, 2), padding)
    else -1
  }

  predicate IsCommandStart(s: seq<u8>) {
    && |s| >= STUN_HEADER_LENGTH
    && !ValidChannel(U16(s, 0))
    && s[0] < 0x40
    && s[4..8] == STUN_MAGIC_COOKIE
    && U16(s, 2) % 4 == 0
  }

  function PaddedLen(n: u16, padding: bool): (r: nat) {
    var bret := (4 + n) % 0x1_0000;
    if padding && bret % 4 != 0 then (bret / 4 + 1) * 4 % 0x1_0000 else bret
  }

  // ---------------------------------------------------------------- framing

  /** A frame of a stream: a STUN message of the size this library builds, or a padded ChannelData message that
      cannot be taken for the start of an HTTP request. */
  ghost predicate IsFrame(f: seq<u8>) {
    || (IsCommand(f) && |f| <= MAX_STUN_MESSAGE_SIZE)
    || ((exists chn, data :: IsChannelFrame(f, chn, data, true)) && !LooksLikeHttp(f))
  }

  /** With anything behind it, a frame is cut at exactly its length. */
  lemma FrameFound(http: HttpTest, f: seq<u8>, rest: seq<u8>)
    requires IsHttpTest(http) && IsFrame(f)
    ensures FrameLen(http, f + rest, true) == |f| > 0
  {
    hide IsCommand, IsChannelFrame, FrameLen, IsHttpTest, LooksLikeHttp;
    if IsCommand(f) && |f| <= MAX_STUN_MESSAGE_SIZE {
      CommandFound(http, f, rest);
    } else {
      var chn, data :| IsChannelFrame(f, chn, data, true);
      ChannelFound(http, f, rest, chn, data);
    }
  }

  lemma SameStart(f: seq<u8>, s: seq<u8>, n: nat)
    requires 4 <= n <= |f| && n <= |s| && s[..n] == f[..n]
    ensures s[..4] == f[..4] && U16(s, 0) == U16(f, 0) && U16(s, 2) == U16(f, 2) && s[0] == f[0]
    ensures n >= 8 ==> s[4..8] == f[4..8]
  {
    forall i | 0 <= i < n
      ensures s[i] == f[i]
    {
      assert s[i] == s[..n][i] && f[i] == f[..n][i];
    }
  }

  lemma CommandFound(http: HttpTest, f: seq<u8>, rest: seq<u8>)
    requires IsCommand(f) && |f| <= MAX_STUN_MESSAGE_SIZE
    ensures FrameLen(http, f + rest, true) == |f| > 0
  {
    var s := f + rest;
    assert s[..|f|] == f[..|f|];
    SameStart(f, s, |f|);
  }

  lemma ChannelFound(http: HttpTest, f: seq<u8>, rest: seq<u8>, chn: u16, data: seq<u8>)
    requires IsHttpTest(http) && IsChannelFrame(f, chn, data, true) && !LooksLikeHttp(f)
    ensures FrameLen(http, f + rest, true) == |f| > 0
  {
    hide IsCommandStart;
    var s := f + rest;
    assert s[..|f|] == f[..|f|];
    SameStart(f, s, |f|);
    NotCommand(s);
    PaddedExactIff(|data|);
  }

  /** The source's own test. */
  function Inline(readLength: seq<u8> -> nat): HttpTest {
    s => IsHttp(readLength, s)
  }

  /** It is such a test. */
  lemma InlineIsTest(readLength: seq<u8> -> nat)
    ensures IsHttpTest(Inline(readLength))
  {
    forall s | IsHttp(readLength, s) > 0
      ensures LooksLikeHttp(s)
    {
      var i :| 0 <= i < |FULL_VERBS| && StartsWith(s, FULL_VERBS[i], false);
      VerbLooks(s, i);
    }
  }

  lemma VerbLooks(s: seq<u8>, i: nat)
    requires i < |FULL_VERBS| && StartsWith(s, FULL_VERBS[i], false)
    ensures LooksLikeHttp(s)
  {
    assert FULL_VERBS[i][..4] == VERBS[i];
    assert s[..4] == VERBS[i] by {
      assert forall k :: 0 <= k < 4 ==> s[k] == FULL_VERBS[i][k] == VERBS[i][k];
    }
  }

  /** The HTTP test comes before the ChannelData test: whatever follows it, a ChannelData message is cut at its length
      by every such test exactly when it does not start like an HTTP request. */
  lemma ChannelFramedIff(f: seq<u8>, chn: u16, data: seq<u8>)
    requires IsChannelFrame(f, chn, data, true)
    ensures (forall http: HttpTest, rest :: IsHttpTest(http) ==> FrameLen(http, f + rest, true) == |f|) <==> !LooksLikeHttp(f)
  {
    if LooksLikeHttp(f) {
      var http: HttpTest := s => if LooksLikeHttp(s) then 1 else 0;
      assert IsHttpTest(http);
      CutByTest(http, f, [], chn, data);
      assert f + [] == f;
      assert FrameLen(http, f + [], true) == 1;
    } else {
      forall http: HttpTest, rest | IsHttpTest(http)
        ensures FrameLen(http, f + rest, true) == |f|
      {
        ChannelFound(http, f, rest, chn, data);
      }
    }
  }

  /** Where a ChannelData message is cut. */
  lemma CutByTest(http: HttpTest, f: seq<u8>, rest: seq<u8>, chn: u16, data: seq<u8>)
    requires IsChannelFrame(f, chn, data, true)
    ensures FrameLen(http, f + rest, true) == if 0 < http(f + rest) <= |f + rest| then http(f + rest) else |f|
  {
    hide IsCommandStart;
    var s := f + rest;
    assert s[..|f|] == f[..|f|];
    SameStart(f, s, |f|);
    NotCommand(s);
    PaddedExactIff(|data|);
  }

  /** With the source's own test, a ChannelData message is cut at its length if and only if it does not read, together
      with all that has come in behind it, as an HTTP request that has come in whole and ends elsewhere. */
  lemma SourceFramesIff(readLength: seq<u8> -> nat, f: seq<u8>, rest: seq<u8>, chn: u16, data: seq<u8>)
    requires IsChannelFrame(f, chn, data, true)
    ensures FrameLen(Inline(readLength), f + rest, true) == |f|
            <==> !IsRequest(f + rest) || IsHttp(readLength, f + rest) == |f| || IsHttp(readLength, f + rest) > |f + rest|
  {
    HttpIff(readLength, f + rest);
    hide IsHttp, IsRequest, IsChannelFrame;
    CutByTest(Inline(readLength), f, rest, chn, data);
  }

  /** What a sender can see: whatever follows it, a ChannelData message is cut at its length if and only if it does not
      start with a verb, or is itself a request of exactly that length, whatever strtoul may still read. */
  lemma SourceAlwaysFramesIff(readLength: seq<u8> -> nat, f: seq<u8>, chn: u16, data: seq<u8>)
    requires IsChannelFrame(f, chn, data, true) && IsStrtoul(readLength)
    ensures (forall rest :: FrameLen(Inline(readLength), f + rest, true) == |f|)
            <==> !HasVerb(f) || (HeadLen(f) > 0 && NumberInside(f) && IsHttp(readLength, f) == |f|)
  {
    hide *;
    if !HasVerb(f) {
      forall rest
        ensures FrameLen(Inline(readLength), f + rest, true) == |f|
      {
        NoVerbFramed(readLength, f, rest, chn, data);
      }
    } else if HeadLen(f) == 0 {
      OpenCut(readLength, f, chn, data);
    } else if NumberInside(f) {
      forall rest
        ensures FrameLen(Inline(readLength), f + rest, true)
                == if IsHttp(readLength, f) <= |f + rest| then IsHttp(readLength, f) else |f|
      {
        ClosedCut(readLength, f, rest, chn, data);
      }
      LengthFixed(readLength, f, []);
      assert IsHttp(readLength, f) <= |f + Zeros(HeadLen(f) + BODY_LIMIT)| by { ZerosLen(f, HeadLen(f) + BODY_LIMIT); }
    } else {
      NumberCut(readLength, f, chn, data);
    }
  }

  lemma ZerosLen(f: seq<u8>, n: nat)
    ensures |f + Zeros(n)| == |f| + n
  {
  }

  lemma NoVerbFramed(readLength: seq<u8> -> nat, f: seq<u8>, rest: seq<u8>, chn: u16, data: seq<u8>)
    requires IsChannelFrame(f, chn, data, true) && !HasVerb(f)
    ensures FrameLen(Inline(readLength), f + rest, true) == |f|
  {
    hide HasVerb, IsHttp, IsChannelFrame, FrameLen;
    NoVerb(f, rest, chn, data);
    HttpIff(readLength, f + rest);
    CutByTest(Inline(readLength), f, rest, chn, data);
  }

  lemma OpenCut(readLength: seq<u8> -> nat, f: seq<u8>, chn: u16, data: seq<u8>)
    requires IsChannelFrame(f, chn, data, true) && HasVerb(f) && HeadLen(f) == 0
    ensures FrameLen(Inline(readLength), f + Swallowing(), true) != |f|
  {
    LongEnough(f, chn, data);
    hide HasVerb, HeadLen, IsHttp, IsChannelFrame, FrameLen, Swallowing;
    Swallowed(readLength, f);
    CutByTest(Inline(readLength), f, Swallowing(), chn, data);
  }

  lemma ClosedCut(readLength: seq<u8> -> nat, f: seq<u8>, rest: seq<u8>, chn: u16, data: seq<u8>)
    requires IsChannelFrame(f, chn, data, true) && IsStrtoul(readLength) && HeadLen(f) > 0 && NumberInside(f)
    ensures FrameLen(Inline(readLength), f + rest, true)
            == if IsHttp(readLength, f) <= |f + rest| then IsHttp(readLength, f) else |f|
  {
    hide HeadLen, NumberInside, IsHttp, IsChannelFrame, FrameLen, IsStrtoul;
    LengthFixed(readLength, f, rest);
    CutByTest(Inline(readLength), f, rest, chn, data);
  }

  lemma NumberCut(readLength: seq<u8> -> nat, f: seq<u8>, chn: u16, data: seq<u8>)
    requires IsChannelFrame(f, chn, data, true) && IsStrtoul(readLength) && HeadLen(f) > 0 && !NumberInside(f)
    ensures exists rest :: FrameLen(Inline(readLength), f + rest, true) != |f|
  {
    hide HeadLen, NumberInside, IsHttp, IsChannelFrame, FrameLen, IsStrtoul;
    var tail := Zeros(BODY_LIMIT);
    var more := [0x31] + tail;
    LengthOpen(readLength, f, tail);
    CutByTest(Inline(readLength), f, tail, chn, data);
    CutByTest(Inline(readLength), f, more, chn, data);
  }

  lemma LongEnough(f: seq<u8>, chn: u16, data: seq<u8>)
    requires IsChannelFrame(f, chn, data, true)
    ensures |f| >= 4
  {
  }

  lemma RequestHasVerb(s: seq<u8>)
    ensures IsRequest(s) ==> HasVerb(s)
  {
  }

  /** A verb does not reach behind the message: its third and fourth byte make a message longer than any verb. */
  lemma NoVerb(f: seq<u8>, rest: seq<u8>, chn: u16, data: seq<u8>)
    requires IsChannelFrame(f, chn, data, true)
    ensures HasVerb(f + rest) ==> HasVerb(f)
  {
    var s := f + rest;
    if i :| 0 <= i < |FULL_VERBS| && StartsWith(s, FULL_VERBS[i], false) {
      assert f[2] == s[2] == FULL_VERBS[i][2] && f[3] == s[3] == FULL_VERBS[i][3];
      assert |f| >= 8;
      StartsExtends(f, rest, FULL_VERBS[i]);
    }
  }

  /** Such a message, and what the source's own test makes of it: it ends behind 14 bytes, however many follow. */
  lemma SourceCutsShort(readLength: seq<u8> -> nat, rest: seq<u8>)
    ensures IsChannelFrame(GetFrame(), 0x4745, GetFrame()[4..], true) && |GetFrame()| == 4 + 0x5420
    ensures FrameLen(Inline(readLength), GetFrame() + rest, true) == 14
  {
    GetFrameHeader();
    GetFrameIsRequest(readLength, rest);
    var f := GetFrame();
    hide IsHttp, GetFrame, FrameLen, IsChannelFrame;
    CutByTest(Inline(readLength), f, rest, 0x4745, f[4..]);
  }

  lemma GetFrameIsRequest(readLength: seq<u8> -> nat, rest: seq<u8>)
    ensures IsHttp(readLength, GetFrame() + rest) == 14
  {
    var s := GetFrame() + rest;
    assert s[..4] == FULL_VERBS[0] && s[4..10] == VERSION && s[10..14] == BLANK_LINE;
    hide GetFrame;
    ShortRequest(readLength, s);
  }

  /** The second way: on its own the message is cut right, but the empty line that makes it a request comes in with the
      data of the next one, and then the two are taken for one. */
  lemma SourceCutsLate(readLength: seq<u8> -> nat)
    ensures var f, g := OpenFrame(), [0x40, 0, 0, 4] + BLANK_LINE;
            && IsChannelFrame(f, 0x4745, f[4..], true) && IsChannelFrame(g, 0x4000, BLANK_LINE, true)
            && FrameLen(Inline(readLength), f, true) == |f|
            && FrameLen(Inline(readLength), f + g, true) == |f + g|
  {
    OpenFrames();
    CutAlone(readLength, OpenFrame()[4..]);
    CutBoth(readLength, OpenFrame()[4..], [0x40, 0, 0, 4] + BLANK_LINE);
  }

  lemma CutAlone(readLength: seq<u8> -> nat, data: seq<u8>)
    requires IsChannelFrame(OpenFrame(), 0x4745, data, true)
    ensures FrameLen(Inline(readLength), OpenFrame(), true) == |OpenFrame()|
  {
    var f := OpenFrame();
    NoHead(f) by { OpenBytes(); }
    hide IsChannelFrame, FrameLen, HeadLen, OpenFrame;
    assert f + [] == f;
    CutByTest(Inline(readLength), f, [], 0x4745, data);
  }

  lemma CutBoth(readLength: seq<u8> -> nat, data: seq<u8>, g: seq<u8>)
    requires IsChannelFrame(OpenFrame(), 0x4745, data, true) && g == [0x40, 0, 0, 4] + BLANK_LINE
    ensures FrameLen(Inline(readLength), OpenFrame() + g, true) == |OpenFrame() + g|
  {
    OpenHead(g);
    hide IsChannelFrame, FrameLen, HeadLen, Find, OpenFrame;
    CutByTest(Inline(readLength), OpenFrame(), g, 0x4745, data);
  }

  lemma OpenFrames()
    ensures |OpenFrame()| == 4 + 0x5420 && IsChannelFrame(OpenFrame(), 0x4745, OpenFrame()[4..], true)
    ensures IsChannelFrame([0x40, 0, 0, 4] + BLANK_LINE, 0x4000, BLANK_LINE, true)
  {
  }

  lemma OpenBytes()
    ensures forall i :: 0 <= i < |OpenFrame()| ==> OpenFrame()[i] != 0x0D
  {
  }

  lemma OpenHead(g: seq<u8>)
    requires g == [0x40, 0, 0, 4] + BLANK_LINE
    ensures var s := OpenFrame() + g;
            HeadLen(s) == |s| && Find(s[..|s| - 4], CONTENT_LENGTH, true) == |s| - 4
  {
    var s := OpenFrame() + g;
    assert StartsWith(s, FULL_VERBS[0], false) && Http.At(s, 4, VERSION) && Http.At(s, |s| - 4, BLANK_LINE);
    HeadBehind(s, |s| - 4);
  }

  /** The same channel and length without an empty line. */
  function OpenFrame(): seq<u8> {
    [0x47, 0x45, 0x54, 0x20] + VERSION + seq(0x5420 - 6, _ => 0)
  }

  lemma GetFrameHeader()
    ensures |GetFrame()| == 4 + 0x5420 && IsChannelFrame(GetFrame(), 0x4745, GetFrame()[4..], true)
  {
  }

  /** The ChannelData message on channel 0x4745 with 21536 bytes of data: its header reads "GET ". */
  function GetFrame(): seq<u8> {
    [0x47, 0x45, 0x54, 0x20] + VERSION + BLANK_LINE + seq(0x5420 - 10, _ => 0)
  }

  lemma NotCommand(s: seq<u8>)
    requires |s| >= 2 && ValidChannel(U16(s, 0))
    ensures !IsCommandStart(s)
  {
  }

  lemma RoundedNoWrap(m: nat)
    requires m <= 0xFFFC
    ensures m % 0x1_0000 == m && (m % 4 != 0 ==> (m / 4 + 1) * 4 < 0x1_0000 && (m / 4 + 1) * 4 == RoundUp(m))
    ensures m >= 4 ==> RoundUp(m) == 4 + RoundUp(m - 4)
  {
  }

  /** The 16-bit length of a padded ChannelData message wraps around exactly above this data length; no message
      that the library builds is that long. */
  lemma PaddedExactIff(n: u16)
    ensures PaddedLen(n, true) == 4 + RoundUp(n) <==> n <= 0xFFF8
    ensures n > 0xFFF8 ==> PaddedLen(n, true) <= 4
  {
    if n > 0xFFF8 {
      assert n == 0xFFF9 || n == 0xFFFA || n == 0xFFFB || n == 0xFFFC || n == 0xFFFD || n == 0xFFFE || n == 0xFFFF;
    } else {
      RoundedNoWrap(4 + n);
    }
  }

  /** The first data length that does not fit: the padded message has no length at all. */
  lemma PaddedWraps()
    ensures PaddedLen(0xFFF9, true) == 0 && 4 + RoundUp(0xFFF9) == 0x1_0000
  {
  }

  /** No strict prefix of a frame is taken for a message. */
  lemma PrefixWaits(http: HttpTest, f: seq<u8>, k: nat)
    requires IsHttpTest(http) && IsFrame(f) && k < |f|
    ensures FrameLen(http, f[..k], true) == -1
  {
    hide IsCommand, IsChannelFrame, FrameLen, IsHttpTest, LooksLikeHttp;
    if IsCommand(f) && |f| <= MAX_STUN_MESSAGE_SIZE {
      CommandWaits(http, f, k);
    } else {
      var chn, data :| IsChannelFrame(f, chn, data, true);
      ChannelWaits(http, f, k, chn, data);
    }
  }

  lemma CommandWaits(http: HttpTest, f: seq<u8>, k: nat)
    requires IsHttpTest(http) && IsCommand(f) && |f| <= MAX_STUN_MESSAGE_SIZE && k < |f|
    ensures FrameLen(http, f[..k], true) == -1
  {
    var s := f[..k];
    if k >= 4 {
      SameStart(f, s, k);
      assert s[0] == s[..4][0];
    }
  }

  lemma ChannelWaits(http: HttpTest, f: seq<u8>, k: nat, chn: u16, data: seq<u8>)
    requires IsHttpTest(http) && IsChannelFrame(f, chn, data, true) && !LooksLikeHttp(f) && k < |f|
    ensures FrameLen(http, f[..k], true) == -1
  {
    hide IsCommandStart;
    var s := f[..k];
    if k >= 4 {
      SameStart(f, s, k);
      NotCommand(s);
      PaddedExactIff(|data|);
    } else {
      TooShort(s);
    }
  }

  lemma TooShort(s: seq<u8>)
    requires |s| < STUN_HEADER_LENGTH
    ensures !IsCommandStart(s)
  {
  }

  /** Cutting a stream into messages for as long as a whole one is there. */
  function Split(http: HttpTest, s: seq<u8>): (seq<seq<u8>>, seq<u8>)
    decreases |s|
  {
    var n := FrameLen(http, s, true);
    if 0 < n <= |s| then
      var (frames, rest) := Split(http, s[n..]);
      ([s[..n]] + frames, rest)
    else ([], s)
  }

  function Concat(frames: seq<seq<u8>>): seq<u8> {
    if frames == [] then [] else frames[0] + Concat(frames[1..])
  }

  /** Whatever frames were sent, and wherever the stream was cut, exactly the whole frames are recovered and the
      beginning of the next one is kept. */
  lemma {:induction false} SplitRecovers(http: HttpTest, frames: seq<seq<u8>>, next: seq<u8>, k: nat)
    requires IsHttpTest(http) && (forall i :: 0 <= i < |frames| ==> IsFrame(frames[i]))
    requires IsFrame(next) && k < |next|
    ensures Split(http, Concat(frames) + next[..k]) == (frames, next[..k])
  {
    hide IsFrame, FrameLen, IsHttpTest;
    if frames == [] {
      assert Concat(frames) + next[..k] == next[..k];
      PrefixWaits(http, next, k);
    } else {
      var f, rest := frames[0], Concat(frames[1..]) + next[..k];
      var s := Concat(frames) + next[..k];
      assert s == f + rest;
      FrameFound(http, f, rest);
      assert s[..|f|] == f && s[|f|..] == rest;
      SplitRecovers(http, frames[1..], next, k);
      assert [f] + frames[1..] == frames;
    }
  }
}
