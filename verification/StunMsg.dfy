/** STUN messages as byte buffers: building them attribute by attribute, and iterating over them. */
module StunMsg {
  import opened IoAddr
  import opened Bytes

  const STUN_HEADER_LENGTH := 20
  const MAX_STUN_MESSAGE_SIZE := 65507
  const STUN_MAGIC_COOKIE: seq<u8> := [0x21, 0x12, 0xA4, 0x42]
  const STUN_ATTRIBUTE_MESSAGE_INTEGRITY: u16 := 0x0008
  const STUN_ATTRIBUTE_FINGERPRINT: u16 := 0x8028
  const STUN_METHOD_BINDING: u16 := 0x0001

  // ---------------------------------------------------------------- messages

  predicate ValidChannel(chn: int) {
    0x4000 <= chn <= 0x7FFF
  }

  /** stun_get_command_message_len_str of the bytes received. */
  function MsgLen(s: seq<u8>): int {
    if |s| < STUN_HEADER_LENGTH then -1 else U16(s, 2) + STUN_HEADER_LENGTH
  }

  /** stun_is_command_message_str. */
  predicate IsCommand(s: seq<u8>) {
    && |s| >= STUN_HEADER_LENGTH
    && !ValidChannel(U16(s, 0))
    && s[0] < 0x40
    && s[4..8] == STUN_MAGIC_COOKIE
    && U16(s, 2) % 4 == 0
    && U16(s, 2) + STUN_HEADER_LENGTH == |s|
  }

  datatype Attr = Attr(kind: u16, value: seq<u8>)

  /** The bytes an attribute takes. */
  function Size(value: seq<u8>): (n: nat)
    ensures n % 4 == 0 && 4 + |value| <= n < 4 + |value| + 4
  {
    4 + RoundUp(|value|)
  }

  /** From a position on, a message consists of these attributes and nothing else. */
  ghost predicate Holds(s: seq<u8>, pos: nat, attrs: seq<Attr>)
    decreases |attrs|
  {
    if attrs == [] then pos == |s|
    else
      && HasAttr(s, pos, attrs[0])
      && Holds(s, pos + Size(attrs[0].value), attrs[1..])
  }

  predicate HasAttr(s: seq<u8>, pos: nat, a: Attr) {
    && pos + Size(a.value) <= |s|
    && U16(s, pos) == a.kind
    && U16(s, pos + 2) == |a.value|
    && s[pos + 4..pos + 4 + |a.value|] == a.value
  }

  /** A valid command message with exactly these attributes, in this order. */
  ghost predicate Message(s: seq<u8>, attrs: seq<Attr>) {
    IsCommand(s) && Holds(s, STUN_HEADER_LENGTH, attrs)
  }

  // ---------------------------------------------------------------- building

  /** stun_init_command_str: tid is the random transaction id. */
  method InitCommand(messageType: u16, tid: seq<u8>, buf: array<u8>) returns (len: nat)
    requires buf.Length >= MAX_STUN_MESSAGE_SIZE && |tid| == 12
    modifies buf
    ensures len == STUN_HEADER_LENGTH
    ensures buf[..len] == Be16(messageType % 0x4000) + [0, 0] + STUN_MAGIC_COOKIE + tid
    ensures buf[len..] == old(buf[len..])
  {
    len := STUN_HEADER_LENGTH;
    Copy(buf, 0, Be16(messageType % 0x4000));
    Copy(buf, 2, [0, 0]);
    Copy(buf, 4, STUN_MAGIC_COOKIE);
    Copy(buf, 8, tid);
  }

  /** A fresh message is valid and has no attributes. */
  lemma InitIsMessage(messageType: u16, tid: seq<u8>)
    requires |tid| == 12
    ensures Message(Be16(messageType % 0x4000) + [0, 0] + STUN_MAGIC_COOKIE + tid, [])
  {
    var s := Be16(messageType % 0x4000) + [0, 0] + STUN_MAGIC_COOKIE + tid;
    assert s[0] == messageType % 0x4000 / 0x100;
    assert s[2] == 0 && s[3] == 0;
    assert s[4..8] == STUN_MAGIC_COOKIE;
  }

  /** A message with its header length rewritten (stun_set_command_message_len_str). */
  function SetLen(s: seq<u8>, len: nat): (r: seq<u8>)
    requires |s| >= STUN_HEADER_LENGTH && len >= STUN_HEADER_LENGTH
    ensures |r| == |s|
  {
    s[..2] + Be16((len - STUN_HEADER_LENGTH) % 0x1_0000) + s[4..]
  }

  /** The length of a message of n bytes after one attribute more. */
  function NewLen(n: nat, value: seq<u8>): (r: nat)
    ensures r % 4 == 0 && n + 4 + |value| <= r < n + 4 + |value| + 4
    ensures n % 4 == 0 ==> r == n + Size(value)
  {
    RoundUp(n + 4 + |value|)
  }

  /** A message with one attribute more; the padding is whatever the buffer held there. */
  function Appended(s: seq<u8>, kind: u16, value: seq<u8>, padding: seq<u8>): seq<u8>
    requires |s| >= STUN_HEADER_LENGTH && |value| < 0x1_0000
  {
    SetLen(s, NewLen(|s|, value)) + Be16(kind) + Be16(|value|) + value + padding
  }

  /** stun_attr_add_str: appends behind the length that the header states. */
  method AttrAdd(buf: array<u8>, len: nat, kind: u16, value: seq<u8>) returns (ret: int, newLen: nat)
    requires buf.Length >= MAX_STUN_MESSAGE_SIZE && STUN_HEADER_LENGTH <= len <= buf.Length
    modifies buf
    ensures NewLen(U16(old(buf[..]), 2) + STUN_HEADER_LENGTH, value) < MAX_STUN_MESSAGE_SIZE <==> ret == 0
    ensures ret != 0 ==> ret == -1 && newLen == len && buf[..] == old(buf[..])
    ensures ret == 0 ==>
              var clen := U16(old(buf[..]), 2) + STUN_HEADER_LENGTH;
              && newLen == NewLen(clen, value)
              && buf[..newLen] ==
                 Appended(old(buf[..clen]), kind, value, old(buf[clen + 4 + |value|..newLen]))
              && buf[newLen..] == old(buf[newLen..])
  {
    hide Splice, Appended, Be16, Size;
    ghost var was := buf[..];
    var clen := MsgLen(buf[..len]);
    assert clen == U16(was, 2) + STUN_HEADER_LENGTH;
    var size := clen + 4 + |value|;
    if size % 4 != 0 {
      size := size + (4 - size % 4);
    }
    if size >= MAX_STUN_MESSAGE_SIZE {
      return -1, len;
    }
    AppendSplices(was, clen, kind, value);
    assert size == NewLen(clen, value);
    hide NewLen;
    Copy(buf, 2, Be16((size - STUN_HEADER_LENGTH) % 0x1_0000));
    Copy(buf, clen, Be16(kind));
    Copy(buf, clen + 2, Be16(|value|));
    Copy(buf, clen + 4, value);
    assert buf[..][..size] == buf[..size] && buf[..][size..] == buf[size..];
    return 0, size;
  }

  /** The four writes of an append, in terms of the message. */
  lemma AppendSplices(b: seq<u8>, clen: nat, kind: u16, value: seq<u8>)
    requires STUN_HEADER_LENGTH <= clen && NewLen(clen, value) <= |b| && |value| < 0x1_0000
    ensures var n := NewLen(clen, value);
            var b1 := Splice(b, 2, Be16((n - STUN_HEADER_LENGTH) % 0x1_0000));
            var b4 := Splice(Splice(Splice(b1, clen, Be16(kind)), clen + 2, Be16(|value|)), clen + 4, value);
            && b4[..n] == Appended(b[..clen], kind, value, b[clen + 4 + |value|..n])
            && b4[n..] == b[n..]
  {
    hide Splice, NewLen, Be16;
    var n := NewLen(clen, value);
    var b1 := Splice(b, 2, Be16((n - STUN_HEADER_LENGTH) % 0x1_0000));
    assert b1[..clen] == SetLen(b[..clen], n);
    var b2 := Splice(b1, clen, Be16(kind));
    assert b2[..clen + 2] == b1[..clen] + Be16(kind);
    var b3 := Splice(b2, clen + 2, Be16(|value|));
    assert b3[..clen + 4] == b2[..clen + 2] + Be16(|value|);
    var b4 := Splice(b3, clen + 4, value);
    assert b4[..clen + 4 + |value|] == b3[..clen + 4] + value;
    assert b4[clen + 4 + |value|..n] == b[clen + 4 + |value|..n];
    assert b4[..n] == b4[..clen + 4 + |value|] + b4[clen + 4 + |value|..n];
  }

  /** Appending adds exactly that attribute behind the others and keeps the message valid. */
  lemma AppendIsMessage(s: seq<u8>, attrs: seq<Attr>, kind: u16, value: seq<u8>, padding: seq<u8>)
    requires Message(s, attrs) && NewLen(|s|, value) < MAX_STUN_MESSAGE_SIZE
    requires |s| + 4 + |value| + |padding| == NewLen(|s|, value)
    ensures Message(Appended(s, kind, value, padding), attrs + [Attr(kind, value)])
    ensures Extends(s, Appended(s, kind, value, padding))
  {
    hide Appended, Holds, HasAttr, IsCommand;
    MessageLen(s, attrs);
    var r := Appended(s, kind, value, padding);
    AppendedBytes(s, kind, value, padding);
    var a := Attr(kind, value);
    IsAttr(r, |s|, a);
    HoldsLast(r, |s|, a);
    HoldsExtend(s, r, STUN_HEADER_LENGTH, attrs, a);
    SameHeader(s, r);
  }

  lemma IsAttr(s: seq<u8>, pos: nat, a: Attr)
    requires pos + Size(a.value) <= |s| && U16(s, pos) == a.kind && U16(s, pos + 2) == |a.value|
    requires s[pos + 4..pos + 4 + |a.value|] == a.value
    ensures HasAttr(s, pos, a)
  {
  }

  lemma HoldsLast(s: seq<u8>, pos: nat, a: Attr)
    requires HasAttr(s, pos, a) && pos + Size(a.value) == |s|
    ensures Holds(s, pos, [a])
  {
    assert Holds(s, |s|, [a][1..]);
  }

  /** A message grown at its end: the bytes of the old one are the same, except for the length field. */
  predicate Extends(s: seq<u8>, r: seq<u8>) {
    STUN_HEADER_LENGTH <= |s| <= |r| && r[..2] == s[..2] && r[4..|s|] == s[4..]
  }

  lemma ExtendsAll(s: seq<u8>, q: seq<u8>, r: seq<u8>)
    requires Extends(s, q) && Extends(q, r)
    ensures Extends(s, r)
  {
    assert r[4..|s|] == r[4..|q|][..|s| - 4];
    assert q[4..|s|] == q[4..][..|s| - 4];
  }

  lemma SameHeader(s: seq<u8>, r: seq<u8>)
    requires IsCommand(s) && Extends(s, r)
    requires |r| % 4 == 0 && U16(r, 2) == |r| - STUN_HEADER_LENGTH
    ensures IsCommand(r)
  {
    assert r[0] == r[..2][0] && r[1] == r[..2][1];
    assert s[0] == s[..2][0] && s[1] == s[..2][1];
    assert r[4..8] == r[4..|s|][..4] && s[4..8] == s[4..][..4];
  }

  lemma AppendedBytes(s: seq<u8>, kind: u16, value: seq<u8>, padding: seq<u8>)
    requires |s| >= STUN_HEADER_LENGTH
    requires NewLen(|s|, value) < MAX_STUN_MESSAGE_SIZE && |s| + 4 + |value| + |padding| == NewLen(|s|, value)
    ensures var r := Appended(s, kind, value, padding);
            && |r| == NewLen(|s|, value)
            && Extends(s, r)
            && U16(r, 2) == |r| - STUN_HEADER_LENGTH
            && U16(r, |s|) == kind && U16(r, |s| + 2) == |value|
            && r[|s| + 4..|s| + 4 + |value|] == value
  {
    var r := Appended(s, kind, value, padding);
    var n := NewLen(|s|, value) - STUN_HEADER_LENGTH;
    var head := SetLen(s, NewLen(|s|, value));
    assert r == head + (Be16(kind) + Be16(|value|) + value + padding);
    assert r[..|s|] == head;
    assert r[..2] == head[..2] && r[4..|s|] == head[4..];
    assert r[2] == n / 0x100 && r[3] == n % 0x100;
    assert r[|s|] == kind / 0x100 && r[|s| + 1] == kind % 0x100;
    assert r[|s| + 2] == |value| / 0x100 && r[|s| + 3] == |value| % 0x100;
  }

  lemma {:induction false} HoldsExtend(s: seq<u8>, r: seq<u8>, pos: nat, attrs: seq<Attr>, a: Attr)
    requires Holds(s, pos, attrs) && 4 <= pos <= |s|
    requires Extends(s, r) && Holds(r, |s|, [a])
    ensures Holds(r, pos, attrs + [a])
    decreases |attrs|
  {
    hide Extends, HasAttr;
    if attrs == [] {
      assert attrs + [a] == [a];
    } else {
      SameAttr(s, r, pos, attrs[0]);
      HoldsInside(s, pos + Size(attrs[0].value), attrs[1..]);
      HoldsExtend(s, r, pos + Size(attrs[0].value), attrs[1..], a);
      assert (attrs + [a])[1..] == attrs[1..] + [a];
    }
  }

  lemma SameAttr(s: seq<u8>, r: seq<u8>, pos: nat, a: Attr)
    requires HasAttr(s, pos, a) && 4 <= pos && Extends(s, r)
    ensures HasAttr(r, pos, a)
  {
    forall i | 4 <= i < |s|
      ensures r[i] == s[i]
    {
      assert r[i] == r[4..|s|][i - 4];
    }
    assert r[pos + 4..pos + 4 + |a.value|] == s[pos + 4..pos + 4 + |a.value|];
  }

  lemma {:induction false} HoldsInside(s: seq<u8>, pos: nat, attrs: seq<Attr>)
    requires Holds(s, pos, attrs)
    ensures pos <= |s|
    decreases |attrs|
  {
    if attrs != [] {
      HoldsInside(s, pos + Size(attrs[0].value), attrs[1..]);
    }
  }

  /** The attributes of a list of appends that still fit, in order. */
  function Fitting(n: nat, attrs: seq<Attr>): seq<Attr>
    decreases |attrs|
  {
    if attrs == [] then []
    else if NewLen(n, attrs[0].value) < MAX_STUN_MESSAGE_SIZE then
      [attrs[0]] + Fitting(NewLen(n, attrs[0].value), attrs[1..])
    else Fitting(n, attrs[1..])
  }

  /** stun_attr_add_str on a valid message: one attribute more, or nothing changed. */
  method AddToMessage(buf: array<u8>, len: nat, a: Attr, ghost before: seq<Attr>) returns (ret: int, newLen: nat)
    requires buf.Length >= MAX_STUN_MESSAGE_SIZE && len <= buf.Length && Message(buf[..len], before)
    modifies buf
    ensures newLen <= buf.Length
    ensures if len + Size(a.value) < MAX_STUN_MESSAGE_SIZE
            then
              && ret == 0 && newLen == len + Size(a.value)
              && Message(buf[..newLen], before + [a]) && Extends(old(buf[..len]), buf[..newLen])
            else
              ret == -1 && newLen == len && buf[..] == old(buf[..])
  {
    hide Message, Appended, Extends;
    ghost var was, s := buf[..], buf[..len];
    MessageLen(s, before);
    assert U16(was, 2) == U16(s, 2);
    ret, newLen := AttrAdd(buf, len, a.kind, a.value);
    if ret == 0 {
      AppendIsMessage(s, before, a.kind, a.value, was[len + 4 + |a.value|..newLen]);
    }
  }

  /** Any sequence of appends to a message leaves a valid message with the attributes that fitted. */
  method AddAll(buf: array<u8>, len: nat, attrs: seq<Attr>, ghost before: seq<Attr>) returns (newLen: nat)
    requires buf.Length >= MAX_STUN_MESSAGE_SIZE && len <= buf.Length && Message(buf[..len], before)
    modifies buf
    ensures newLen <= buf.Length && Message(buf[..newLen], before + Fitting(len, attrs))
    ensures Extends(old(buf[..len]), buf[..newLen])
  {
    hide Message, NewLen, Extends;
    ghost var s := buf[..len];
    ExtendsSelf(s, before);
    newLen := len;
    var i := 0;
    ghost var now := before;
    while i < |attrs|
      invariant i <= |attrs| && newLen <= buf.Length
      invariant Message(buf[..newLen], now) && Extends(s, buf[..newLen])
      invariant before + Fitting(len, attrs) == now + Fitting(newLen, attrs[i..])
    {
      MessageLen(buf[..newLen], now);
      assert attrs[i..][0] == attrs[i] && attrs[i..][1..] == attrs[i + 1..];
      ghost var q := buf[..newLen];
      var ret;
      ret, newLen := AddToMessage(buf, newLen, attrs[i], now);
      if ret == 0 {
        ExtendsAll(s, q, buf[..newLen]);
        now := now + [attrs[i]];
      }
      i := i + 1;
    }
    assert attrs[i..] == [];
    assert now + [] == now;
  }

  lemma ExtendsSelf(s: seq<u8>, attrs: seq<Attr>)
    requires Message(s, attrs)
    ensures Extends(s, s)
  {
    MessageLen(s, attrs);
  }

  lemma MessageLen(s: seq<u8>, attrs: seq<Attr>)
    requires Message(s, attrs)
    ensures IsCommand(s) && |s| >= STUN_HEADER_LENGTH
    ensures U16(s, 2) + STUN_HEADER_LENGTH == |s| && |s| % 4 == 0
  {
    hide Holds;
    var n: int := U16(s, 2);
    assert n % 4 == 0 && |s| == n + 20;
    assert (n + 20) % 4 == 0;
  }
}
