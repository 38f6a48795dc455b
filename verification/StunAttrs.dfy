/** Iterating over the attributes of a received message. */
module StunAttrs {
  import opened IoAddr
  import opened Bytes
  import opened Options
  import opened StunMsg

  /** stun_attr_get_first_str. */
  function First(s: seq<u8>): Option<nat> {
    if MsgLen(s) > STUN_HEADER_LENGTH then Some(STUN_HEADER_LENGTH) else None
  }

  /** stun_attr_get_next_str. */
  function Next(s: seq<u8>, prev: nat): Option<nat>
    requires prev + 4 <= |s|
  {
    var attrEnd := prev + 4 + RoundUp(U16(s, prev + 2));
    if attrEnd < MsgLen(s) then Some(attrEnd) else None
  }

  /** An aligned position where an attribute header lies inside the message. */
  predicate Inside(s: seq<u8>, pos: nat) {
    STUN_HEADER_LENGTH <= pos && pos % 4 == 0 && pos + 4 <= |s|
  }

  lemma FirstInside(s: seq<u8>)
    requires IsCommand(s)
    ensures First(s).Some? ==> Inside(s, First(s).value)
    ensures First(s) == AtPos(s, STUN_HEADER_LENGTH)
  {
    var n: int := U16(s, 2);
    assert n % 4 == 0 && |s| == n + 20;
  }

  lemma NextInside(s: seq<u8>, prev: nat)
    requires IsCommand(s) && Inside(s, prev)
    ensures Next(s, prev).Some? ==> Inside(s, Next(s, prev).value) && Next(s, prev).value >= prev + 4
    ensures Next(s, prev) == AtPos(s, prev + 4 + RoundUp(U16(s, prev + 2)))
  {
    var n: int := U16(s, 2);
    assert n % 4 == 0 && |s| == n + 20;
    assert |s| % 4 == 0;
  }

  function AtPos(s: seq<u8>, pos: nat): Option<nat> {
    if pos < |s| then Some(pos) else None
  }

  ghost predicate Iterable(s: seq<u8>, at: Option<nat>) {
    IsCommand(s) && (at.Some? ==> Inside(s, at.value))
  }

  /** The positions an iteration visits; that this is well defined says that it ends. */
  ghost function Offsets(s: seq<u8>, at: Option<nat>): seq<nat>
    requires Iterable(s, at)
    decreases match at case None => 0 case Some(p) => 1 + |s| - p
  {
    match at
    case None => []
    case Some(p) => NextInside(s, p); [p] + Offsets(s, Next(s, p))
  }

  /** Aligned headers inside the message, from a position on, each behind the one before. */
  ghost predicate Forward(s: seq<u8>, o: seq<nat>, lo: nat) {
    && (forall i :: 0 <= i < |o| ==> Inside(s, o[i]) && o[i] >= lo)
    && (forall i, j :: 0 <= i < j < |o| ==> o[i] < o[j])
  }

  /** Over every accepted message, iteration stays on aligned headers inside it and moves forward. */
  lemma {:induction false} IterationStaysInside(s: seq<u8>, at: Option<nat>)
    requires Iterable(s, at)
    ensures Forward(s, Offsets(s, at), if at.Some? then at.value else 0)
    decreases match at case None => 0 case Some(p) => 1 + |s| - p
  {
    if at.Some? {
      NextInside(s, at.value);
      var rest := Offsets(s, Next(s, at.value));
      IterationStaysInside(s, Next(s, at.value));
      assert Offsets(s, at) == [at.value] + rest;
      assert Next(s, at.value).None? ==> rest == [];
      assert Forward(s, rest, at.value + 1);
    }
  }

  /** Iterating over a built message returns its types, lengths and values in order, and nothing else. */
  lemma IterationReturns(s: seq<u8>, attrs: seq<Attr>)
    requires Message(s, attrs)
    ensures Iterable(s, First(s))
    ensures var o := Offsets(s, First(s));
            |o| == |attrs| && forall i :: 0 <= i < |o| ==> HasAttr(s, o[i], attrs[i])
  {
    FirstInside(s);
    HeldInside(s, STUN_HEADER_LENGTH, attrs);
    OffsetsHeld(s, STUN_HEADER_LENGTH, attrs);
  }

  lemma HeldInside(s: seq<u8>, pos: nat, attrs: seq<Attr>)
    requires IsCommand(s) && Holds(s, pos, attrs) && pos >= STUN_HEADER_LENGTH && pos % 4 == 0
    ensures pos <= |s| && |s| % 4 == 0
    ensures attrs == [] ==> AtPos(s, pos) == None
    ensures attrs != [] ==>
      && Inside(s, pos) && AtPos(s, pos) == Some(pos) && HasAttr(s, pos, attrs[0])
      && Next(s, pos) == AtPos(s, pos + Size(attrs[0].value))
      && Holds(s, pos + Size(attrs[0].value), attrs[1..])
  {
    HoldsInside(s, pos, attrs);
    MessageLength(s);
    if attrs != [] {
      NextInside(s, pos);
    }
  }

  lemma MessageLength(s: seq<u8>)
    requires IsCommand(s)
    ensures |s| % 4 == 0 && MsgLen(s) == |s|
  {
    var n: int := U16(s, 2);
    assert n % 4 == 0 && |s| == n + 20;
    assert (n + 20) % 4 == 0;
  }

  lemma {:induction false} OffsetsHeld(s: seq<u8>, pos: nat, attrs: seq<Attr>)
    requires IsCommand(s) && Holds(s, pos, attrs) && pos >= STUN_HEADER_LENGTH && pos % 4 == 0
    ensures Iterable(s, AtPos(s, pos))
    ensures var o := Offsets(s, AtPos(s, pos));
            |o| == |attrs| && forall i :: 0 <= i < |o| ==> HasAttr(s, o[i], attrs[i])
    decreases |attrs|
  {
    hide Holds, IsCommand, HasAttr, Next;
    HeldInside(s, pos, attrs);
    if attrs != [] {
      OffsetsHeld(s, pos + Size(attrs[0].value), attrs[1..]);
    }
  }

  // ---------------------------------------------------------------- values that overrun

  predicate ValueInside(s: seq<u8>, p: nat) {
    p + 4 <= |s| && p + 4 + U16(s, p + 2) <= |s|
  }

  ghost predicate AllInside(s: seq<u8>, at: Option<nat>) {
    Iterable(s, at) && forall p :: p in Offsets(s, at) ==> ValueInside(s, p)
  }

  ghost predicate AllButLastInside(s: seq<u8>, o: seq<nat>) {
    forall i :: 0 <= i < |o| - 1 ==> ValueInside(s, o[i])
  }

  /** Iteration goes on only where an attribute ends inside, so only the last value can overrun. */
  lemma {:induction false} OthersInside(s: seq<u8>, at: Option<nat>)
    requires Iterable(s, at)
    ensures AllButLastInside(s, Offsets(s, at))
    decreases match at case None => 0 case Some(p) => 1 + |s| - p
  {
    if at.Some? {
      NextInside(s, at.value);
      var next := Next(s, at.value);
      var rest := Offsets(s, next);
      OthersInside(s, next);
      assert Offsets(s, at) == [at.value] + rest;
      MessageLength(s);
      assert next.None? ==> rest == [];
      assert next.Some? ==> ValueInside(s, at.value);
    }
  }

  /** Acceptance looks at no attribute, so the last value may reach past the message: exactly when no list of
      attributes makes up the message. */
  lemma AllInsideIff(s: seq<u8>)
    requires IsCommand(s)
    ensures Iterable(s, First(s))
    ensures var o := Offsets(s, First(s));
            (exists attrs :: Message(s, attrs)) <==> (o == [] || ValueInside(s, o[|o| - 1]))
  {
    FirstInside(s);
    OthersInside(s, First(s));
    MessageLength(s);
    var o := Offsets(s, First(s));
    IterationStaysInside(s, First(s));
    if attrs :| Message(s, attrs) {
      IterationReturns(s, attrs);
    }
    if forall p :: p in o ==> ValueInside(s, p) {
      var attrs := Collected(s, STUN_HEADER_LENGTH);
      assert Message(s, attrs);
    }
  }

  /** The attributes from a position on, when every value ends inside the message. */
  lemma {:induction false} Collected(s: seq<u8>, pos: nat) returns (attrs: seq<Attr>)
    requires IsCommand(s) && STUN_HEADER_LENGTH <= pos <= |s| && pos % 4 == 0 && |s| % 4 == 0
    requires AllInside(s, AtPos(s, pos))
    ensures Holds(s, pos, attrs)
    decreases |s| - pos
  {
    hide HasAttr, Next, IsCommand, AllInside;
    if pos == |s| {
      attrs := [];
    } else {
      var value := ValueAt(s, pos);
      NextInside(s, pos);
      var rest := Collected(s, pos + Size(value));
      attrs := [Attr(U16(s, pos), value)] + rest;
      HoldsMore(s, pos, attrs[0], rest);
    }
  }

  lemma ValueAt(s: seq<u8>, pos: nat) returns (value: seq<u8>)
    requires IsCommand(s) && Inside(s, pos) && |s| % 4 == 0 && AllInside(s, AtPos(s, pos))
    ensures HasAttr(s, pos, Attr(U16(s, pos), value))
    ensures pos + Size(value) <= |s| && AllInside(s, AtPos(s, pos + Size(value)))
  {
    hide AllInside, IsCommand, Next;
    FirstOfAll(s, pos);
    var n: nat := U16(s, pos + 2);
    RoundFits(|s|, pos + 4, n);
    hide RoundUp, U16;
    value := s[pos + 4..pos + 4 + n];
  }

  lemma RoundFits(len: nat, pos: nat, n: nat)
    requires len % 4 == 0 && pos % 4 == 0 && pos + n <= len
    ensures pos + RoundUp(n) <= len
  {
  }

  lemma FirstOfAll(s: seq<u8>, pos: nat)
    requires AllInside(s, AtPos(s, pos)) && Inside(s, pos)
    ensures ValueInside(s, pos) && AllInside(s, AtPos(s, pos + 4 + RoundUp(U16(s, pos + 2))))
  {
    hide IsCommand, ValueInside, Next;
    NextInside(s, pos);
    var rest := Offsets(s, Next(s, pos));
    assert Offsets(s, AtPos(s, pos)) == [pos] + rest;
    assert pos in [pos] + rest;
    assert forall p :: p in rest ==> p in [pos] + rest;
  }

  lemma HoldsMore(s: seq<u8>, pos: nat, a: Attr, rest: seq<Attr>)
    requires HasAttr(s, pos, a) && Holds(s, pos + Size(a.value), rest)
    ensures Holds(s, pos, [a] + rest)
  {
    assert ([a] + rest)[1..] == rest;
  }

  /** A message of one header and four bytes of attribute that is accepted although its value overruns it. */
  lemma ValueMayOverrun()
    ensures var s := [0, 1, 0, 4] + STUN_MAGIC_COOKIE + [0, 0, 0, 0, 0, 0, 0, 0, 0, 0, 0, 0] + [0, 6, 0, 8];
            IsCommand(s) && First(s) == Some(20) && 20 + 4 + U16(s, 22) > |s|
  {
    var s := [0, 1, 0, 4] + STUN_MAGIC_COOKIE + [0, 0, 0, 0, 0, 0, 0, 0, 0, 0, 0, 0] + [0, 6, 0, 8];
    assert s[4..8] == STUN_MAGIC_COOKIE;
    assert s[22] == 0 && s[23] == 8 && s[2] == 0 && s[3] == 4;
  }

  // ---------------------------------------------------------------- searching

  /** The first position, from one on, with an attribute of a kind. */
  ghost function Find(s: seq<u8>, at: Option<nat>, kind: u16): Option<nat>
    requires Iterable(s, at)
    decreases match at case None => 0 case Some(p) => 1 + |s| - p
  {
    match at
    case None => None
    case Some(p) =>
      NextInside(s, p);
      if U16(s, p) == kind then Some(p) else Find(s, Next(s, p), kind)
  }

  /** stun_attr_get_first_by_type_str on an accepted message. */
  method FirstByType(s: seq<u8>, kind: u16) returns (attr: Option<nat>)
    requires IsCommand(s)
    ensures Iterable(s, First(s)) && attr == Find(s, First(s), kind)
  {
    FirstInside(s);
    attr := First(s);
    while attr.Some?
      invariant Iterable(s, attr)
      invariant Find(s, First(s), kind) == Find(s, attr, kind)
      decreases match attr case None => 0 case Some(p) => 1 + |s| - p
    {
      if U16(s, attr.value) == kind {
        return attr;
      }
      NextInside(s, attr.value);
      attr := Next(s, attr.value);
    }
  }

  ghost predicate FoundIn(s: seq<u8>, o: seq<nat>, kind: u16, found: Option<nat>) {
    match found
    case None => forall i :: 0 <= i < |o| ==> o[i] + 4 <= |s| && U16(s, o[i]) != kind
    case Some(p) =>
      p in o && Inside(s, p) && U16(s, p) == kind
      && forall i :: 0 <= i < |o| && o[i] < p ==> o[i] + 4 <= |s| && U16(s, o[i]) != kind
  }

  /** What is found is the first of its kind among the positions of the iteration. */
  lemma {:induction false} FindIsFirst(s: seq<u8>, at: Option<nat>, kind: u16)
    requires Iterable(s, at)
    ensures FoundIn(s, Offsets(s, at), kind, Find(s, at, kind))
    decreases match at case None => 0 case Some(p) => 1 + |s| - p
  {
    if at.Some? {
      NextInside(s, at.value);
      IterationStaysInside(s, at);
      if U16(s, at.value) != kind {
        FindIsFirst(s, Next(s, at.value), kind);
      }
    }
  }

  /** The position is that of the first attribute of a kind in the order of iteration. */
  ghost predicate FirstOfKind(s: seq<u8>, p: nat, kind: u16) {
    && IsCommand(s) && Iterable(s, First(s))
    && var o := Offsets(s, First(s));
       && Forward(s, o, 0) && p in o && U16(s, p) == kind
       && forall i :: 0 <= i < |o| && o[i] < p ==> U16(s, o[i]) != kind
  }

  ghost predicate NoneOfKind(s: seq<u8>, kind: u16) {
    && IsCommand(s) && Iterable(s, First(s))
    && var o := Offsets(s, First(s));
       && Forward(s, o, 0) && forall i :: 0 <= i < |o| ==> U16(s, o[i]) != kind
  }

  /** The search finds that attribute, and finds none exactly if there is none. */
  lemma FindIff(s: seq<u8>, kind: u16)
    requires IsCommand(s)
    ensures Iterable(s, First(s))
    ensures forall p: nat :: Find(s, First(s), kind) == Some(p) <==> FirstOfKind(s, p, kind)
    ensures Find(s, First(s), kind) == None <==> NoneOfKind(s, kind)
  {
    hide IsCommand, Next;
    FirstInside(s);
    FindIsFirst(s, First(s), kind);
    IterationStaysInside(s, First(s));
    var o := Offsets(s, First(s));
    assert Forward(s, o, 0);
    forall p: nat | FirstOfKind(s, p, kind)
      ensures Find(s, First(s), kind) == Some(p)
    {
      OnlyFirst(s, o, kind, p, Find(s, First(s), kind));
    }
  }

  lemma OnlyFirst(s: seq<u8>, o: seq<nat>, kind: u16, p: nat, found: Option<nat>)
    requires Forward(s, o, 0) && p in o && U16(s, p) == kind
    requires forall i :: 0 <= i < |o| && o[i] < p ==> U16(s, o[i]) != kind
    requires FoundIn(s, o, kind, found)
    ensures found == Some(p)
  {
    var j :| 0 <= j < |o| && o[j] == p;
    if found.Some? {
      var k :| 0 <= k < |o| && o[k] == found.value;
    }
  }

  lemma SameAt(s: seq<u8>, r: seq<u8>, i: nat)
    requires Extends(s, r) && 4 <= i && i + 4 <= |s|
    ensures U16(r, i) == U16(s, i) && U16(r, i + 2) == U16(s, i + 2)
  {
    assert r[i] == r[4..|s|][i - 4] && r[i + 1] == r[4..|s|][i - 3];
    assert r[i + 2] == r[4..|s|][i - 2] && r[i + 3] == r[4..|s|][i - 1];
  }

  /** An attribute that is found stays the first of its kind when more are appended. */
  lemma {:induction false} FindGrown(s: seq<u8>, r: seq<u8>, pos: nat, kind: u16)
    requires IsCommand(r) && Iterable(s, AtPos(s, pos)) && pos >= STUN_HEADER_LENGTH
    requires Extends(s, r) && Find(s, AtPos(s, pos), kind).Some?
    ensures Iterable(r, AtPos(r, pos)) && Find(r, AtPos(r, pos), kind) == Find(s, AtPos(s, pos), kind)
    decreases |s| - pos
  {
    hide IsCommand, Extends;
    MessageLength(s);
    MessageLength(r);
    ExtendsLength(s, r);
    SameAt(s, r, pos);
    NextInside(s, pos);
    NextInside(r, pos);
    if U16(s, pos) != kind {
      FindGrown(s, r, Next(s, pos).value, kind);
    }
  }

  lemma ExtendsLength(s: seq<u8>, r: seq<u8>)
    requires Extends(s, r)
    ensures |s| <= |r|
  {
  }

  lemma NothingLeft(s: seq<u8>, pos: nat, attrs: seq<Attr>)
    requires Holds(s, pos, attrs) && attrs == []
    ensures pos == |s|
  {
  }

  /** An attribute of a new kind is found where it was appended. */
  lemma {:induction false} FindAppended(s: seq<u8>, r: seq<u8>, pos: nat, attrs: seq<Attr>, a: Attr)
    requires IsCommand(s) && IsCommand(r) && Holds(s, pos, attrs) && pos >= STUN_HEADER_LENGTH && pos % 4 == 0
    requires Extends(s, r) && HasAttr(r, |s|, a)
    requires forall i :: 0 <= i < |attrs| ==> attrs[i].kind != a.kind
    ensures Iterable(r, AtPos(r, pos)) && Find(r, AtPos(r, pos), a.kind) == Some(|s|)
    decreases |attrs|
  {
    hide Holds, IsCommand, Extends;
    HeldInside(s, pos, attrs);
    ExtendsLength(s, r);
    MessageLength(r);
    if attrs == [] {
      NothingLeft(s, pos, attrs);
    } else {
      SameAt(s, r, pos);
      NextInside(r, pos);
      FindAppended(s, r, pos + Size(attrs[0].value), attrs[1..], a);
    }
  }
}
