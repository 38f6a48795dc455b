/** Scanning of slot lists, which every small map of the server does: main slots first, then extra ones. */
module Slots {

  /** The position of the first element that satisfies p, or the length of the list. */
  function First<T>(s: seq<T>, p: T -> bool): (i: nat)
    ensures i <= |s|
    ensures i < |s| ==> p(s[i])
    ensures forall j :: 0 <= j < i ==> !p(s[j])
  {
    if s == [] || p(s[0]) then 0 else 1 + First(s[1..], p)
  }

  lemma FirstIs<T>(s: seq<T>, p: T -> bool, i: nat)
    requires i <= |s| && (i < |s| ==> p(s[i])) && forall j :: 0 <= j < i ==> !p(s[j])
    ensures First(s, p) == i
  {
  }

  /** The scanning loop. */
  method Scan<T>(s: seq<T>, p: T -> bool) returns (i: nat)
    ensures i == First(s, p)
  {
    i := 0;
    while i < |s| && !p(s[i])
      invariant i <= |s|
      invariant forall j :: 0 <= j < i ==> !p(s[j])
    {
      i := i + 1;
    }
    FirstIs(s, p, i);
  }

  // ---------------------------------------------------------------- tables of buckets of slots

  datatype Handle = Handle(bucket: nat, slot: nat)

  predicate Has<T>(t: seq<seq<T>>, h: Handle) {
    h.bucket < |t| && h.slot < |t[h.bucket]|
  }

  function At<T>(t: seq<seq<T>>, h: Handle): T
    requires Has(t, h)
  {
    t[h.bucket][h.slot]
  }

  /** Overwriting a slot, or appending one just behind the last. */
  function Store<T>(t: seq<seq<T>>, h: Handle, x: T): (t': seq<seq<T>>)
    requires h.bucket < |t| && h.slot <= |t[h.bucket]|
    ensures |t'| == |t| && Has(t', h) && At(t', h) == x
    ensures forall g: Handle :: g != h ==> (Has(t', g) <==> Has(t, g))
    ensures forall g: Handle :: g != h && Has(t, g) ==> At(t', g) == At(t, g)
  {
    var b := t[h.bucket];
    t[h.bucket := if h.slot < |b| then b[h.slot := x] else b + [x]]
  }

  lemma StoreTwice<T>(t: seq<seq<T>>, h: Handle, x: T, y: T)
    requires h.bucket < |t| && h.slot <= |t[h.bucket]|
    ensures Store(Store(t, h, x), h, y) == Store(t, h, y)
  {
    var b := t[h.bucket];
    var b1 := if h.slot < |b| then b[h.slot := x] else b + [x];
    assert b1[h.slot := y] == if h.slot < |b| then b[h.slot := y] else b + [y];
  }
}
