/**
 The flag words of the hash table: two bits a bucket, sixteen buckets a word. Each macro of the table changes one
 bucket, as the table of flags that the rest of the model uses says.
 */
module PackedFlags {
  import opened Khash
  import opened Options

  const FRESH: bv32 := 0xAAAA_AAAA  // memset with 0xaa: every bucket empty

  /** The shift of a bucket inside its word: (i & 0xf) << 1. */
  function ShiftOf(i: nat): bv5 {
    match i % 16
    case 0 => 0 case 1 => 2 case 2 => 4 case 3 => 6
    case 4 => 8 case 5 => 10 case 6 => 12 case 7 => 14
    case 8 => 16 case 9 => 18 case 10 => 20 case 11 => 22
    case 12 => 24 case 13 => 26 case 14 => 28 case _ => 30
  }

  predicate IsShift(k: bv5) {
    k & 1 == 0
  }

  function Bits(w: bv32, k: bv5): bv32 {
    (w >> k) & 3
  }

  function Clear(w: bv32, k: bv5, mask: bv32): bv32 {
    w & !(mask << k)
  }

  function Set(w: bv32, k: bv5, mask: bv32): bv32 {
    w | (mask << k)
  }

  lemma ClearBits(w: bv32, k: bv5, j: bv5, mask: bv32)
    requires IsShift(k) && IsShift(j) && mask < 4
    ensures Bits(Clear(w, k, mask), j) == if j == k then Bits(w, j) & !mask else Bits(w, j)
  {
  }

  lemma SetOwnBits(w: bv32, k: bv5)
    requires IsShift(k)
    ensures Bits(Set(w, k, 1), k) == Bits(w, k) | 1
  {
  }

  lemma SetOtherBits(w: bv32, k: bv5, j: bv5)
    requires IsShift(k) && IsShift(j) && j != k
    ensures Bits(Set(w, k, 1), j) == Bits(w, j)
  {
  }

  lemma ShiftIs(i: nat, j: nat)
    ensures IsShift(ShiftOf(i)) && (ShiftOf(i) == ShiftOf(j) <==> i % 16 == j % 16)
  {
  }

  /** What two bits say: the empty bit comes first in every test. */
  function FlagOf(bits: bv32): Flag {
    if bits & 2 != 0 then Empty else if bits & 1 != 0 then Deleted else Live
  }

  function At(words: seq<bv32>, i: nat): Flag
    requires i / 16 < |words|
  {
    FlagOf(Bits(words[i / 16], ShiftOf(i)))
  }

  /** The flags of n buckets; n / 16 + 1 words hold them. */
  function Flags(words: seq<bv32>, n: nat): (f: seq<Flag>)
    requires n / 16 < |words|
    ensures |f| == n
  {
    seq(n, i requires 0 <= i < n => At(words, i))
  }

  // ---------------------------------------------------------------- the macros

  predicate IsEmpty(words: seq<bv32>, i: nat)
    requires i / 16 < |words|
  {
    (words[i / 16] >> ShiftOf(i)) & 2 != 0
  }

  predicate IsDel(words: seq<bv32>, i: nat)
    requires i / 16 < |words|
  {
    (words[i / 16] >> ShiftOf(i)) & 1 != 0
  }

  predicate IsEither(words: seq<bv32>, i: nat)
    requires i / 16 < |words|
  {
    (words[i / 16] >> ShiftOf(i)) & 3 != 0
  }

  /** The tests mean what they are named, when the deleted bit is looked at behind the empty one. */
  lemma TestsAre(words: seq<bv32>, i: nat)
    requires i / 16 < |words|
    ensures IsEmpty(words, i) <==> At(words, i) == Empty
    ensures !IsEmpty(words, i) ==> (IsDel(words, i) <==> At(words, i) == Deleted)
    ensures IsEither(words, i) <==> At(words, i) != Live
  {
    ShiftIs(i, i);
    TestBits(words[i / 16], ShiftOf(i));
  }

  lemma TestBits(w: bv32, k: bv5)
    requires IsShift(k)
    ensures var b := Bits(w, k);
            && ((w >> k) & 2 != 0 <==> FlagOf(b) == Empty)
            && ((w >> k) & 2 == 0 ==> ((w >> k) & 1 != 0 <==> FlagOf(b) == Deleted))
            && ((w >> k) & 3 != 0 <==> FlagOf(b) != Live)
  {
  }

  /** A new word is sixteen empty buckets. */
  method NewFlags(n: nat) returns (words: array<bv32>)
    ensures fresh(words) && words.Length == n / 16 + 1 && forall w :: 0 <= w < words.Length ==> words[w] == FRESH
    ensures forall i :: 0 <= i < n ==> Flags(words[..], n)[i] == Empty
  {
    words := new bv32[n / 16 + 1](_ => FRESH);
    forall i | 0 <= i < n
      ensures At(words[..], i) == Empty
    {
      ShiftIs(i, i);
      FreshEmpty(ShiftOf(i));
    }
  }

  lemma FreshEmpty(k: bv5)
    requires IsShift(k)
    ensures FlagOf(Bits(FRESH, k)) == Empty
  {
  }

  /** __ac_set_isboth_false: the bucket becomes live. */
  method SetIsBothFalse(words: array<bv32>, n: nat, i: nat)
    requires i < n && n / 16 < words.Length
    modifies words
    ensures Flags(words[..], n) == Flags(old(words[..]), n)[i := Live]
    ensures words[..] == old(words[..])[i / 16 := Clear(old(words[i / 16]), ShiftOf(i), 3)]
  {
    ghost var was := words[..];
    words[i / 16] := Clear(words[i / 16], ShiftOf(i), 3);
    assert words[..] == was[i / 16 := Clear(was[i / 16], ShiftOf(i), 3)];
    OneBucket(was, n, i, Clear(was[i / 16], ShiftOf(i), 3), Live);
  }

  /** __ac_set_isempty_false on a fresh empty bucket: it becomes live. */
  method SetIsEmptyFalse(words: array<bv32>, n: nat, i: nat)
    requires i < n && n / 16 < words.Length && IsEmpty(words[..], i) && !IsDel(words[..], i)
    modifies words
    ensures Flags(words[..], n) == Flags(old(words[..]), n)[i := Live]
    ensures words[..] == old(words[..])[i / 16 := Clear(old(words[i / 16]), ShiftOf(i), 2)]
  {
    ghost var was := words[..];
    words[i / 16] := Clear(words[i / 16], ShiftOf(i), 2);
    assert words[..] == was[i / 16 := Clear(was[i / 16], ShiftOf(i), 2)];
    OneBucket(was, n, i, Clear(was[i / 16], ShiftOf(i), 2), Live);
  }

  /** __ac_set_isdel_true on a live bucket: it becomes a tombstone. */
  method SetIsDelTrue(words: array<bv32>, n: nat, i: nat)
    requires i < n && n / 16 < words.Length && !IsEither(words[..], i)
    modifies words
    ensures Flags(words[..], n) == Flags(old(words[..]), n)[i := Deleted]
    ensures words[..] == old(words[..])[i / 16 := Set(old(words[i / 16]), ShiftOf(i), 1)]
  {
    ghost var was := words[..];
    words[i / 16] := Set(words[i / 16], ShiftOf(i), 1);
    assert words[..] == was[i / 16 := Set(was[i / 16], ShiftOf(i), 1)];
    OneBucket(was, n, i, Set(was[i / 16], ShiftOf(i), 1), Deleted);
  }

  /** Changing the bits of one bucket in its word changes no other bucket of any word. */
  lemma OneBucket(words: seq<bv32>, n: nat, i: nat, w: bv32, f: Flag)
    requires i < n && n / 16 < |words|
    requires || (f == Live && w == Clear(words[i / 16], ShiftOf(i), 3))
             || (f == Live && w == Clear(words[i / 16], ShiftOf(i), 2) && !IsDel(words, i))
             || (f == Deleted && w == Set(words[i / 16], ShiftOf(i), 1) && !IsEither(words, i))
    ensures Flags(words[i / 16 := w], n) == Flags(words, n)[i := f]
  {
    hide ShiftOf, Clear, Set, FlagOf;
    var words' := words[i / 16 := w];
    var l, r := Flags(words', n), Flags(words, n)[i := f];
    forall j | 0 <= j < n
      ensures l[j] == r[j]
    {
      assert l[j] == At(words', j) && (j != i ==> r[j] == At(words, j));
      if j / 16 == i / 16 {
        ShiftIs(i, j);
        ShiftIs(j, i);
        SameWord(words[i / 16], w, ShiftOf(i), ShiftOf(j), f);
        assert j % 16 == i % 16 ==> j == i;
      }
    }
    assert l == r;
  }

  lemma SameWord(was: bv32, w: bv32, k: bv5, j: bv5, f: Flag)
    requires IsShift(k) && IsShift(j)
    requires || (f == Live && w == Clear(was, k, 3))
             || (f == Live && w == Clear(was, k, 2) && (was >> k) & 1 == 0)
             || (f == Deleted && w == Set(was, k, 1) && (was >> k) & 3 == 0)
    ensures FlagOf(Bits(w, j)) == if j == k then f else FlagOf(Bits(was, j))
  {
    ClearBits(was, k, j, 3);
    ClearBits(was, k, j, 2);
    SetOwnBits(was, k);
    if j != k {
      SetOtherBits(was, k, j);
    }
  }

  // ---------------------------------------------------------------- whole runs

  // What the table does to its flags: set_isboth_false when a put takes a bucket, set_isempty_false when a resize
  // fills a new one, set_isdel_true when a deletion or a resize leaves one.
  datatype Step = Take(i: nat) | Fill(i: nat) | Leave(i: nat)

  predicate Legal(f: seq<Flag>, st: Step) {
    && st.i < |f|
    && (st.Fill? ==> f[st.i] == Empty)
    && (st.Leave? ==> f[st.i] == Live)
  }

  function After(f: seq<Flag>, st: Step): (r: seq<Flag>)
    requires Legal(f, st)
    ensures |r| == |f|
  {
    f[st.i := if st.Leave? then Deleted else Live]
  }

  /** The flags of a new table after some steps, if each of them was legal. */
  function AfterAll(n: nat, steps: seq<Step>): (r: Option<seq<Flag>>)
    ensures r.Some? ==> |r.value| == n
  {
    if steps == [] then Some(seq(n, _ => Empty))
    else
      match AfterAll(n, steps[..|steps| - 1])
      case None => None
      case Some(f) => if Legal(f, steps[|steps| - 1]) then Some(After(f, steps[|steps| - 1])) else None
  }

  /** No bucket has both of its bits set. */
  ghost predicate NeverBoth(words: seq<bv32>, n: nat)
    requires n / 16 < |words|
  {
    forall i :: 0 <= i < n ==> Bits(words[i / 16], ShiftOf(i)) != 3
  }

  lemma BothKept(words: seq<bv32>, n: nat, i: nat, w: bv32)
    requires i < n && n / 16 < |words| && NeverBoth(words, n)
    requires || w == Clear(words[i / 16], ShiftOf(i), 3)
             || w == Clear(words[i / 16], ShiftOf(i), 2)
             || (w == Set(words[i / 16], ShiftOf(i), 1) && Bits(words[i / 16], ShiftOf(i)) == 0)
    ensures NeverBoth(words[i / 16 := w], n)
  {
    hide ShiftOf, Bits, Clear, Set;
    var words' := words[i / 16 := w];
    forall j | 0 <= j < n
      ensures Bits(words'[j / 16], ShiftOf(j)) != 3
    {
      if j / 16 == i / 16 {
        ShiftIs(i, j);
        ShiftIs(j, i);
        WordNeverBoth(words[i / 16], w, ShiftOf(i), ShiftOf(j));
      }
    }
  }

  lemma WordNeverBoth(was: bv32, w: bv32, k: bv5, j: bv5)
    requires IsShift(k) && IsShift(j) && Bits(was, j) != 3
    requires w == Clear(was, k, 3) || w == Clear(was, k, 2) || (w == Set(was, k, 1) && Bits(was, k) == 0)
    ensures Bits(w, j) != 3
  {
    hide Bits, Clear, Set;
    Masked(Bits(was, j));
    if w == Clear(was, k, 3) {
      ClearBits(was, k, j, 3);
    } else if w == Clear(was, k, 2) {
      ClearBits(was, k, j, 2);
    } else if j == k {
      SetOwnBits(was, k);
    } else {
      SetOtherBits(was, k, j);
    }
  }

  lemma Masked(b: bv32)
    ensures b & !3 != 3 && b & !2 != 3 && (b == 0 ==> b | 1 != 3)
  {
  }

  /** Without both bits set, an empty bucket is not a tombstone as well. */
  lemma EmptyOnly(words: seq<bv32>, n: nat, i: nat)
    requires i < n && n / 16 < |words| && NeverBoth(words, n) && At(words, i) == Empty
    ensures IsEmpty(words, i) && !IsDel(words, i)
  {
    ShiftIs(i, i);
    TestsAre(words, i);
    TwoBits(words[i / 16], ShiftOf(i));
  }

  lemma TwoBits(w: bv32, k: bv5)
    requires (w >> k) & 2 != 0 && Bits(w, k) != 3
    ensures (w >> k) & 1 == 0
  {
  }

  lemma FreshNotBoth(k: bv5)
    requires IsShift(k)
    ensures Bits(FRESH, k) != 3
  {
  }

  lemma NewNeverBoth(words: seq<bv32>, n: nat)
    requires n / 16 < |words| && forall i :: 0 <= i < |words| ==> words[i] == FRESH
    ensures NeverBoth(words, n)
  {
    hide ShiftOf, Bits;
    forall i | 0 <= i < n
      ensures Bits(words[i / 16], ShiftOf(i)) != 3
    {
      ShiftIs(i, i);
      FreshNotBoth(ShiftOf(i));
    }
  }

  lemma LegalNext(n: nat, steps: seq<Step>, k: nat)
    requires k < |steps| && AfterAll(n, steps).Some?
    ensures AfterAll(n, steps[..k]).Some? && Legal(AfterAll(n, steps[..k]).value, steps[k])
    ensures AfterAll(n, steps[..k + 1]) == Some(After(AfterAll(n, steps[..k]).value, steps[k]))
    decreases |steps|
  {
    var before := steps[..|steps| - 1];
    if k < |before| {
      LegalNext(n, before, k);
      assert before[..k] == steps[..k] && before[..k + 1] == steps[..k + 1];
    } else {
      assert steps[..k] == before && steps[..k + 1] == steps;
    }
  }

  lemma NoBits(words: seq<bv32>, i: nat)
    requires i / 16 < |words| && !IsEither(words, i)
    ensures Bits(words[i / 16], ShiftOf(i)) == 0
  {
  }

  method OneStep(words: array<bv32>, n: nat, st: Step)
    requires n / 16 < words.Length && NeverBoth(words[..], n) && Legal(Flags(words[..], n), st)
    modifies words
    ensures NeverBoth(words[..], n) && Flags(words[..], n) == After(Flags(old(words[..]), n), st)
  {
    hide ShiftOf, Bits, Clear, Set, FlagOf, NeverBoth;
    ghost var was := words[..];
    assert Flags(was, n)[st.i] == At(was, st.i);
    TestsAre(was, st.i);
    match st {
      case Take(i) =>
        BothKept(was, n, i, Clear(was[i / 16], ShiftOf(i), 3));
        SetIsBothFalse(words, n, i);
      case Fill(i) =>
        EmptyOnly(was, n, i);
        BothKept(was, n, i, Clear(was[i / 16], ShiftOf(i), 2));
        SetIsEmptyFalse(words, n, i);
      case Leave(i) =>
        NoBits(was, i);
        BothKept(was, n, i, Set(was[i / 16], ShiftOf(i), 1));
        SetIsDelTrue(words, n, i);
    }
  }

  /** Over every legal run of steps from a new table the packed words decode to the flags that the table of flags has,
      and so every test in between gives the answer that the hash table relies on. */
  method RunSteps(n: nat, steps: seq<Step>) returns (words: array<bv32>)
    requires AfterAll(n, steps).Some?
    ensures fresh(words) && words.Length == n / 16 + 1 && Flags(words[..], n) == AfterAll(n, steps).value
    ensures forall i :: 0 <= i < n ==>
              && (IsEmpty(words[..], i) <==> AfterAll(n, steps).value[i] == Empty)
              && (IsEither(words[..], i) <==> AfterAll(n, steps).value[i] != Live)
              && (!IsEmpty(words[..], i) ==> (IsDel(words[..], i) <==> AfterAll(n, steps).value[i] == Deleted))
  {
    words := NewFlags(n);
    assert Flags(words[..], n) == AfterAll(n, []).value;
    NewNeverBoth(words[..], n);
    var k := 0;
    while k < |steps|
      invariant k <= |steps| && fresh(words) && words.Length == n / 16 + 1
      invariant AfterAll(n, steps[..k]) == Some(Flags(words[..], n)) && NeverBoth(words[..], n)
    {
      LegalNext(n, steps, k);
      OneStep(words, n, steps[k]);
      k := k + 1;
    }
    assert steps[..k] == steps;
    forall i | 0 <= i < n
      ensures Flags(words[..], n)[i] == At(words[..], i)
    {
      TestsAre(words[..], i);
    }
  }
}
