/**
 The open-addressed hash table: double hashing over prime bucket counts, tombstones for deleted
 entries, and a resize that moves the entries inside the key and value arrays themselves.
 */
module Khash {
  import opened Primality
  import opened KhashPrimes

  type u32 = x: int | 0 <= x < 0x1_0000_0000

  // The three states that two flag bits per bucket encode (module PackedFlags has the bits).
  datatype Flag = Empty | Deleted | Live

  // ---------------------------------------------------------------- the probe sequence

  /** The bucket tried after p steps for a key with hash k. */
  ghost function Probe(k: int, n: int, p: nat): (i: int)
    requires n > 2
    ensures 0 <= i < n
  {
    if p == 0 then k % n
    else
      var s := Probe(k, n, p - 1) + Increment(k, n);
      if s >= n then s - n else s
  }

  lemma ProbeStart(k: int, n: int)
    requires n > 2
    ensures Probe(k, n, 0) == k % n
  {
  }

  function Increment(k: int, n: int): (inc: int)
    requires n > 2
    ensures 0 < inc < n
  {
    1 + k % (n - 1)
  }

  lemma {:induction false} ProbeClosedForm(k: int, n: int, p: nat) returns (c: int)
    requires n > 2
    ensures Probe(k, n, p) == k % n + p * Increment(k, n) - c * n
  {
    if p == 0 {
      c := 0;
    } else {
      var c0 := ProbeClosedForm(k, n, p - 1);
      c := if Probe(k, n, p - 1) + Increment(k, n) >= n then c0 + 1 else c0;
      assert p * Increment(k, n) == (p - 1) * Increment(k, n) + Increment(k, n);
      assert (c0 + 1) * n == c0 * n + n;
    }
  }

  lemma EqualProbes(k: int, n: int, p: nat, q: nat)
    requires n > 2 && Probe(k, n, p) == Probe(k, n, q)
    ensures Divides(n, (q - p) * Increment(k, n))
  {
    hide *;
    var c := ProbeClosedForm(k, n, p);
    var d := ProbeClosedForm(k, n, q);
    SameRest(k % n, Increment(k, n), n, p, q, c, d);
  }

  lemma SameRest(r: int, inc: int, n: int, p: int, q: int, c: int, d: int)
    requires n > 2 && r + p * inc - c * n == r + q * inc - d * n
    ensures Divides(n, (q - p) * inc)
  {
    Difference(q, p, inc);
    Difference(d, c, n);
    assert (q - p) * inc == n * (d - c);
  }

  lemma Difference(x: int, y: int, z: int)
    ensures (x - y) * z == x * z - y * z
  {
  }

  /** Over a prime bucket count, n probes hit n different buckets. */
  lemma ProbesDistinct(k: int, n: int, p: nat, q: nat)
    requires n > 2 && IsPrime(n) && p < q < n
    ensures Probe(k, n, p) != Probe(k, n, q)
  {
    if Probe(k, n, p) == Probe(k, n, q) {
      EqualProbes(k, n, p, q);
      NoZeroDivisors(n, q - p, Increment(k, n));
    }
  }

  /** After n probes the sequence is back at its first bucket. */
  lemma ProbesWrap(k: int, n: int)
    requires n > 2
    ensures Probe(k, n, n) == Probe(k, n, 0)
  {
    var inc := Increment(k, n);
    var c := ProbeClosedForm(k, n, n);
    var x, y := Probe(k, n, n), Probe(k, n, 0);
    assert x - y == n * (inc - c) by {
      assert n * (inc - c) == n * inc - c * n;
    }
    MulMono(n, 1, inc - c);
    MulMono(n, inc - c, -1);
  }

  ghost function ProbeSet(k: int, n: int, p: nat): set<int>
    requires n > 2
  {
    if p == 0 then {} else ProbeSet(k, n, p - 1) + {Probe(k, n, p - 1)}
  }

  lemma {:induction false} InProbeSet(k: int, n: int, p: nat, i: int) returns (q: nat)
    requires n > 2 && i in ProbeSet(k, n, p)
    ensures q < p && Probe(k, n, q) == i
  {
    if i == Probe(k, n, p - 1) {
      q := p - 1;
    } else {
      q := InProbeSet(k, n, p - 1, i);
    }
  }

  lemma {:induction false} ProbeSetCard(k: int, n: int, p: nat)
    requires n > 2 && IsPrime(n) && p <= n
    ensures |ProbeSet(k, n, p)| == p
    ensures forall i :: i in ProbeSet(k, n, p) ==> 0 <= i < n
  {
    if p > 0 {
      ProbeSetCard(k, n, p - 1);
      if Probe(k, n, p - 1) in ProbeSet(k, n, p - 1) {
        var q := InProbeSet(k, n, p - 1, Probe(k, n, p - 1));
        ProbesDistinct(k, n, q, p - 1);
      }
    }
  }

  ghost function Range(n: nat): (s: set<int>)
    ensures forall i :: i in s <==> 0 <= i < n
    ensures |s| == n
  {
    if n == 0 then {} else Range(n - 1) + {n - 1}
  }

  /** Over a prime bucket count, n probes reach every bucket. */
  lemma ProbesCover(k: int, n: int, b: int) returns (q: nat)
    requires n > 2 && IsPrime(n) && 0 <= b < n
    ensures q < n && Probe(k, n, q) == b
  {
    ProbeSetCard(k, n, n);
    var s := ProbeSet(k, n, n);
    if b !in s {
      CardMono(s, Range(n) - {b});
      assert false;
    }
    q := InProbeSet(k, n, n, b);
  }

  // ---------------------------------------------------------------- bucket contents

  /** The first p probes for hash k meet no empty bucket. */
  ghost predicate PathTo(flags: seq<Flag>, k: int, p: nat)
    requires |flags| > 2
  {
    forall q: nat :: q < p ==> flags[Probe(k, |flags|, q)] != Empty
  }

  /** Bucket b lies on the probe path of hash k, and no earlier bucket of that path is empty. */
  ghost predicate Reach(flags: seq<Flag>, k: int, b: int)
    requires |flags| > 2
  {
    exists p: nat :: p < |flags| && Probe(k, |flags|, p) == b && PathTo(flags, k, p)
  }

  lemma ReachMono(flags: seq<Flag>, flags': seq<Flag>, k: int, b: int)
    requires |flags| == |flags'| > 2 && Reach(flags, k, b)
    requires forall c :: 0 <= c < |flags| && flags[c] != Empty ==> flags'[c] != Empty
    ensures Reach(flags', k, b)
  {
    var p: nat :| p < |flags| && Probe(k, |flags|, p) == b && PathTo(flags, k, p);
    assert PathTo(flags', k, p);
  }

  /** Every key of slot sits live in its bucket, every live bucket belongs to a key of slot, and a
      live bucket is reachable by probing for its key. */
  ghost predicate Table<K>(flags: seq<Flag>, keys: seq<K>, hash: K -> u32, slot: map<K, int>) {
    && |flags| == |keys| > 2
    && (forall x :: x in slot ==> 0 <= slot[x] < |flags| && flags[slot[x]] == Live && keys[slot[x]] == x)
    && (forall b :: 0 <= b < |flags| && flags[b] == Live ==>
          keys[b] in slot && slot[keys[b]] == b && Reach(flags, hash(keys[b]), b))
  }

  ghost function Occupied(flags: seq<Flag>): set<int> {
    set b | 0 <= b < |flags| && flags[b] != Empty
  }

  lemma OccupiedUpdate(flags: seq<Flag>, b: int, f: Flag)
    requires 0 <= b < |flags| && f != Empty
    ensures |Occupied(flags[b := f])| == |Occupied(flags)| + (if flags[b] == Empty then 1 else 0)
  {
    assert Occupied(flags[b := f]) == Occupied(flags) + {b};
  }

  lemma SomeEmpty(flags: seq<Flag>) returns (b: int)
    requires |Occupied(flags)| < |flags|
    ensures 0 <= b < |flags| && flags[b] == Empty
  {
    if Range(|flags|) <= Occupied(flags) {
      CardMono(Range(|flags|), Occupied(flags));
    }
    assert exists c :: c in Range(|flags|) && c !in Occupied(flags);
    b :| 0 <= b < |flags| && flags[b] == Empty;
  }

  /** The first p probes for key x meet no empty bucket and do not find x. */
  ghost predicate Missed<K>(flags: seq<Flag>, keys: seq<K>, k: int, x: K, p: nat)
    requires |flags| == |keys| > 2
  {
    forall q: nat :: q < p ==>
      flags[Probe(k, |flags|, q)] != Empty &&
      (flags[Probe(k, |flags|, q)] == Live ==> keys[Probe(k, |flags|, q)] != x)
  }

  /** Missing a key up to an empty bucket, or n times, means that it is not stored. */
  lemma MissedMeansAbsent<K>(flags: seq<Flag>, keys: seq<K>, hash: K -> u32, slot: map<K, int>, x: K, p: nat)
    requires Table(flags, keys, hash, slot) && p <= |flags| && Missed(flags, keys, hash(x), x, p)
    requires p == |flags| || flags[Probe(hash(x), |flags|, p)] == Empty
    ensures x !in slot
  {
  }

  lemma MissedStep<K>(flags: seq<Flag>, keys: seq<K>, k: int, x: K, p: nat)
    requires |flags| == |keys| > 2
    ensures Missed(flags, keys, k, x, 0)
    ensures Missed(flags, keys, k, x, p) && flags[Probe(k, |flags|, p)] != Empty
              && (flags[Probe(k, |flags|, p)] == Deleted || keys[Probe(k, |flags|, p)] != x)
            ==> Missed(flags, keys, k, x, p + 1)
  {
  }

  lemma LiveBucket<K>(flags: seq<Flag>, keys: seq<K>, hash: K -> u32, slot: map<K, int>, b: int)
    requires Table(flags, keys, hash, slot) && LiveAt(flags, b)
    ensures keys[b] in slot && slot[keys[b]] == b
  {
  }

  /** The probe after bucket i at step p: a wrapped addition, back at the start only after n steps. */
  lemma ProbeStep(k: int, n: int, p: nat, i: int, next: int)
    requires n > 2 && IsPrime(n) && p < n && i == Probe(k, n, p)
    requires next == if i + Increment(k, n) >= n then i + Increment(k, n) - n else i + Increment(k, n)
    ensures next == Probe(k, n, p + 1)
    ensures next == Probe(k, n, 0) <==> p + 1 == n
  {
    if p + 1 == n {
      ProbesWrap(k, n);
    } else {
      ProbesDistinct(k, n, 0, p + 1);
    }
  }

  /** Storing key x in a bucket that is not live, at the end of x's probe path. */
  lemma TableInsert<K>(flags: seq<Flag>, keys: seq<K>, hash: K -> u32, slot: map<K, int>, x: K, b: int)
    requires Table(flags, keys, hash, slot) && x !in slot
    requires 0 <= b < |flags| && flags[b] != Live && Reach(flags, hash(x), b)
    ensures Table(flags[b := Live], keys[b := x], hash, slot[x := b])
  {
    var flags', keys', slot' := flags[b := Live], keys[b := x], slot[x := b];
    forall c | 0 <= c < |flags'| && flags'[c] == Live
      ensures keys'[c] in slot' && slot'[keys'[c]] == c && Reach(flags', hash(keys'[c]), c)
    {
      if c == b {
        ReachMono(flags, flags', hash(x), b);
      } else {
        ReachMono(flags, flags', hash(keys[c]), c);
      }
    }
  }

  /** Turning the bucket of key x into a tombstone. */
  lemma TableRemove<K>(flags: seq<Flag>, keys: seq<K>, hash: K -> u32, slot: map<K, int>, x: K)
    requires Table(flags, keys, hash, slot) && x in slot
    ensures Table(flags[slot[x] := Deleted], keys, hash, slot - {x})
  {
    var flags', slot' := flags[slot[x] := Deleted], slot - {x};
    forall c | 0 <= c < |flags'| && flags'[c] == Live
      ensures keys[c] in slot' && slot'[keys[c]] == c && Reach(flags', hash(keys[c]), c)
    {
      ReachMono(flags, flags', hash(keys[c]), c);
    }
  }

  // ---------------------------------------------------------------- the resize in flight

  /**
   While a table is resized, the key and value arrays hold two kinds of entries: those already placed
   for the new bucket count (live in nf) and those still waiting at their old bucket (live in fl).
   */
  ghost predicate Mid<K>(fl: seq<Flag>, nf: seq<Flag>, keys: seq<K>, hash: K -> u32, slot: map<K, int>) {
    && 2 < |nf| <= |keys| && |fl| <= |keys|
    && (forall x :: x in slot ==>
          0 <= slot[x] < |keys| && keys[slot[x]] == x && (LiveAt(nf, slot[x]) || LiveAt(fl, slot[x])))
    && (forall b :: LiveAt(nf, b) ==> keys[b] in slot && slot[keys[b]] == b && Reach(nf, hash(keys[b]), b))
    && (forall b :: LiveAt(fl, b) ==> keys[b] in slot && slot[keys[b]] == b)
    && (forall b :: LiveAt(nf, b) ==> !LiveAt(fl, b))
    && (forall b :: 0 <= b < |nf| ==> nf[b] != Deleted)
  }

  ghost predicate LiveAt(flags: seq<Flag>, b: int) {
    0 <= b < |flags| && flags[b] == Live
  }

  ghost function LiveSet(flags: seq<Flag>): set<int> {
    set b | 0 <= b < |flags| && flags[b] == Live
  }

  /** Taking the waiting entry of bucket b in hand. */
  lemma MidTake<K>(fl: seq<Flag>, nf: seq<Flag>, keys: seq<K>, hash: K -> u32, slot: map<K, int>, b: int)
    requires Mid(fl, nf, keys, hash, slot) && LiveAt(fl, b)
    ensures Mid(fl[b := Deleted], nf, keys, hash, slot - {keys[b]})
    ensures LiveSet(fl[b := Deleted]) < LiveSet(fl)
  {
    assert b in LiveSet(fl) && b !in LiveSet(fl[b := Deleted]);
    forall c | LiveAt(fl[b := Deleted], c)
      ensures keys[c] in slot && keys[c] != keys[b]
    {
      assert LiveAt(fl, c);
    }
    forall c | LiveAt(nf, c)
      ensures keys[c] != keys[b]
    {
    }
  }

  /** Putting key x down in the empty new bucket i at the end of its path; no entry waits there. */
  lemma MidPlace<K>(fl: seq<Flag>, nf: seq<Flag>, keys: seq<K>, hash: K -> u32, slot: map<K, int>, x: K, i: int)
    requires Mid(fl, nf, keys, hash, slot) && x !in slot
    requires 0 <= i < |nf| && nf[i] == Empty && !LiveAt(fl, i) && Reach(nf, hash(x), i)
    ensures Mid(fl, nf[i := Live], keys[i := x], hash, slot[x := i])
  {
    var nf', keys', slot' := nf[i := Live], keys[i := x], slot[x := i];
    forall y | y in slot'
      ensures 0 <= slot'[y] < |keys'| && keys'[slot'[y]] == y
      ensures LiveAt(nf', slot'[y]) || LiveAt(fl, slot'[y])
    {
      if y != x {
        assert LiveAt(nf, slot[y]) || LiveAt(fl, slot[y]);
        if LiveAt(nf, slot[y]) {
          assert LiveAt(nf', slot[y]);
        }
      } else {
        assert LiveAt(nf', i);
      }
    }
    forall b | LiveAt(nf', b)
      ensures keys'[b] in slot' && slot'[keys'[b]] == b && Reach(nf', hash(keys'[b]), b) && !LiveAt(fl, b)
    {
      if b == i {
        ReachMono(nf, nf', hash(x), b);
      } else {
        assert LiveAt(nf, b);
        ReachMono(nf, nf', hash(keys[b]), b);
      }
    }
    forall b | LiveAt(fl, b)
      ensures keys'[b] in slot' && slot'[keys'[b]] == b
    {
      assert b != i;
    }
  }

  /** There is an empty new bucket while fewer entries are stored than there are new buckets. */
  lemma MidSomeEmpty<K>(fl: seq<Flag>, nf: seq<Flag>, keys: seq<K>, hash: K -> u32, slot: map<K, int>) returns (b: int)
    requires Mid(fl, nf, keys, hash, slot) && |slot| < |nf|
    ensures 0 <= b < |nf| && nf[b] == Empty
  {
    if forall c :: 0 <= c < |nf| ==> LiveAt(nf, c) {
      var s := KeysOf(keys, |nf|);
      KeysOfCard(fl, nf, keys, hash, slot, |nf|);
      assert |slot.Keys| == |slot|;
      CardMono(s, slot.Keys);
      assert false;
    }
    b :| 0 <= b < |nf| && !LiveAt(nf, b);
  }

  ghost function KeysOf<K>(keys: seq<K>, n: nat): set<K>
    requires n <= |keys|
  {
    if n == 0 then {} else KeysOf(keys, n - 1) + {keys[n - 1]}
  }

  lemma {:induction false} KeysOfCard<K>(fl: seq<Flag>, nf: seq<Flag>, keys: seq<K>, hash: K -> u32, slot: map<K, int>, n: nat)
    requires Mid(fl, nf, keys, hash, slot) && n <= |nf|
    requires forall c :: 0 <= c < n ==> LiveAt(nf, c)
    ensures |KeysOf(keys, n)| == n
    ensures forall x :: x in KeysOf(keys, n) ==> x in slot && slot[x] < n
  {
    if n > 0 {
      KeysOfCard(fl, nf, keys, hash, slot, n - 1);
      assert LiveAt(nf, n - 1);
    }
  }

  /** When nothing waits any more, the first |nf| buckets form a table without tombstones. */
  lemma MidDone<K>(fl: seq<Flag>, nf: seq<Flag>, keys: seq<K>, hash: K -> u32, slot: map<K, int>)
    requires Mid(fl, nf, keys, hash, slot)
    requires forall b :: !LiveAt(fl, b)
    ensures Table(nf, keys[..|nf|], hash, slot)
    ensures |Occupied(nf)| == |slot|
  {
    forall b | 0 <= b < |nf| && nf[b] == Live
      ensures keys[b] in slot && slot[keys[b]] == b && Reach(nf, hash(keys[b]), b)
    {
      assert LiveAt(nf, b);
    }
    forall x | x in slot
      ensures LiveAt(nf, slot[x])
    {
      assert !LiveAt(fl, slot[x]);
    }
    TableOccupied(nf, keys[..|nf|], hash, slot);
  }

  /** Without tombstones the occupied buckets are exactly the buckets of the keys. */
  lemma TableOccupied<K>(flags: seq<Flag>, keys: seq<K>, hash: K -> u32, slot: map<K, int>)
    requires Table(flags, keys, hash, slot)
    requires forall b :: 0 <= b < |flags| ==> flags[b] != Deleted
    ensures |Occupied(flags)| == |slot|
  {
    BijectionCard(slot, Occupied(flags));
  }

  lemma {:induction false} BijectionCard<K>(slot: map<K, int>, s: set<int>)
    requires forall x :: x in slot ==> slot[x] in s
    requires forall b :: b in s ==> exists x :: x in slot && slot[x] == b
    requires forall x, y :: x in slot && y in slot && slot[x] == slot[y] ==> x == y
    ensures |s| == |slot|
    decreases |slot|
  {
    if slot == map[] {
      assert forall b :: b !in s;
      assert s == {};
    } else {
      var x :| x in slot;
      var b := slot[x];
      forall c | c in s - {b}
        ensures exists y :: y in slot - {x} && (slot - {x})[y] == c
      {
        var y :| y in slot && slot[y] == c;
        assert y in slot - {x};
      }
      assert slot.Keys == (slot - {x}).Keys + {x};
      assert |slot.Keys| == |slot| && |(slot - {x}).Keys| == |slot - {x}|;
      BijectionCard(slot - {x}, s - {b});
    }
  }

  /** A table becomes a resize in flight with every new bucket empty and every entry waiting. */
  lemma MidStart<K>(fl: seq<Flag>, nf: seq<Flag>, keys: seq<K>, keys': seq<K>, hash: K -> u32, slot: map<K, int>)
    requires if |fl| == 0 then slot == map[] else Table(fl, keys, hash, slot)
    requires 2 < |nf| <= |keys'| && |fl| == |keys| <= |keys'| && keys'[..|fl|] == keys
    requires forall b :: 0 <= b < |nf| ==> nf[b] == Empty
    ensures Mid(fl, nf, keys', hash, slot)
  {
    forall x | x in slot
      ensures 0 <= slot[x] < |keys'| && keys'[slot[x]] == x && LiveAt(fl, slot[x])
    {
      assert keys'[slot[x]] == keys'[..|fl|][slot[x]];
    }
    forall b | LiveAt(fl, b)
      ensures keys'[b] in slot && slot[keys'[b]] == b
    {
      assert keys'[b] == keys'[..|fl|][b];
    }
  }

  // ---------------------------------------------------------------- sizes

  /** The load limit 0.77 * n + 0.5, truncated; n is 0 or odd, so no rounding boundary is met. */
  function UpperBound(n: int): int {
    (77 * n + 50) / 100
  }

  function PrimeAt(t: nat): int
    requires t < 32
  {
    PRIMES[t]
  }

  ghost predicate BucketCount(n: int) {
    exists t: nat :: 0 < t < 30 && PrimeAt(t) == n
  }

  lemma BucketCountFacts(n: int)
    requires BucketCount(n)
    ensures IsPrime(n) && 3 <= n <= 1610612741
  {
    var t: nat :| 0 < t < 30 && PrimeAt(t) == n;
    PrimesArePrime(t);
  }

  /** The list entry after the last one that is at most n, searching down from entry t. */
  function NextPrime(n: int, t: nat): int
    requires t < 31
  {
    if t == 0 || PrimeAt(t) <= n then PrimeAt(t + 1) else NextPrime(n, t - 1)
  }

  lemma PrimesAscend(t: nat)
    requires t < 31
    ensures PrimeAt(t) < PrimeAt(t + 1)
    ensures PrimeAt(0) == 0 && PrimeAt(29) == 1610612741
  {
  }

  lemma {:induction false} PrimesSorted(t: nat, u: nat)
    requires t <= u < 32
    ensures PrimeAt(t) <= PrimeAt(u)
    decreases u
  {
    hide PrimeAt;
    if t < u {
      PrimesAscend(u - 1);
      PrimesSorted(t, u - 1);
    }
  }

  /** Growing from n always finds the least bucket count above n. */
  lemma {:induction false} NextPrimeIsLeast(n: int, t: nat)
    requires 0 <= n < 1610612741 && t < 31
    requires n < PrimeAt(t + 1)
    ensures BucketCount(NextPrime(n, t)) && n < NextPrime(n, t)
    ensures forall u: nat :: u < 32 && n < PrimeAt(u) ==> NextPrime(n, t) <= PrimeAt(u)
  {
    hide PrimeAt;
    PrimesAscend(0);
    if t == 0 || PrimeAt(t) <= n {
      if t >= 29 {
        PrimesSorted(29, t);
      }
      forall u: nat | u < 32 && n < PrimeAt(u)
        ensures PrimeAt(t + 1) <= PrimeAt(u)
      {
        if u <= t {
          PrimesSorted(u, t);
        } else {
          PrimesSorted(t + 1, u);
        }
      }
    } else {
      NextPrimeIsLeast(n, t - 1);
    }
  }

  /** Any count chosen for a request below the largest usable one is usable. */
  lemma NewCount(newN: int)
    requires 0 <= newN < 1610612741
    ensures BucketCount(NextPrime(newN, 30)) && newN < NextPrime(newN, 30)
  {
    PrimesAscend(0);
    PrimesSorted(29, 31);
    NextPrimeIsLeast(newN, 30);
  }

  /** A wish for one bucket less than a table has gives the count it has. */
  lemma OwnCount(n: int)
    ensures BucketCount(n) ==> NextPrime(n - 1, 30) == n
  {
    hide PrimeAt, NextPrime;
    if t: nat :| 0 < t < 30 && PrimeAt(t) == n {
      BucketCountFacts(n);
      PrimesAscend(0);
      PrimesSorted(29, 31);
      NextPrimeIsLeast(n - 1, 30);
    }
  }

  /** The loop of kh_resize that searches the list downwards. */
  method ChooseCount(newN: u32) returns (n: int)
    requires newN < 1610612741
    ensures n == NextPrime(newN, 30)
  {
    hide PrimeAt;
    PrimesAscend(0);
    var t: nat := 31;
    PrimesSorted(29, 31);
    while PrimeAt(t) > newN
      invariant t < 32
      invariant t == 31 || NextPrime(newN, t) == NextPrime(newN, 30)
      invariant t == 31 ==> PrimeAt(31) > newN
      decreases t
    {
      t := t - 1;
    }
    n := PrimeAt(t + 1);
  }

  method Realloc<T(0)>(a: array<T>, n: nat) returns (b: array<T>)
    ensures fresh(b) && b.Length == n
    ensures forall i :: 0 <= i < n && i < a.Length ==> b[i] == a[i]
  {
    b := new T[n];
    forall i | 0 <= i < n && i < a.Length {
      b[i] := a[i];
    }
  }

  /** The probe loop of kh_get. */
  method Search<K(==)>(flags: array<Flag>, keys: array<K>, hash: K -> u32, ghost slot: map<K, int>, key: K) returns (i: u32)
    requires Table(flags[..], keys[..], hash, slot) && IsPrime(flags.Length) && flags.Length <= 1610612741
    ensures i == if key in slot then slot[key] else flags.Length
  {
    hide IsPrime, Probe, Missed, Increment;
    ghost var fl, ks := flags[..], keys[..];
    var n: u32 := flags.Length;
    var k := hash(key);
    i := k % n;
    var inc: u32 := Increment(k, n);
    var last := i;
    ghost var p: nat := 0;
    ProbeStart(k, n);
    MissedStep(fl, ks, k, key, 0);
    while flags[i] != Empty && (flags[i] == Deleted || keys[i] != key)
      invariant p < n && i == Probe(k, n, p)
      invariant Missed(fl, ks, k, key, p)
      decreases n - p
    {
      MissedStep(fl, ks, k, key, p);
      var next: u32 := i + inc;
      next := if next >= n then next - n else next;
      ProbeStep(k, n, p, i, next);
      i, p := next, p + 1;
      if i == last {
        MissedMeansAbsent(fl, ks, hash, slot, key, p);
        return n;
      }
    }
    if flags[i] != Live {
      MissedMeansAbsent(fl, ks, hash, slot, key, p);
      i := n;
    } else {
      LiveBucket(fl, ks, hash, slot, i);
    }
  }

  /** The probe loop of kh_resize: the first empty bucket on the path of hash k. */
  method FreeBucket(nf: array<Flag>, k: u32, ghost e: int) returns (i: u32)
    requires 2 < nf.Length <= 1610612741 && IsPrime(nf.Length)
    requires 0 <= e < nf.Length && nf[e] == Empty
    ensures i < nf.Length && nf[i] == Empty && Reach(nf[..], k, i)
  {
    hide IsPrime, Probe, Increment;
    var n: u32 := nf.Length;
    i := k % n;
    var inc: u32 := Increment(k, n);
    ghost var p: nat := 0;
    ProbeStart(k, n);
    ghost var q := ProbesCover(k, n, e);
    while nf[i] != Empty
      invariant p <= q && i == Probe(k, n, p) && PathTo(nf[..], k, p)
      decreases q - p
    {
      var next: u32 := i + inc;
      next := if next >= n then next - n else next;
      ProbeStep(k, n, p, i, next);
      i, p := next, p + 1;
    }
  }

  /** The values of m are at the buckets that slot names. */
  ghost predicate Stores<K, V>(vals: seq<V>, slot: map<K, int>, m: map<K, V>) {
    m.Keys == slot.Keys && forall x :: x in slot ==> 0 <= slot[x] < |vals| && m[x] == vals[slot[x]]
  }

  /** A resize in flight whose entries are exactly those of the map m. */
  ghost predicate Moving<K, V>(fl: seq<Flag>, nf: seq<Flag>, keys: seq<K>, vals: seq<V>, hash: K -> u32,
                               slot: map<K, int>, m: map<K, V>) {
    && |keys| == |vals|
    && Mid(fl, nf, keys, hash, slot)
    && Stores(vals, slot, m)
  }

  lemma MovingStart<K, V>(fl: seq<Flag>, nf: seq<Flag>, keys: seq<K>, vals: seq<V>, keys': seq<K>, vals': seq<V>,
                          hash: K -> u32, slot: map<K, int>, m: map<K, V>)
    requires if |fl| == 0 then slot == map[] else Table(fl, keys, hash, slot)
    requires 2 < |nf| <= |keys'| == |vals'| && |fl| == |keys| == |vals| <= |keys'|
    requires keys'[..|fl|] == keys && vals'[..|fl|] == vals && Stores(vals, slot, m)
    requires forall b :: 0 <= b < |nf| ==> nf[b] == Empty
    ensures Moving(fl, nf, keys', vals', hash, slot, m)
  {
    MidStart(fl, nf, keys, keys', hash, slot);
    forall x | x in slot
      ensures m[x] == vals'[slot[x]]
    {
      assert vals'[slot[x]] == vals'[..|fl|][slot[x]];
    }
  }

  lemma MovingDone<K, V>(fl: seq<Flag>, nf: seq<Flag>, keys: seq<K>, vals: seq<V>, hash: K -> u32,
                         slot: map<K, int>, m: map<K, V>)
    requires Moving(fl, nf, keys, vals, hash, slot, m)
    requires forall b :: !LiveAt(fl, b)
    ensures 2 < |nf| <= |keys| == |vals|
    ensures Table(nf, keys[..|nf|], hash, slot) && |Occupied(nf)| == |slot| && Stores(vals[..|nf|], slot, m)
  {
    MidDone(fl, nf, keys, hash, slot);
  }

  /** The same while one entry of m is in hand, stored nowhere. */
  ghost predicate InHand<K, V>(fl: seq<Flag>, nf: seq<Flag>, keys: seq<K>, vals: seq<V>, hash: K -> u32,
                               slot: map<K, int>, m: map<K, V>, key: K, val: V) {
    key in m && m[key] == val && key !in slot && Moving(fl, nf, keys, vals, hash, slot, m - {key})
  }

  lemma TakeInHand<K, V>(fl: seq<Flag>, nf: seq<Flag>, keys: seq<K>, vals: seq<V>, hash: K -> u32,
                         slot: map<K, int>, m: map<K, V>, j: int)
    requires Moving(fl, nf, keys, vals, hash, slot, m) && LiveAt(fl, j)
    ensures j < |keys| == |vals|
    ensures InHand(fl[j := Deleted], nf, keys, vals, hash, slot - {keys[j]}, m, keys[j], vals[j])
    ensures LiveSet(fl[j := Deleted]) == LiveSet(fl) - {j} && j in LiveSet(fl)
  {
    MidTake(fl, nf, keys, hash, slot, j);
    assert slot[keys[j]] == j;
  }

  lemma InHandFacts<K, V>(fl: seq<Flag>, nf: seq<Flag>, keys: seq<K>, vals: seq<V>, hash: K -> u32,
                          slot: map<K, int>, m: map<K, V>, key: K, val: V) returns (e: int)
    requires InHand(fl, nf, keys, vals, hash, slot, m, key, val) && |m| < |nf|
    ensures 2 < |nf| <= |keys| == |vals| && |fl| <= |keys|
    ensures 0 <= e < |nf| && nf[e] == Empty
  {
    assert m.Keys == (m - {key}).Keys + {key};
    assert |slot.Keys| == |slot| && |m.Keys| == |m|;
    e := MidSomeEmpty(fl, nf, keys, hash, slot);
  }

  /** Swapping the entry in hand with the one that waits in its new bucket. */
  lemma KickOut<K, V>(fl: seq<Flag>, nf: seq<Flag>, keys: seq<K>, vals: seq<V>, hash: K -> u32,
                      slot: map<K, int>, m: map<K, V>, key: K, val: V, i: int)
    requires InHand(fl, nf, keys, vals, hash, slot, m, key, val)
    requires 0 <= i < |nf| && nf[i] == Empty && LiveAt(fl, i) && Reach(nf, hash(key), i)
    ensures InHand(fl[i := Deleted], nf[i := Live], keys[i := key], vals[i := val], hash,
                   (slot - {keys[i]})[key := i], m, keys[i], vals[i])
    ensures LiveSet(fl[i := Deleted]) < LiveSet(fl)
  {
    TakeInHand(fl, nf, keys, vals, hash, slot, m - {key}, i);
    MidPlace(fl[i := Deleted], nf, keys, hash, slot - {keys[i]}, key, i);
    OthersElsewhere(fl, nf, keys, hash, slot, i);
  }

  /** Two keys never share a bucket. */
  lemma OthersElsewhere<K>(fl: seq<Flag>, nf: seq<Flag>, keys: seq<K>, hash: K -> u32, slot: map<K, int>, i: int)
    requires Mid(fl, nf, keys, hash, slot) && 0 <= i < |nf| && nf[i] == Empty
    ensures forall x :: x in slot && slot[x] == i ==> LiveAt(fl, i) && keys[i] == x
  {
  }

  /** Putting the entry in hand down where no entry waits. */
  lemma PutDown<K, V>(fl: seq<Flag>, nf: seq<Flag>, keys: seq<K>, vals: seq<V>, hash: K -> u32,
                      slot: map<K, int>, m: map<K, V>, key: K, val: V, i: int)
    requires InHand(fl, nf, keys, vals, hash, slot, m, key, val)
    requires 0 <= i < |nf| && nf[i] == Empty && !LiveAt(fl, i) && Reach(nf, hash(key), i)
    ensures Moving(fl, nf[i := Live], keys[i := key], vals[i := val], hash, slot[key := i], m)
  {
    MidPlace(fl, nf, keys, hash, slot, key, i);
    OthersElsewhere(fl, nf, keys, hash, slot, i);
  }

  /** The kick-out loop of kh_resize: entry j is moved to its new bucket, the entry that waited there is
      moved on, and so on until a bucket without a waiting entry is met. */
  method Displace<K(==), V>(flags: array<Flag>, nf: array<Flag>, keys: array<K>, vals: array<V>, hash: K -> u32,
                            j: u32, ghost s0: map<K, int>, ghost m: map<K, V>) returns (ghost s: map<K, int>)
    requires flags != nf && keys as object != flags && keys as object != nf
    requires vals as object != flags && vals as object != nf && vals as object != keys
    requires Moving(flags[..], nf[..], keys[..], vals[..], hash, s0, m)
    requires IsPrime(nf.Length) && |m| < nf.Length <= 1610612741 && LiveAt(flags[..], j)
    modifies flags, nf, keys, vals
    ensures Moving(flags[..], nf[..], keys[..], vals[..], hash, s, m)
    ensures LiveSet(flags[..]) <= LiveSet(old(flags[..])) - {j}
  {
    hide IsPrime, Moving, InHand, Reach, LiveSet;
    TakeInHand(flags[..], nf[..], keys[..], vals[..], hash, s0, m, j);
    var key, val := keys[j], vals[j];
    s := s0 - {key};
    ghost var fl, n0, k0, v0 := flags[..], nf[..], keys[..], vals[..];
    ghost var live0 := LiveSet(fl) - {j};
    flags[j] := Deleted;
    assert flags[..] == fl[j := Deleted];
    while true
      invariant InHand(flags[..], nf[..], keys[..], vals[..], hash, s, m, key, val)
      invariant LiveSet(flags[..]) <= live0
      decreases LiveSet(flags[..])
    {
      fl, n0, k0, v0 := flags[..], nf[..], keys[..], vals[..];
      ghost var e := InHandFacts(fl, n0, k0, v0, hash, s, m, key, val);
      var i := FreeBucket(nf, hash(key), e);
      if i < flags.Length && flags[i] == Live {
        KickOut(fl, n0, k0, v0, hash, s, m, key, val, i);
        s := (s - {k0[i]})[key := i];
        nf[i] := Live;
        keys[i], key := key, keys[i];
        vals[i], val := val, vals[i];
        flags[i] := Deleted;
        assert flags[..] == fl[i := Deleted] && nf[..] == n0[i := Live];
        assert keys[..] == k0[i := keys[i]] && vals[..] == v0[i := vals[i]];
      } else {
        PutDown(fl, n0, k0, v0, hash, s, m, key, val, i);
        s := s[key := i];
        nf[i] := Live;
        keys[i] := key;
        vals[i] := val;
        assert nf[..] == n0[i := Live] && keys[..] == k0[i := key] && vals[..] == v0[i := val];
        break;
      }
    }
  }

  lemma NoneLive(fl: seq<Flag>)
    requires forall b :: b in LiveSet(fl) ==> |fl| <= b
    ensures forall b :: !LiveAt(fl, b)
  {
    forall b
      ensures !LiveAt(fl, b)
    {
      assert LiveAt(fl, b) ==> b in LiveSet(fl);
    }
  }

  /** The outer loop of kh_resize: every entry is moved to its bucket under the new bucket count. */
  method Rehash<K(==), V>(flags: array<Flag>, nf: array<Flag>, keys: array<K>, vals: array<V>, hash: K -> u32,
                          ghost s0: map<K, int>, ghost m: map<K, V>) returns (ghost s: map<K, int>)
    requires flags != nf && keys as object != flags && keys as object != nf
    requires vals as object != flags && vals as object != nf && vals as object != keys
    requires Moving(flags[..], nf[..], keys[..], vals[..], hash, s0, m)
    requires IsPrime(nf.Length) && |m| < nf.Length <= 1610612741 && flags.Length < 0x1_0000_0000
    modifies flags, nf, keys, vals
    ensures Moving(flags[..], nf[..], keys[..], vals[..], hash, s, m)
    ensures forall b :: !LiveAt(flags[..], b)
  {
    hide IsPrime, Moving;
    s := s0;
    var j: int := 0;
    while j != flags.Length
      invariant 0 <= j <= flags.Length
      invariant Moving(flags[..], nf[..], keys[..], vals[..], hash, s, m)
      invariant forall b :: b in LiveSet(flags[..]) ==> j <= b
    {
      if flags[j] == Live {
        s := Displace(flags, nf, keys, vals, hash, j, s, m);
      }
      j := j + 1;
    }
    NoneLive(flags[..]);
  }

  /** The probe loop of kh_put: the bucket of the key, or else a bucket for it, the last tombstone met on the
      way when there is one. */
  method InsertionPoint<K(==)>(flags: array<Flag>, keys: array<K>, hash: K -> u32, ghost slot: map<K, int>, key: K)
    returns (x: u32)
    requires Table(flags[..], keys[..], hash, slot) && IsPrime(flags.Length) && flags.Length <= 1610612741
    requires |Occupied(flags[..])| < flags.Length
    ensures x < flags.Length
    ensures key in slot ==> x == slot[key]
    ensures key !in slot ==> flags[x] != Live && Reach(flags[..], hash(key), x)
  {
    hide IsPrime, Probe, Missed, Increment, Occupied;
    ghost var fl, ks := flags[..], keys[..];
    ghost var e := SomeEmpty(fl);
    var n: u32 := flags.Length;
    x := n;
    var site: u32 := n;
    var k := hash(key);
    var i: u32 := k % n;
    ghost var p: nat := 0;
    ghost var q := ProbesCover(k, n, e);
    ProbeStart(k, n);
    MissedStep(fl, ks, k, key, 0);
    if flags[i] == Empty {
      x := i;
    } else {
      var inc: u32 := Increment(k, n);
      var last := i;
      while flags[i] != Empty && (flags[i] == Deleted || keys[i] != key)
        invariant p <= q && i == Probe(k, n, p)
        invariant Missed(fl, ks, k, key, p)
        invariant site <= n && (site < n ==> flags[site] == Deleted && Reach(fl, k, site))
        decreases q - p
      {
        MissedStep(fl, ks, k, key, p);
        if flags[i] == Deleted {
          MissedReach(fl, ks, k, key, p);
          site := i;
        }
        var next: u32 := i + inc;
        next := if next >= n then next - n else next;
        MissedNotEmpty(fl, ks, k, key, p + 1);
        ProbeStep(k, n, p, i, next);
        i, p := next, p + 1;
        if i == last {
          // only a table without empty buckets would bring the probe back to its start
          assert false;
          x := site;
          break;
        }
      }
      if x == n {
        if flags[i] == Empty && site != n {
          x := site;
        } else {
          x := i;
        }
      }
    }
    if flags[i] == Empty {
      MissedMeansAbsent(fl, ks, hash, slot, key, p);
      MissedReach(fl, ks, k, key, p);
    } else {
      LiveBucket(fl, ks, hash, slot, i);
    }
  }

  lemma MissedReach<K>(flags: seq<Flag>, keys: seq<K>, k: int, x: K, p: nat)
    requires |flags| == |keys| > 2 && Missed(flags, keys, k, x, p) && p < |flags|
    ensures Reach(flags, k, Probe(k, |flags|, p))
  {
    assert PathTo(flags, k, p);
  }

  lemma MissedNotEmpty<K>(flags: seq<Flag>, keys: seq<K>, k: int, x: K, p: nat)
    requires |flags| == |keys| > 2 && Missed(flags, keys, k, x, p)
    ensures forall q: nat :: q < p ==> flags[Probe(k, |flags|, q)] != Empty
  {
  }

  /** kh_resize once the new bucket count n is known: the arrays grow first or shrink last. */
  method Rebuild<K(==,0), V(0)>(flags: array<Flag>, keys: array<K>, vals: array<V>, hash: K -> u32, n: u32,
                                ghost slot: map<K, int>, ghost m: map<K, V>)
    returns (nf: array<Flag>, ks: array<K>, vs: array<V>, ghost s: map<K, int>)
    requires keys as object != flags && vals as object != flags && vals as object != keys
    requires flags.Length == keys.Length == vals.Length < 0x1_0000_0000
    requires if flags.Length == 0 then slot == map[] else Table(flags[..], keys[..], hash, slot)
    requires Stores(vals[..], slot, m)
    requires IsPrime(n) && 2 < n <= 1610612741 && |m| < n
    modifies flags, keys, vals
    ensures fresh(nf) && (ks == keys || fresh(ks)) && (vs == vals || fresh(vs))
    ensures ks as object != nf && vs as object != nf && vs as object != ks
    ensures nf.Length == ks.Length == vs.Length == n
    ensures Table(nf[..], ks[..], hash, s) && |Occupied(nf[..])| == |s|
    ensures Stores(vs[..], s, m)
  {
    hide IsPrime, Moving, Table, Occupied, Stores;
    nf := new Flag[n](_ => Empty);
    ks, vs := keys, vals;
    if flags.Length < n {
      ks := Realloc(keys, n);
      vs := Realloc(vals, n);
    }
    assert ks[..flags.Length] == keys[..] && vs[..flags.Length] == vals[..];
    MovingStart(flags[..], nf[..], keys[..], vals[..], ks[..], vs[..], hash, slot, m);
    s := Rehash(flags, nf, ks, vs, hash, slot, m);
    MovingDone(flags[..], nf[..], ks[..], vs[..], hash, s, m);
    ghost var k1, v1 := ks[..], vs[..];
    if flags.Length > n {
      ks := Realloc(ks, n);
      assert ks[..] == k1[..n];
      vs := Realloc(vs, n);
      assert vs[..] == v1[..n];
    } else {
      assert k1[..n] == k1 && v1[..n] == v1;
    }
  }

  // ---------------------------------------------------------------- the table

  /** What relates the counters of a table to its buckets. */
  ghost predicate Consistent<K>(n: int, size: int, occupied: int, upper: int, flags: seq<Flag>, keys: seq<K>,
                                hash: K -> u32, slot: map<K, int>) {
    && |flags| == |keys| == n
    && size == |slot|
    && upper == UpperBound(n)
    && if n == 0 then
         slot == map[] && occupied == 0
       else
         BucketCount(n) && Table(flags, keys, hash, slot) && occupied == |Occupied(flags)| <= upper
  }

  /** The map whose values are at the buckets that slot names. */
  ghost function Stored<K, V>(vals: seq<V>, slot: map<K, int>): (m: map<K, V>) {
    map x | x in slot && 0 <= slot[x] < |vals| :: vals[slot[x]]
  }

  lemma StoredStores<K, V>(vals: seq<V>, slot: map<K, int>, m: map<K, V>)
    ensures Stores(vals, slot, m) ==> Stored(vals, slot) == m
    ensures (forall x :: x in slot ==> 0 <= slot[x] < |vals|) ==> Stores(vals, slot, Stored(vals, slot))
  {
  }

  lemma ConsistentFacts<K>(n: int, size: int, occupied: int, upper: int, flags: seq<Flag>, keys: seq<K>,
                           hash: K -> u32, slot: map<K, int>)
    requires Consistent(n, size, occupied, upper, flags, keys, hash, slot)
    ensures |flags| == |keys| == n && size == |slot| && upper == UpperBound(n)
    ensures if n == 0 then slot == map[] else Table(flags, keys, hash, slot) && IsPrime(n) && BucketCount(n) && 3 <= n <= 1610612741
    ensures forall x :: x in slot ==> 0 <= slot[x] < n
    ensures n > 0 ==> |Occupied(flags)| == occupied <= upper < n
    ensures n == 0 ==> occupied == upper == 0
  {
    if n > 0 {
      BucketCountFacts(n);
      UpperBoundBelow(n);
    }
  }

  lemma ConsistentIntro<K>(n: int, flags: seq<Flag>, keys: seq<K>, hash: K -> u32, slot: map<K, int>)
    requires BucketCount(n) && |flags| == |keys| == n && Table(flags, keys, hash, slot)
    requires |Occupied(flags)| == |slot| < UpperBound(n)
    ensures Consistent(n, |slot|, |slot|, UpperBound(n), flags, keys, hash, slot)
  {
  }

  class HashTable<K(==,0), V(0)> {
    const hash: K -> u32

    var nBuckets: u32
    var size: u32
    var nOccupied: u32
    var upperBound: u32
    var flags: array<Flag>
    var keys: array<K>
    var vals: array<V>
    ghost var slot: map<K, int>  // the bucket of each stored key

    ghost predicate Valid()
      reads this, flags, keys, vals
    {
      && Distinct()
      && vals.Length == nBuckets
      && Consistent(nBuckets, size, nOccupied, upperBound, flags[..], keys[..], hash, slot)
    }

    ghost predicate Distinct()
      reads this
    {
      var f: object, k: object, v: object := flags, keys, vals;
      f != k && f != v && k != v
    }

    /** The finite map that the table stands for. */
    ghost function Contents(): map<K, V>
      reads this, flags, keys, vals
      requires Valid()
    {
      Stored(vals[..], slot)
    }

    /** The bucket that holds a key, or nBuckets. */
    ghost function Bucket(key: K): int
      reads this
    {
      if key in slot then slot[key] else nBuckets
    }

    constructor (hash: K -> u32)
      ensures Valid() && Contents() == map[] && this.hash == hash
      ensures fresh(flags) && fresh(keys) && fresh(vals)
    {
      this.hash := hash;
      nBuckets, size, nOccupied, upperBound := 0, 0, 0, 0;
      flags, keys, vals := new Flag[0], new K[0], new V[0];
      slot := map[];
    }

    /** kh_get: the bucket of a key, or nBuckets. */
    method Get(key: K) returns (i: u32)
      requires Valid()
      ensures i == Bucket(key)
    {
      if nBuckets == 0 {
        return 0;
      }
      ConsistentFacts(nBuckets, size, nOccupied, upperBound, flags[..], keys[..], hash, slot);
      i := Search(flags, keys, hash, slot, key);
    }

    /** kh_resize: to the least bucket count above newN, unless that is too small for the entries. */
    method Resize(newN: u32)
      requires Valid() && newN < 1610612741
      modifies this, flags, keys, vals
      ensures Valid() && Contents() == old(Contents())
      ensures FreshOrSame(old(flags), old(keys), old(vals))
      ensures var n := NextPrime(newN, 30);
        if size < UpperBound(n) then nBuckets == n && nOccupied == size
        else nBuckets == old(nBuckets) && nOccupied == old(nOccupied)
      ensures size == old(size)
    {
      hide Consistent, Stored, BucketCount, NextPrime, UpperBound, IsPrime;
      NewCount(newN);
      var n := ChooseCount(newN);
      BucketCountFacts(n);
      UpperBoundBelow(n);
      if size < UpperBound(n) {
        ResizeTo(n);
      }
    }

    twostate predicate FreshOrSame(f: array<Flag>, k: array<K>, v: array<V>)
      reads this
    {
      (fresh(flags) || flags == f) && (fresh(keys) || keys == k) && (fresh(vals) || vals == v)
    }

    /** kh_resize with the new bucket count chosen: no entry is lost and no tombstone is left. */
    method ResizeTo(n: u32)
      requires Valid() && BucketCount(n) && 3 <= n <= 1610612741 && size < UpperBound(n) < n
      modifies this, flags, keys, vals
      ensures Valid() && Contents() == old(Contents())
      ensures FreshOrSame(old(flags), old(keys), old(vals))
      ensures nBuckets == n && nOccupied == size == old(size)
    {
      hide Consistent, Stored, Stores, BucketCount, UpperBound, Table, Occupied, IsPrime;
      BucketCountFacts(n);
      ConsistentFacts(nBuckets, size, nOccupied, upperBound, flags[..], keys[..], hash, slot);
      ghost var m := Contents();
      StoredStores(vals[..], slot, m);
      StoresSize(vals[..], slot, m);
      var nf, ks, vs, s := Rebuild(flags, keys, vals, hash, n, slot, m);
      StoredStores(vs[..], s, m);
      StoresSize(vs[..], s, m);
      ConsistentIntro(n, nf[..], ks[..], hash, s);
      Install(n, nf, ks, vs, s);
    }

    /** The end of kh_resize: the rebuilt arrays replace the old ones. */
    method Install(n: u32, nf: array<Flag>, ks: array<K>, vs: array<V>, ghost s: map<K, int>)
      requires ks as object != nf && vs as object != nf && vs as object != ks && vs.Length == n
      requires size < UpperBound(n) < n && Consistent(n, size, size, UpperBound(n), nf[..], ks[..], hash, s)
      modifies this
      ensures Valid() && Contents() == Stored(vs[..], s)
      ensures flags == nf && keys == ks && vals == vs
      ensures nBuckets == n && nOccupied == size == old(size)
    {
      hide Consistent, Stored, UpperBound;
      flags, keys, vals, slot := nf, ks, vs, s;
      nBuckets, nOccupied, upperBound := n, size, UpperBound(n);
    }

    /** The resize at the head of kh_put: at the load limit, a table that is mostly tombstones is rebuilt at its
        own size and any other grows, so that an insertion has room. */
    method MakeRoom()
      requires Valid() && size <= MAX_SIZE
      modifies this, flags, keys, vals
      ensures Valid() && Contents() == old(Contents()) && size == old(size)
      ensures FreshOrSame(old(flags), old(keys), old(vals))
      ensures nOccupied < upperBound
      ensures old(nOccupied) < old(upperBound) ==> nBuckets == old(nBuckets) && flags == old(flags)
      ensures old(nOccupied) >= old(upperBound) && old(nBuckets) > 2 * old(size) ==>
        nBuckets == old(nBuckets) && nOccupied == size
      ensures old(nOccupied) >= old(upperBound) && old(nBuckets) <= 2 * old(size) ==> nBuckets > old(nBuckets)
    {
      hide Consistent, Stored, BucketCount, NextPrime, UpperBound, Table, IsPrime, Occupied;
      ghost var n := nBuckets;
      ConsistentFacts(nBuckets, size, nOccupied, upperBound, flags[..], keys[..], hash, slot);
      SizeWithinOccupied(nBuckets, size, nOccupied, upperBound, flags[..], keys[..], hash, slot);
      if nOccupied >= upperBound {
        var newN: u32 := if nBuckets > 2 * size then nBuckets - 1 else nBuckets + 1;
        NewCount(newN);
        BucketCountFacts(NextPrime(newN, 30));
        RoomFor(n, size, newN, NextPrime(newN, 30));
        OwnCount(n);
        Resize(newN);
        ConsistentFacts(nBuckets, size, nOccupied, upperBound, flags[..], keys[..], hash, slot);
      }
    }

    /** kh_put: the bucket x for a key; ret is 0 when the key was there, 1 for a fresh bucket, 2 for a reused
        tombstone.  The value at a new key is whatever the bucket held. */
    method Put(key: K) returns (x: u32, ret: int)
      requires Valid() && size <= MAX_SIZE
      modifies this, flags, keys, vals
      ensures Valid() && FreshOrSame(old(flags), old(keys), old(vals))
      ensures x < nBuckets && x == Bucket(key) && key in slot
      ensures ret == 0 <==> key in old(Contents())
      ensures 0 <= ret <= 2
      ensures Contents() == old(Contents())[key := vals[x]]
    {
      MakeRoom();
      x, ret := Insert(key);
    }

    /** kh_put after its resize. */
    method Insert(key: K) returns (x: u32, ret: int)
      requires Valid() && nOccupied < upperBound
      modifies this, flags, keys, vals
      ensures Valid() && flags == old(flags) && keys == old(keys) && vals == old(vals)
      ensures nBuckets == old(nBuckets) && x < nBuckets && x == Bucket(key) && key in slot
      ensures ret == 0 <==> key in old(Contents())
      ensures x < |old(flags[..])| && ret == match old(flags[..])[x] case Live => 0 case Empty => 1 case Deleted => 2
      ensures Contents() == old(Contents())[key := vals[x]]
    {
      hide Consistent, Stored, Table, Occupied, IsPrime, Reach, UpperBound;
      ghost var fl, ks := flags[..], keys[..];
      ConsistentFacts(nBuckets, size, nOccupied, upperBound, fl, ks, hash, slot);
      x := InsertionPoint(flags, keys, hash, slot, key);
      InsertEffect(nBuckets, size, nOccupied, upperBound, fl, ks, vals[..], hash, slot, key, x);
      if flags[x] == Empty {
        keys[x] := key;
        flags[x] := Live;
        size, nOccupied, ret := size + 1, nOccupied + 1, 1;
        slot := slot[key := x];
        assert flags[..] == fl[x := Live] && keys[..] == ks[x := key];
      } else if flags[x] == Deleted {
        keys[x] := key;
        flags[x] := Live;
        size, ret := size + 1, 2;
        slot := slot[key := x];
        assert flags[..] == fl[x := Live] && keys[..] == ks[x := key];
      } else {
        ret := 0;
      }
    }

    /** kh_value(h, x) = value. */
    method SetValue(ghost key: K, x: u32, value: V)
      requires Valid() && key in slot && slot[key] == x && x < nBuckets
      modifies vals
      ensures Valid() && Contents() == old(Contents())[key := value]
    {
      hide Consistent, Stored;
      ghost var vs := vals[..];
      SetEffect(nBuckets, size, nOccupied, upperBound, flags[..], keys[..], vs, hash, slot, key, value);
      vals[x] := value;
      assert vals[..] == vs[x := value];
    }

    /** kh_del: the entry of a live bucket becomes a tombstone; any other bucket number changes nothing. */
    method Del(x: u32)
      requires Valid() && x <= nBuckets
      modifies this, flags
      ensures Valid() && flags == old(flags) && keys == old(keys) && vals == old(vals)
      ensures Contents() == Without(old(Contents()), old(slot), x)
      ensures size <= old(size)
    {
      hide Consistent, Stored, Table, IsPrime, Occupied, UpperBound, Without;
      ghost var fl := flags[..];
      ConsistentFacts(nBuckets, size, nOccupied, upperBound, fl, keys[..], hash, slot);
      DelEffect(nBuckets, size, nOccupied, upperBound, fl, keys[..], vals[..], hash, slot, x);
      if x != nBuckets && flags[x] == Live {
        flags[x] := Deleted;
        size := size - 1;
        slot := slot - {keys[x]};
        assert flags[..] == fl[x := Deleted];
      }
    }
  }

  /** A map without the key that sits in bucket x. */
  ghost function Without<K, V>(m: map<K, V>, slot: map<K, int>, x: int): map<K, V> {
    map y | y in m && !(y in slot && slot[y] == x) :: m[y]
  }

  // Below this many entries a full table always finds a larger usable bucket count.
  const MAX_SIZE: int := 805306369

  lemma SizeWithinOccupied<K>(n: int, size: int, occupied: int, upper: int, flags: seq<Flag>, keys: seq<K>,
                              hash: K -> u32, slot: map<K, int>)
    requires Consistent(n, size, occupied, upper, flags, keys, hash, slot)
    ensures size <= occupied
  {
    if n > 0 {
      BijectionCard(slot, LiveSet(flags));
      CardMono(LiveSet(flags), Occupied(flags));
    }
  }

  lemma RoomFor(n: int, size: int, newN: int, n': int)
    requires n >= 0 && size <= MAX_SIZE && (n == 0 ==> size == 0) && 0 <= size <= UpperBound(n)
    requires newN == (if n > 2 * size then n - 1 else n + 1) && newN < n' && (n == 0 || n >= 3) && n' >= 3
    ensures n > 2 * size || newN < 1610612741
    ensures size < UpperBound(n')
  {
  }

  lemma InsertEffect<K, V>(n: int, size: int, occupied: int, upper: int, flags: seq<Flag>, keys: seq<K>, vals: seq<V>,
                           hash: K -> u32, slot: map<K, int>, key: K, x: int)
    requires Consistent(n, size, occupied, upper, flags, keys, hash, slot) && |vals| == n && 0 <= x < n
    requires occupied < upper && n < 0x1_0000_0000
    requires key in slot ==> x == slot[key]
    requires key !in slot ==> flags[x] != Live && Reach(flags, hash(key), x)
    ensures key in slot <==> key in Stored(vals, slot)
    ensures key in slot ==> flags[x] == Live && Stored(vals, slot)[key := vals[x]] == Stored(vals, slot)
    ensures key !in slot ==> flags[x] != Live && size + 1 < 0x1_0000_0000
    ensures key !in slot ==>
      Consistent(n, size + 1, if flags[x] == Empty then occupied + 1 else occupied, upper,
                 flags[x := Live], keys[x := key], hash, slot[key := x])
    ensures key !in slot ==> Stored(vals, slot[key := x]) == Stored(vals, slot)[key := vals[x]]
  {
    ConsistentFacts(n, size, occupied, upper, flags, keys, hash, slot);
    SizeWithinOccupied(n, size, occupied, upper, flags, keys, hash, slot);
    StoredAt(flags, keys, vals, hash, slot, key, x);
    if key !in slot {
      InsertCounts(n, size, occupied, upper, flags, keys, hash, slot, key, x);
    }
  }

  lemma StoredAt<K, V>(flags: seq<Flag>, keys: seq<K>, vals: seq<V>, hash: K -> u32, slot: map<K, int>, key: K, x: int)
    requires Table(flags, keys, hash, slot) && 0 <= x < |vals| == |flags|
    requires key in slot ==> x == slot[key]
    ensures key in slot <==> key in Stored(vals, slot)
    ensures key in slot ==> flags[x] == Live && Stored(vals, slot)[key := vals[x]] == Stored(vals, slot)
    ensures key !in slot ==> Stored(vals, slot[key := x]) == Stored(vals, slot)[key := vals[x]]
  {
  }

  lemma InsertCounts<K>(n: int, size: int, occupied: int, upper: int, flags: seq<Flag>, keys: seq<K>,
                        hash: K -> u32, slot: map<K, int>, key: K, x: int)
    requires Consistent(n, size, occupied, upper, flags, keys, hash, slot) && 0 <= x < n && occupied < upper
    requires key !in slot && flags[x] != Live && Reach(flags, hash(key), x)
    ensures Consistent(n, size + 1, if flags[x] == Empty then occupied + 1 else occupied, upper,
                       flags[x := Live], keys[x := key], hash, slot[key := x])
  {
    ConsistentFacts(n, size, occupied, upper, flags, keys, hash, slot);
    TableInsert(flags, keys, hash, slot, key, x);
    OccupiedUpdate(flags, x, Live);
    hide Table, Occupied, BucketCount, UpperBound;
    assert slot[key := x].Keys == slot.Keys + {key};
  }

  lemma SetEffect<K, V>(n: int, size: int, occupied: int, upper: int, flags: seq<Flag>, keys: seq<K>, vals: seq<V>,
                        hash: K -> u32, slot: map<K, int>, key: K, value: V)
    requires Consistent(n, size, occupied, upper, flags, keys, hash, slot) && |vals| == n && key in slot
    ensures 0 <= slot[key] < n
    ensures Stored(vals[slot[key] := value], slot) == Stored(vals, slot)[key := value]
  {
    ConsistentFacts(n, size, occupied, upper, flags, keys, hash, slot);
    var m := Stored(vals[slot[key] := value], slot);
    forall y | y in m && y != key
      ensures m[y] == Stored(vals, slot)[y]
    {
      assert slot[y] != slot[key];
    }
  }

  lemma DelEffect<K, V>(n: int, size: int, occupied: int, upper: int, flags: seq<Flag>, keys: seq<K>, vals: seq<V>,
                        hash: K -> u32, slot: map<K, int>, x: int)
    requires Consistent(n, size, occupied, upper, flags, keys, hash, slot) && |vals| == n
    requires |flags| == |keys| == n
    ensures if LiveAt(flags, x) then
        && size > 0
        && Consistent(n, size - 1, occupied, upper, flags[x := Deleted], keys, hash, slot - {keys[x]})
        && Stored(vals, slot - {keys[x]}) == Without(Stored(vals, slot), slot, x)
      else
        Stored(vals, slot) == Without(Stored(vals, slot), slot, x)
  {
    if LiveAt(flags, x) {
      LiveBucket(flags, keys, hash, slot, x);
      TableRemove(flags, keys, hash, slot, keys[x]);
      OccupiedUpdate(flags, x, Deleted);
      RemoveOne(slot, keys[x]);
    }
  }

  lemma RemoveOne<K, V>(m: map<K, V>, key: K)
    requires key in m
    ensures |m - {key}| == |m| - 1
  {
    var r := m - {key};
    assert m.Keys == r.Keys + {key};
    assert |m.Keys| == |m| && |r.Keys| == |r|;
  }

  /** Keys have buckets of their own, so emptying the bucket of one key removes exactly that key. */
  lemma WithoutKey<K, V>(n: int, size: int, occupied: int, upper: int, flags: seq<Flag>, keys: seq<K>, vals: seq<V>,
                         hash: K -> u32, slot: map<K, int>, key: K)
    requires Consistent(n, size, occupied, upper, flags, keys, hash, slot) && |vals| == n
    ensures key in slot ==> Without(Stored(vals, slot), slot, slot[key]) == Stored(vals, slot) - {key}
    ensures key in slot <==> key in Stored(vals, slot)
    ensures key in slot ==> 0 <= slot[key] < n && Stored(vals, slot)[key] == vals[slot[key]] && flags[slot[key]] == Live
    ensures |Stored(vals, slot)| == size
  {
    StoredStores(vals, slot, Stored(vals, slot));
    StoresSize(vals, slot, Stored(vals, slot));
  }

  lemma StoresSize<K, V>(vals: seq<V>, slot: map<K, int>, m: map<K, V>)
    requires Stores(vals, slot, m)
    ensures |m| == |slot|
  {
    assert |m.Keys| == |m| && |slot.Keys| == |slot|;
  }

  lemma UpperBoundBelow(n: int)
    requires n >= 3
    ensures 0 < UpperBound(n) < n
    ensures 100 * UpperBound(n) - 50 <= 77 * n < 100 * UpperBound(n) + 50
  {
  }
}
