/**
 The small map from port numbers to channels that every permission owns: eight buckets of three main
 slots and a growing list of extra ones.
 */
module LmMap {
  import opened Slots
  import opened Options

  // A slot; a zero value of the source is None here.
  datatype Entry<V> = Entry(key: int, value: Option<V>)

  type Table<V> = seq<seq<Entry<V>>>

  const HASH_SIZE := 8
  const ARRAY_SIZE := 3

  function Index(key: nat): nat {
    key % HASH_SIZE
  }

  predicate Free<V>(e: Entry<V>) {
    e.key == 0 || e.value.None?
  }

  function Zeroed<V>(): Entry<V> {
    Entry(0, None)
  }

  function EmptyTable<V>(): Table<V> {
    seq(HASH_SIZE, _ => [Zeroed(), Zeroed(), Zeroed()])
  }

  // ---------------------------------------------------------------- what each operation computes

  /** Where lm_map_put stops: at the key or a free slot among the main slots, at a free slot among the extra
      ones, or behind the last. */
  function PutSlot<V(==)>(b: seq<Entry<V>>, key: nat): (i: nat)
    requires |b| >= ARRAY_SIZE
    ensures i <= |b|
  {
    var m := First(b[..ARRAY_SIZE], (e: Entry<V>) => e.key == key || Free(e));
    if m < ARRAY_SIZE then m else ARRAY_SIZE + First(b[ARRAY_SIZE..], (e: Entry<V>) => Free(e))
  }

  /** Where lm_map_get and lm_map_del stop; only main slots have their value checked. */
  function GetSlot<V>(b: seq<Entry<V>>, key: nat): (i: nat)
    requires |b| >= ARRAY_SIZE
    ensures i <= |b|
  {
    var m := First(b[..ARRAY_SIZE], (e: Entry<V>) => e.key == key && e.value.Some?);
    if m < ARRAY_SIZE then m else ARRAY_SIZE + First(b[ARRAY_SIZE..], (e: Entry<V>) => e.key == key)
  }

  ghost predicate Shaped<V>(t: Table<V>) {
    |t| == HASH_SIZE && forall i :: 0 <= i < HASH_SIZE ==> |t[i]| >= ARRAY_SIZE
  }

  function Put<V(==)>(t: Table<V>, key: nat, value: V): (r: (Table<V>, int))
    requires Shaped(t)
    ensures Shaped(r.0)
  {
    if key == 0 then (t, -1)
    else
      var b := t[Index(key)];
      var i := PutSlot(b, key);
      if i < ARRAY_SIZE && b[i].key == key then
        (t, if b[i].value == Some(value) then 0 else -1)
      else
        (Store(t, Handle(Index(key), i), Entry(key, Some(value))), 0)
  }

  function Get<V>(t: Table<V>, key: nat): Option<V>
    requires Shaped(t)
  {
    if key == 0 then None
    else
      var b := t[Index(key)];
      var i := GetSlot(b, key);
      if i < |b| then b[i].value else None
  }

  function Del<V>(t: Table<V>, key: nat): (t': Table<V>)
    requires Shaped(t)
    ensures Shaped(t')
  {
    if key == 0 then t
    else
      var b := t[Index(key)];
      var i := GetSlot(b, key);
      if i < |b| then Store(t, Handle(Index(key), i), Zeroed()) else t
  }

  // ---------------------------------------------------------------- when it is a map

  /** No key is stored twice, every key is in its bucket, and a slot is either used or zeroed. */
  ghost predicate Distinct<V>(t: Table<V>) {
    && Shaped(t)
    && (forall h: Handle :: Has(t, h) ==> (At(t, h).key == 0 <==> At(t, h).value.None?))
    && (forall h: Handle :: Has(t, h) && At(t, h).key != 0 ==> At(t, h).key > 0 && Index(At(t, h).key) == h.bucket)
    && (forall g: Handle, h: Handle :: Has(t, g) && Has(t, h) && At(t, g).key == At(t, h).key != 0 ==> g == h)
  }

  /** The slot of a key is the one that lookups find. */
  lemma GetAt<V>(t: Table<V>, h: Handle)
    requires Distinct(t) && Has(t, h) && At(t, h).key != 0
    ensures Get(t, At(t, h).key) == At(t, h).value && GetSlot(t[h.bucket], At(t, h).key) == h.slot
  {
    var b, key := t[h.bucket], At(t, h).key;
    var i := GetSlot(b, key);
    if h.slot < ARRAY_SIZE {
      assert b[..ARRAY_SIZE][h.slot] == b[h.slot];
    } else {
      assert b[ARRAY_SIZE..][h.slot - ARRAY_SIZE] == b[h.slot];
    }
    assert i < |b|;
    assert At(t, Handle(h.bucket, i)).key == key;
  }

  lemma GetFinds<V>(t: Table<V>, key: nat) returns (h: Handle)
    requires Distinct(t) && Get(t, key).Some?
    ensures Has(t, h) && At(t, h) == Entry(key, Get(t, key)) && h == Handle(Index(key), GetSlot(t[Index(key)], key))
  {
    var b := t[Index(key)];
    h := Handle(Index(key), GetSlot(b, key));
  }

  lemma GetNone<V>(t: Table<V>, key: nat, h: Handle)
    requires Distinct(t) && Get(t, key).None? && Has(t, h) && key != 0
    ensures At(t, h).key != key
  {
    if At(t, h).key == key {
      GetAt(t, h);
    }
  }

  lemma EmptyTableIsMap<V>(key: nat)
    ensures Distinct(EmptyTable<V>()) && Get(EmptyTable<V>(), key) == None
  {
    var t := EmptyTable<V>();
    if Get(t, key).Some? {
      var h := GetFinds(t, key);
    }
  }

  /** Two tables over the same keys and values answer alike. */
  lemma SameEntries<V>(t: Table<V>, t': Table<V>, key: nat)
    requires Distinct(t) && Distinct(t')
    requires forall h: Handle :: Has(t, h) && At(t, h).key == key ==> Has(t', h) && At(t', h) == At(t, h)
    requires forall h: Handle :: Has(t', h) && At(t', h).key == key ==> Has(t, h) && At(t, h) == At(t', h)
    ensures Get(t', key) == Get(t, key)
  {
    if Get(t, key).Some? {
      var h := GetFinds(t, key);
      GetAt(t', h);
    } else if Get(t', key).Some? {
      var h := GetFinds(t', key);
      GetAt(t, h);
    }
  }

  /** The put slot of an absent key is free. */
  lemma PutSlotFree<V>(t: Table<V>, key: nat)
    requires Distinct(t) && key != 0 && Get(t, key).None?
    ensures var b := t[Index(key)]; var i := PutSlot(b, key); i < |b| ==> b[i].key == 0
  {
    var b := t[Index(key)];
    var i := PutSlot(b, key);
    if i < |b| {
      assert At(t, Handle(Index(key), i)) == b[i];
      GetNone(t, key, Handle(Index(key), i));
    }
  }

  /** Putting an absent key makes the table a map with that one key more. */
  lemma PutAbsent<V>(t: Table<V>, key: nat, value: V, other: nat)
    requires Distinct(t) && key != 0 && Get(t, key).None?
    ensures Put(t, key, value).1 == 0 && Distinct(Put(t, key, value).0)
    ensures Get(Put(t, key, value).0, other) == if other == key then Some(value) else Get(t, other)
  {
    PutSlotFree(t, key);
    var h := Handle(Index(key), PutSlot(t[Index(key)], key));
    var t' := Put(t, key, value).0;
    assert t' == Store(t, h, Entry(key, Some(value)));
    forall g: Handle | Has(t, g)
      ensures At(t, g).key != key
    {
      GetNone(t, key, g);
    }
    assert Distinct(t');
    if other == key {
      GetAt(t', h);
    } else if other != 0 {
      SameEntries(t, t', other);
    }
  }

  /** A put of a key that is met in a main slot before any free one stores nothing, and succeeds only for the value that
      is there; key zero is refused. */
  lemma PutPresent<V>(t: Table<V>, key: nat, value: V, i: nat)
    requires Shaped(t)
    ensures Put(t, 0, value) == (t, -1)
    ensures key != 0 && i < 3 && t[key % 8][i].key == key
            && (forall j :: 0 <= j < i ==> t[key % 8][j].key != key && t[key % 8][j].key != 0 && t[key % 8][j].value.Some?) ==>
              Put(t, key, value) == (t, if t[key % 8][i].value == Some(value) then 0 else -1)
  {
    if key != 0 && i < 3 && t[key % 8][i].key == key
       && (forall j :: 0 <= j < i ==> t[key % 8][j].key != key && t[key % 8][j].key != 0 && t[key % 8][j].value.Some?) {
      var b := t[key % 8][..3];
      assert forall j :: 0 <= j < 3 ==> b[j] == t[key % 8][j];
      FirstIs(b, (e: Entry<V>) => e.key == key || Free(e), i);
    }
  }

  lemma NoSlotMeansNoChange<V>(t: Table<V>, key: nat)
    requires Distinct(t) && Get(t, key).None?
    ensures Del(t, key) == t
  {
    if key != 0 && GetSlot(t[Index(key)], key) < |t[Index(key)]| {
      GetNone(t, key, Handle(Index(key), GetSlot(t[Index(key)], key)));
    }
  }

  /** Deleting removes exactly the given key. */
  lemma DelRemoves<V>(t: Table<V>, key: nat, other: nat)
    requires Distinct(t)
    ensures Distinct(Del(t, key))
    ensures Get(Del(t, key), other) == if other == key then None else Get(t, other)
  {
    var t' := Del(t, key);
    if Get(t, key).Some? {
      var h := GetFinds(t, key);
      assert t' == Store(t, h, Zeroed());
      assert Distinct(t');
    } else {
      NoSlotMeansNoChange(t, key);
    }
    if other == key {
      if Get(t', key).Some? {
        var h' := GetFinds(t', key);
        GetAt(t, h');
        assert false;
      }
    } else if other != 0 {
      SameEntries(t, t', other);
    }
  }

  /** lm_map_put takes the first free slot before it looks for the key further on: storing a key keeps the table
      a map exactly when the key is absent, or sits in a main slot ahead of every free one. */
  lemma PutKeepsMapIff<V>(t: Table<V>, key: nat, value: V)
    requires Distinct(t) && key != 0
    ensures Distinct(Put(t, key, value).0) <==>
              Get(t, key).None? || (PutSlot(t[Index(key)], key) < ARRAY_SIZE &&
                                    t[Index(key)][PutSlot(t[Index(key)], key)].key == key)
  {
    if Get(t, key).None? {
      PutAbsent(t, key, value, key);
    } else {
      var g := GetFinds(t, key);
      var h := Handle(Index(key), PutSlot(t[Index(key)], key));
      var t' := Put(t, key, value).0;
      if Has(t, h) && h.slot < ARRAY_SIZE && At(t, h).key == key {
        assert t' == t;
      } else {
        assert t' == Store(t, h, Entry(key, Some(value)));
        if g == h && h.slot >= ARRAY_SIZE {
          assert false;
        }
        assert At(t', g).key == key && At(t', h).key == key;
      }
    }
  }

  /** A put over a stale slot in front of the key: the old value comes back after the next delete. */
  lemma StaleValueReturns()
    ensures var t0 := Put(Put(EmptyTable<int>(), 8, 1).0, 16, 2).0;
            var t1 := Put(Del(t0, 8), 16, 3).0;
            Get(t1, 16) == Some(3) && Get(Del(t1, 16), 16) == Some(2)
  {
    var e := Zeroed<int>();
    var a := Put(EmptyTable<int>(), 8, 1).0;
    assert a[0] == [Entry(8, Some(1)), e, e];
    assert a[0][..3][0] == Entry(8, Some(1)) && a[0][..3][1] == e;
    var t0 := Put(a, 16, 2).0;
    assert t0[0] == [Entry(8, Some(1)), Entry(16, Some(2)), e];
    assert t0[0][..3][0] == Entry(8, Some(1));
    var d := Del(t0, 8);
    assert d[0] == [e, Entry(16, Some(2)), e];
    assert d[0][..3][0] == e;
    var t1 := Put(d, 16, 3).0;
    assert t1[0] == [Entry(16, Some(3)), Entry(16, Some(2)), e];
    assert t1[0][..3][0] == Entry(16, Some(3));
    var c := Del(t1, 16);
    assert c[0] == [e, Entry(16, Some(2)), e];
    assert c[0][..3][0] == e && c[0][..3][1] == Entry(16, Some(2));
  }

  // ---------------------------------------------------------------- iteration

  /** The values that lm_map_foreach visits, in slot order. */
  function BucketValues<V>(b: seq<Entry<V>>): seq<V> {
    if b == [] then []
    else
      (if b[0].key != 0 && b[0].value.Some? then [b[0].value.value] else []) + BucketValues(b[1..])
  }

  function Values<V>(t: Table<V>): seq<V> {
    if t == [] then [] else BucketValues(t[0]) + Values(t[1..])
  }

  lemma {:induction false} InBucketValues<V>(b: seq<Entry<V>>, v: V)
    ensures v in BucketValues(b) <==> exists i :: 0 <= i < |b| && b[i].key != 0 && b[i].value == Some(v)
  {
    if b != [] {
      InBucketValues(b[1..], v);
      if v in BucketValues(b[1..]) {
        var i :| 0 <= i < |b[1..]| && b[1..][i].key != 0 && b[1..][i].value == Some(v);
        assert b[i + 1] == b[1..][i];
      }
      if i :| 0 < i < |b| && b[i].key != 0 && b[i].value == Some(v) {
        assert b[1..][i - 1] == b[i];
      }
    }
  }

  lemma {:induction false} InValues<V>(t: Table<V>, v: V)
    ensures v in Values(t) <==> exists h: Handle :: Has(t, h) && At(t, h).key != 0 && At(t, h).value == Some(v)
  {
    if t != [] {
      InBucketValues(t[0], v);
      InValues(t[1..], v);
      if v in BucketValues(t[0]) {
        var i :| 0 <= i < |t[0]| && t[0][i].key != 0 && t[0][i].value == Some(v);
        assert At(t, Handle(0, i)).value == Some(v);
      }
      if v in Values(t[1..]) {
        var h: Handle :| Has(t[1..], h) && At(t[1..], h).key != 0 && At(t[1..], h).value == Some(v);
        assert At(t, Handle(h.bucket + 1, h.slot)) == At(t[1..], h);
      }
      if h: Handle :| Has(t, h) && At(t, h).key != 0 && At(t, h).value == Some(v) {
        if h.bucket > 0 {
          assert At(t[1..], Handle(h.bucket - 1, h.slot)) == At(t, h);
        }
      }
    }
  }

  /** Iteration visits exactly the values that some key looks up. */
  lemma ValuesAreLookups<V>(t: Table<V>, v: V)
    requires Distinct(t)
    ensures v in Values(t) <==> exists key: nat :: Get(t, key) == Some(v)
  {
    InValues(t, v);
    if v in Values(t) {
      var h: Handle :| Has(t, h) && At(t, h).key != 0 && At(t, h).value == Some(v);
      GetAt(t, h);
    }
    if key: nat :| Get(t, key) == Some(v) {
      var h := GetFinds(t, key);
    }
  }
}
