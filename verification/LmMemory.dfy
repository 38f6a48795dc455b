/** The memory of the small map: main slots in place, extra slots behind two arrays of pointers, and the loops of
    lm_map_put, lm_map_get and lm_map_del over them. */
module LmMemory {
  import opened LmMap
  import opened Slots
  import opened Options

  // An extra slot: where its two pointers lead; None is a null pointer.
  datatype Extra<V> = Extra(keyp: Option<int>, valuep: Option<Option<V>>)

  datatype Bucket<V> = Bucket(main: seq<Entry<V>>, extra: seq<Extra<V>>)

  predicate Whole<V>(e: Extra<V>) {
    e.keyp.Some? && e.valuep.Some?
  }

  ghost predicate AllWhole<V>(es: seq<Extra<V>>) {
    forall i :: 0 <= i < |es| ==> Whole(es[i])
  }

  /** No pointer of any bucket is null. */
  ghost predicate NoNull<V>(bs: seq<Bucket<V>>) {
    forall i :: 0 <= i < |bs| ==> AllWhole(bs[i].extra)
  }

  function Pair<V>(e: Extra<V>): Entry<V>
    requires Whole(e)
  {
    Entry(e.keyp.value, e.valuep.value)
  }

  ghost function SlotsOf<V>(b: Bucket<V>): seq<Entry<V>>
    requires AllWhole(b.extra)
  {
    b.main + seq(|b.extra|, i requires 0 <= i < |b.extra| => Pair(b.extra[i]))
  }

  /** The table of entries that the pointers lead to. */
  ghost function TableOf<V>(bs: seq<Bucket<V>>): Table<V>
    requires NoNull(bs)
  {
    seq(|bs|, i requires 0 <= i < |bs| => SlotsOf(bs[i]))
  }

  function EmptyBuckets<V>(): seq<Bucket<V>> {
    seq(HASH_SIZE, _ => Bucket([Zeroed(), Zeroed(), Zeroed()], []))
  }

  /** A put reads a null pointer: it passes the main slots, and a slot with a null pointer comes before every free
      extra one. */
  ghost predicate ReadsNull<V>(b: Bucket<V>, key: nat) {
    && (forall m :: 0 <= m < |b.main| ==> b.main[m].key != key && !Free(b.main[m]))
    && exists i :: 0 <= i < |b.extra| && !Whole(b.extra[i]) && forall j :: 0 <= j < i ==> UsedExtra(b.extra[j])
  }

  ghost predicate UsedExtra<V>(e: Extra<V>) {
    Whole(e) && !Free(Pair(e))
  }

  class Map<V(==)> {
    var buckets: seq<Bucket<V>>
    var fault: bool  // a null pointer has been read

    ghost predicate Shape()
      reads this
    {
      |buckets| == HASH_SIZE && forall i :: 0 <= i < HASH_SIZE ==> |buckets[i].main| == ARRAY_SIZE
    }

    ghost predicate Valid()
      reads this
    {
      Shape() && NoNull(buckets) && !fault
    }

    ghost function T(): Table<V>
      reads this
      requires Valid()
      ensures Shaped(T())
    {
      TableOf(buckets)
    }

    /** lm_map_init. */
    constructor ()
      ensures Valid() && T() == EmptyTable()
    {
      buckets, fault := EmptyBuckets(), false;
      new;
      EmptyOk<V>();
    }

    /** lm_map_put; the last branch of its second loop means to repair a slot with a null pointer, but reads through
        that pointer first. */
    method PutEntry(key: nat, value: V) returns (ret: int)
      requires Shape() && !fault
      modifies this
      ensures Shape() && (fault <==> key != 0 && ReadsNull(old(buckets)[Index(key)], key))
      ensures old(Valid()) ==> Valid() && (T(), ret) == Put(old(T()), key, value)
    {
      if key == 0 {
        return -1;
      }
      ghost var before := buckets;
      var k := Index(key);
      var b := buckets[k];
      var m := Scan(b.main, (e: Entry<V>) => e.key == key || Free(e));
      PutScans(b, key, m);
      if m < ARRAY_SIZE {
        if b.main[m].key == key {
          return if b.main[m].value == Some(value) then 0 else -1;
        }
        buckets := buckets[k := b.(main := b.main[m := Entry(key, Some(value))])];
        StoreMain(before, k, m, Entry(key, Some(value)));
        return 0;
      }
      var i := 0;
      while i < |b.extra|
        invariant i <= |b.extra| && forall j :: 0 <= j < i ==> UsedExtra(b.extra[j])
      {
        var e := b.extra[i];
        if e.keyp.Some? && e.valuep.Some? {
          if e.keyp.value == 0 || e.valuep.value.None? {
            buckets := buckets[k := b.(extra := b.extra[i := Extra(Some(key), Some(Some(value)))])];
            StoreExtra(before, k, key, i, Entry(key, Some(value)));
            return 0;
          }
        } else {
          // the key is read through keyp; if that is no null pointer, valuep is one, and the value is read through it
          fault := true;
          return -1;
        }
        i := i + 1;
      }
      buckets := buckets[k := b.(extra := b.extra + [Extra(Some(key), Some(Some(value)))])];
      StoreExtra(before, k, key, i, Entry(key, Some(value)));
      return 0;
    }

    /** lm_map_get passes over slots with a null pointer. */
    method GetEntry(key: nat) returns (value: Option<V>)
      requires Valid()
      ensures value == Get(T(), key)
    {
      if key == 0 {
        return None;
      }
      var b := buckets[Index(key)];
      var m := Scan(b.main, (e: Entry<V>) => e.key == key && e.value.Some?);
      var x := Scan(b.extra, (e: Extra<V>) => Whole(e) && e.keyp.value == key);
      GetScans(b, key, m, x);
      if m < ARRAY_SIZE {
        return b.main[m].value;
      }
      return if x < |b.extra| then b.extra[x].valuep.value else None;
    }

    /** lm_map_del. */
    method DelEntry(key: nat) returns (found: bool)
      requires Valid()
      modifies this
      ensures Valid() && T() == Del(old(T()), key)
      ensures found <==> key != 0 && var b := old(T())[Index(key)]; GetSlot(b, key) < |b|
    {
      if key == 0 {
        return false;
      }
      ghost var before := buckets;
      var k := Index(key);
      var b := buckets[k];
      var m := Scan(b.main, (e: Entry<V>) => e.key == key && e.value.Some?);
      var x := Scan(b.extra, (e: Extra<V>) => Whole(e) && e.keyp.value == key);
      GetScans(b, key, m, x);
      if m < ARRAY_SIZE {
        buckets := buckets[k := b.(main := b.main[m := Zeroed()])];
        StoreMain(before, k, m, Zeroed());
        return true;
      }
      if x < |b.extra| {
        buckets := buckets[k := b.(extra := b.extra[x := Extra(Some(0), Some(None))])];
        StoreAt(before, k, x, Zeroed());
        return true;
      }
      return false;
    }
  }

  lemma EmptyOk<V>()
    ensures NoNull(EmptyBuckets<V>()) && TableOf(EmptyBuckets<V>()) == EmptyTable()
  {
    var bs := EmptyBuckets<V>();
    forall k | 0 <= k < HASH_SIZE
      ensures SlotsOf(bs[k]) == EmptyTable<V>()[k]
    {
      assert SlotsOf(bs[k]) == bs[k].main;
    }
  }

  // ---------------------------------------------------------------- the loops stop where the specification says

  lemma PutScans<V>(b: Bucket<V>, key: nat, m: nat)
    requires |b.main| == ARRAY_SIZE && m == First(b.main, (e: Entry<V>) => e.key == key || Free(e))
    ensures m < ARRAY_SIZE ==> !ReadsNull(b, key)
    ensures AllWhole(b.extra) ==> !ReadsNull(b, key)
    ensures AllWhole(b.extra) && m < ARRAY_SIZE ==> PutSlot(SlotsOf(b), key) == m && SlotsOf(b)[m] == b.main[m]
    ensures m == ARRAY_SIZE ==> forall j :: 0 <= j < |b.main| ==> b.main[j].key != key && !Free(b.main[j])
  {
    if AllWhole(b.extra) {
      assert SlotsOf(b)[..ARRAY_SIZE] == b.main;
    }
  }

  lemma PutExtra<V>(b: Bucket<V>, key: nat, i: nat)
    requires |b.main| == ARRAY_SIZE && AllWhole(b.extra) && i <= |b.extra|
    requires forall j :: 0 <= j < |b.main| ==> b.main[j].key != key && !Free(b.main[j])
    requires forall j :: 0 <= j < i ==> UsedExtra(b.extra[j])
    requires i < |b.extra| ==> Free(Pair(b.extra[i]))
    ensures PutSlot(SlotsOf(b), key) == ARRAY_SIZE + i
  {
    assert SlotsOf(b)[..ARRAY_SIZE] == b.main;
    FirstIs(b.main, (e: Entry<V>) => e.key == key || Free(e), ARRAY_SIZE);
    FirstIs(SlotsOf(b)[ARRAY_SIZE..], (e: Entry<V>) => Free(e), i);
  }

  lemma GetScans<V>(b: Bucket<V>, key: nat, m: nat, x: nat)
    requires |b.main| == ARRAY_SIZE && AllWhole(b.extra)
    requires m == First(b.main, (e: Entry<V>) => e.key == key && e.value.Some?)
    requires x == First(b.extra, (e: Extra<V>) => Whole(e) && e.keyp.value == key)
    ensures GetSlot(SlotsOf(b), key) == if m < ARRAY_SIZE then m else ARRAY_SIZE + x
    ensures |SlotsOf(b)| == ARRAY_SIZE + |b.extra|
    ensures m < ARRAY_SIZE ==> SlotsOf(b)[m] == b.main[m]
    ensures x < |b.extra| ==> SlotsOf(b)[ARRAY_SIZE + x] == Pair(b.extra[x])
  {
    assert SlotsOf(b)[..ARRAY_SIZE] == b.main;
    FirstIs(SlotsOf(b)[ARRAY_SIZE..], (e: Entry<V>) => e.key == key, x);
  }

  // ---------------------------------------------------------------- a store through a pointer is a store in the table

  lemma StoreMain<V>(bs: seq<Bucket<V>>, k: nat, m: nat, x: Entry<V>)
    requires k < |bs| && m < |bs[k].main|
    ensures var bs' := bs[k := bs[k].(main := bs[k].main[m := x])];
            NoNull(bs) ==> NoNull(bs') && TableOf(bs') == Store(TableOf(bs), Handle(k, m), x)
  {
    if NoNull(bs) {
      var bs' := bs[k := bs[k].(main := bs[k].main[m := x])];
      assert SlotsOf(bs'[k]) == SlotsOf(bs[k])[m := x];
      assert TableOf(bs') == Store(TableOf(bs), Handle(k, m), x);
    }
  }

  lemma StoreAt<V>(bs: seq<Bucket<V>>, k: nat, i: nat, x: Entry<V>)
    requires k < |bs| && i <= |bs[k].extra| && |bs[k].main| == ARRAY_SIZE
    ensures var es, y := bs[k].extra, Extra(Some(x.key), Some(x.value));
            var bs' := bs[k := bs[k].(extra := if i < |es| then es[i := y] else es + [y])];
            NoNull(bs) ==> NoNull(bs') && TableOf(bs') == Store(TableOf(bs), Handle(k, ARRAY_SIZE + i), x)
  {
    if NoNull(bs) {
      var es, y := bs[k].extra, Extra(Some(x.key), Some(x.value));
      var bs' := bs[k := bs[k].(extra := if i < |es| then es[i := y] else es + [y])];
      var b := SlotsOf(bs[k]);
      assert SlotsOf(bs'[k]) == if i < |es| then b[ARRAY_SIZE + i := x] else b + [x];
      assert TableOf(bs') == Store(TableOf(bs), Handle(k, ARRAY_SIZE + i), x);
    }
  }

  lemma StoreExtra<V>(bs: seq<Bucket<V>>, k: nat, key: nat, i: nat, x: Entry<V>)
    requires k < |bs| && i <= |bs[k].extra| && |bs[k].main| == ARRAY_SIZE
    requires forall j :: 0 <= j < |bs[k].main| ==> bs[k].main[j].key != key && !Free(bs[k].main[j])
    requires forall j :: 0 <= j < i ==> UsedExtra(bs[k].extra[j])
    requires i < |bs[k].extra| ==> Whole(bs[k].extra[i]) && Free(Pair(bs[k].extra[i]))
    ensures var es, y := bs[k].extra, Extra(Some(x.key), Some(x.value));
            var bs' := bs[k := bs[k].(extra := if i < |es| then es[i := y] else es + [y])];
            NoNull(bs) ==> NoNull(bs') && TableOf(bs') == Store(TableOf(bs), Handle(k, ARRAY_SIZE + i), x)
    ensures NoNull(bs) ==> PutSlot(TableOf(bs)[k], key) == ARRAY_SIZE + i
    ensures !ReadsNull(bs[k], key)
  {
    StoreAt(bs, k, i, x);
    if NoNull(bs) {
      PutExtra(bs[k], key, i);
    }
  }

  // ---------------------------------------------------------------- whole runs

  datatype Op<V> = PutOp(key: nat, value: V) | GetOp(key: nat) | DelOp(key: nat)

  ghost function After<V>(ops: seq<Op<V>>): (t: Table<V>)
    ensures Shaped(t)
  {
    if ops == [] then EmptyTable()
    else
      var t := After(ops[..|ops| - 1]);
      match ops[|ops| - 1]
      case PutOp(key, value) => Put(t, key, value).0
      case GetOp(_) => t
      case DelOp(key) => Del(t, key)
  }

  /** Over every run from an empty map, present keys put again included, no null pointer is ever stored or read. */
  method Run<V(==)>(ops: seq<Op<V>>) returns (m: Map<V>)
    ensures fresh(m) && m.Valid() && m.T() == After(ops)
  {
    m := new Map();
    for i := 0 to |ops|
      invariant fresh(m) && m.Valid() && m.T() == After(ops[..i])
    {
      assert ops[..i + 1][..i] == ops[..i];
      match ops[i] {
        case PutOp(key, value) => var _ := m.PutEntry(key, value);
        case GetOp(key) => var _ := m.GetEntry(key);
        case DelOp(key) => var _ := m.DelEntry(key);
      }
    }
    assert ops[..|ops|] == ops;
  }
}
