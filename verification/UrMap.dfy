/** The map over the hash table that sessions, reservations, mobile ids and TCP connections are looked up in. */
module UrMap {
  import opened Khash
  import opened Options

  class Map<K(==,0), V(0)> {
    const h: HashTable<K, V>

    ghost predicate Valid()
      reads this, h, h.flags, h.keys, h.vals
    {
      h.Valid()
    }

    ghost function Contents(): map<K, V>
      reads this, h, h.flags, h.keys, h.vals
      requires Valid()
    {
      h.Contents()
    }

    constructor (hash: K -> u32)
      ensures Valid() && Contents() == map[]
      ensures fresh(h) && fresh(h.flags) && fresh(h.keys) && fresh(h.vals)
    {
      h := new HashTable(hash);
    }

    /** What every lookup needs to know about the bucket of a key. */
    lemma BucketFacts(key: K)
      requires Valid()
      ensures key in h.slot <==> key in Contents()
      ensures key in h.slot ==> 0 <= h.slot[key] < h.nBuckets && h.flags[h.slot[key]] == Live
      ensures key in h.slot ==> h.slot[key] < h.vals.Length && Contents()[key] == h.vals[h.slot[key]]
      ensures key in h.slot ==> Without(Contents(), h.slot, h.slot[key]) == Contents() - {key}
      ensures |Contents()| == h.size
    {
      hide Consistent, Stored, Without;
      ConsistentFacts(h.nBuckets, h.size, h.nOccupied, h.upperBound, h.flags[..], h.keys[..], h.hash, h.slot);
      WithoutKey(h.nBuckets, h.size, h.nOccupied, h.upperBound, h.flags[..], h.keys[..], h.vals[..], h.hash, h.slot, key);
    }

    /** ur_map_put: an old entry is deleted before the new one goes in; this never fails. */
    method Put(key: K, value: V) returns (ret: int)
      requires Valid() && |Contents()| <= MAX_SIZE
      modifies h, h.flags, h.keys, h.vals
      ensures Valid() && h.FreshOrSame(old(h.flags), old(h.keys), old(h.vals))
      ensures ret == 0 && Contents() == old(Contents())[key := value]
    {
      hide HashTable.Valid, HashTable.Contents;
      BucketFacts(key);
      var k := h.Get(key);
      if k != h.nBuckets {
        h.Del(k);
      }
      var r;
      k, r := h.Put(key);
      if r == 0 {
        // the source deletes bucket k and reports an error; the key was just deleted, so it is never found here
        assert false;
      }
      h.SetValue(key, k, value);
      return 0;
    }

    /** ur_map_get. */
    method Get(key: K) returns (value: Option<V>)
      requires Valid()
      ensures value == if key in Contents() then Some(Contents()[key]) else None
    {
      BucketFacts(key);
      var k := h.Get(key);
      if k != h.nBuckets && h.flags[k] == Live {
        return Some(h.vals[k]);
      }
      return None;
    }

    /** ur_map_del: the value is handed to the caller's clean-up function. */
    method Del(key: K) returns (removed: Option<V>)
      requires Valid()
      modifies h, h.flags
      ensures Valid() && h.flags == old(h.flags) && h.keys == old(h.keys) && h.vals == old(h.vals)
      ensures removed == if key in old(Contents()) then Some(old(Contents())[key]) else None
      ensures Contents() == old(Contents()) - {key}
    {
      BucketFacts(key);
      var k := h.Get(key);
      if k != h.nBuckets && h.flags[k] == Live {
        removed := Some(h.vals[k]);
        h.Del(k);
      } else {
        removed := None;
      }
    }

    /** ur_map_foreach_arg with the collecting callback of the sweeps: the first limit keys, in bucket order,
        whose entry satisfies a test. */
    method Collect(test: (K, V) -> bool, limit: nat) returns (found: seq<K>)
      requires Valid()
      ensures |found| <= limit
      ensures forall i :: 0 <= i < |found| ==> found[i] in Contents() && test(found[i], Contents()[found[i]])
      ensures forall i, j :: 0 <= i < j < |found| ==> found[i] != found[j]
      ensures |found| < limit ==> forall x :: x in Contents() && test(x, Contents()[x]) ==> x in found
    {
      hide Consistent, Stored;
      ghost var slot, m := h.slot, Contents();
      SlotFacts();
      found := [];
      var k := 0;
      while k != h.nBuckets
        invariant 0 <= k <= h.nBuckets
        invariant |found| <= limit
        invariant forall i :: 0 <= i < |found| ==> found[i] in m && test(found[i], m[found[i]]) && slot[found[i]] < k
        invariant forall i, j :: 0 <= i < j < |found| ==> found[i] != found[j]
        invariant |found| < limit ==> forall x :: x in m && slot[x] < k && test(x, m[x]) ==> x in found
      {
        if h.flags[k] == Live && test(h.keys[k], h.vals[k]) && |found| < limit {
          found := found + [h.keys[k]];
        }
        k := k + 1;
      }
    }

    /** The buckets and the contents of a valid map, bucket by bucket. */
    lemma SlotFacts()
      requires Valid()
      ensures h.flags.Length == h.keys.Length == h.vals.Length == h.nBuckets
      ensures h.slot.Keys == Contents().Keys
      ensures forall x :: x in h.slot ==> 0 <= h.slot[x] < h.nBuckets
      ensures forall x :: x in h.slot ==> h.flags[h.slot[x]] == Live && h.keys[h.slot[x]] == x
      ensures forall x :: x in h.slot ==> h.vals[h.slot[x]] == Contents()[x]
      ensures forall b :: 0 <= b < h.nBuckets && h.flags[b] == Live ==> h.keys[b] in h.slot && h.slot[h.keys[b]] == b
    {
      ConsistentFacts(h.nBuckets, h.size, h.nOccupied, h.upperBound, h.flags[..], h.keys[..], h.hash, h.slot);
    }

    /** ur_map_size. */
    method Size() returns (n: int)
      requires Valid()
      ensures n == |Contents()|
    {
      hide Consistent, Stored;
      SizeFacts();
      n := h.size;
    }

    lemma SizeFacts()
      requires Valid()
      ensures |Contents()| == h.size
    {
      ConsistentFacts(h.nBuckets, h.size, h.nOccupied, h.upperBound, h.flags[..], h.keys[..], h.hash, h.slot);
      StoredStores(h.vals[..], h.slot, Contents());
      StoresSize(h.vals[..], h.slot, Contents());
    }
  }

  // ---------------------------------------------------------------- whole runs

  datatype Op<K, V> = PutOp(key: K, value: V) | GetOp(key: K) | DelOp(key: K)

  /** What a plain finite map answers to a run of operations, and what it holds afterwards. */
  ghost function Answers<K, V>(m: map<K, V>, ops: seq<Op<K, V>>): (r: (seq<Option<V>>, map<K, V>))
    ensures |r.0| == |ops|
  {
    if ops == [] then ([], m)
    else
      var (answers, m1) := Answers(m, ops[..|ops| - 1]);
      var op := ops[|ops| - 1];
      var seen := if op.key in m1 then Some(m1[op.key]) else None;
      match op
      case PutOp(key, value) => (answers + [None], m1[key := value])
      case GetOp(key) => (answers + [seen], m1)
      case DelOp(key) => (answers + [seen], m1 - {key})
  }

  ghost function Puts<K, V>(ops: seq<Op<K, V>>): nat {
    if ops == [] then 0 else Puts(ops[..|ops| - 1]) + if ops[|ops| - 1].PutOp? then 1 else 0
  }

  /** For every sequence of operations the hash table gives the answers of a finite map. */
  method Run<K(==,0), V(0)>(m: Map<K, V>, ops: seq<Op<K, V>>) returns (answers: seq<Option<V>>)
    requires m.Valid() && |m.Contents()| + Puts(ops) <= MAX_SIZE
    modifies m.h, m.h.flags, m.h.keys, m.h.vals
    ensures m.Valid()
    ensures (answers, m.Contents()) == Answers(old(m.Contents()), ops)
  {
    hide Map.Valid, Map.Contents;
    ghost var m0 := m.Contents();
    answers := [];
    for i := 0 to |ops|
      invariant m.Valid() && m.h.FreshOrSame(old(m.h.flags), old(m.h.keys), old(m.h.vals))
      invariant (answers, m.Contents()) == Answers(m0, ops[..i])
      invariant |m.Contents()| + Puts(ops) <= MAX_SIZE + Puts(ops[..i])
    {
      PutsMono(ops, i + 1);
      assert ops[..i + 1][..i] == ops[..i];
      match ops[i] {
        case PutOp(key, value) =>
          var _ := m.Put(key, value);
          answers := answers + [None];
        case GetOp(key) =>
          var v := m.Get(key);
          answers := answers + [v];
        case DelOp(key) =>
          var v := m.Del(key);
          answers := answers + [v];
      }
    }
    assert ops[..|ops|] == ops;
  }

  lemma {:induction false} PutsMono<K, V>(ops: seq<Op<K, V>>, i: nat)
    requires i <= |ops|
    ensures Puts(ops[..i]) <= Puts(ops)
    decreases |ops|
  {
    if i < |ops| {
      assert ops[..|ops| - 1][..i] == ops[..i];
      PutsMono(ops[..|ops| - 1], i);
    } else {
      assert ops[..i] == ops;
    }
  }

  /** The last put or delete of a key in a run. */
  ghost function LastWrite<K, V>(m: map<K, V>, ops: seq<Op<K, V>>, key: K): Option<V> {
    if ops == [] then
      if key in m then Some(m[key]) else None
    else
      match ops[|ops| - 1]
      case PutOp(k, v) => if k == key then Some(v) else LastWrite(m, ops[..|ops| - 1], key)
      case DelOp(k) => if k == key then None else LastWrite(m, ops[..|ops| - 1], key)
      case GetOp(_) => LastWrite(m, ops[..|ops| - 1], key)
  }

  /** Every lookup of a run answers with the latest value written under its key. */
  lemma {:induction false} GetAnswersLastWrite<K, V>(m: map<K, V>, ops: seq<Op<K, V>>, i: nat)
    requires i < |ops| && !ops[i].PutOp?
    ensures Answers(m, ops).0[i] == LastWrite(m, ops[..i], ops[i].key)
    decreases |ops|
  {
    var shorter := ops[..|ops| - 1];
    if i < |ops| - 1 {
      assert shorter[..i] == ops[..i];
      GetAnswersLastWrite(m, shorter, i);
    } else {
      HoldsLastWrite(m, shorter, ops[i].key);
    }
  }

  lemma {:induction false} HoldsLastWrite<K, V>(m: map<K, V>, ops: seq<Op<K, V>>, key: K)
    ensures var after := Answers(m, ops).1;
            LastWrite(m, ops, key) == if key in after then Some(after[key]) else None
  {
    if ops != [] {
      HoldsLastWrite(m, ops[..|ops| - 1], key);
    }
  }
}
