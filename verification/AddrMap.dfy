/**
 The map from transport addresses to sessions: 1024 lists of four main slots and a growing tail, where a
 slot is in use while its value is not zero.
 */
module AddrMap {
  import opened Slots
  import opened Options
  import opened IoAddr

  const MAP_SIZE := 1024
  const ARRAY_SIZE := 4

  datatype Elem = Elem(key: Addr, value: nat)

  type Lists = seq<seq<Elem>>

  function Zeroed(): Elem {
    Elem(ANY, 0)
  }

  function EmptyLists(): Lists {
    seq(MAP_SIZE, _ => [Zeroed(), Zeroed(), Zeroed(), Zeroed()])
  }

  predicate Uses(e: Elem, key: Addr) {
    e.value != 0 && AddrEq(e.key, key)
  }

  /** Every used slot is in the list its key hashes to, and no key is used twice. */
  ghost predicate Distinct(hash: Addr -> nat, t: Lists) {
    && |t| == MAP_SIZE
    && (forall i :: 0 <= i < MAP_SIZE ==> |t[i]| >= ARRAY_SIZE)
    && (forall h: Handle :: Has(t, h) && At(t, h).value != 0 && !At(t, h).key.ip.NoFamily? ==>
          hash(At(t, h).key) % MAP_SIZE == h.bucket)
    && (forall g: Handle, h: Handle :: Has(t, g) && Has(t, h) && At(t, h).value != 0 && Uses(At(t, g), At(t, h).key) ==> g == h)
  }

  /** addr_list_get in the list of a key. */
  function Find(hash: Addr -> nat, t: Lists, key: Addr): Option<Handle>
    requires |t| == MAP_SIZE
  {
    var b := hash(key) % MAP_SIZE;
    var i := First(t[b], (e: Elem) => Uses(e, key));
    if i < |t[b]| then Some(Handle(b, i)) else None
  }

  lemma FindIff(hash: Addr -> nat, t: Lists, key: Addr, h: Handle)
    requires Distinct(hash, t)
    ensures Find(hash, t, key) == Some(h) <==> Has(t, h) && Uses(At(t, h), key)
  {
    var r := Find(hash, t, key);
    if r.Some? {
      assert Uses(At(t, r.value), key);
    }
    if Has(t, h) && Uses(At(t, h), key) {
      assert t[h.bucket][h.slot] == At(t, h);
      assert At(t, h).key == key;
    }
  }

  /** The value stored under a key; zero when there is none. */
  ghost function Value(hash: Addr -> nat, t: Lists, key: Addr): nat
    requires |t| == MAP_SIZE
  {
    match Find(hash, t, key)
    case None => 0
    case Some(h) => if Has(t, h) then At(t, h).value else 0
  }

  /** Changing one slot that is free, or already used by its new key, changes the value of that key only. */
  lemma StoreValue(hash: Addr -> nat, t: Lists, h: Handle, e: Elem, key: Addr)
    requires Distinct(hash, t) && h.bucket < |t| && h.slot <= |t[h.bucket]|
    requires hash(e.key) % MAP_SIZE == h.bucket
    requires if Has(t, h) && At(t, h).value != 0 then At(t, h).key == e.key else Find(hash, t, e.key).None?
    ensures Distinct(hash, Store(t, h, e))
    ensures Value(hash, Store(t, h, e), key) == if AddrEq(e.key, key) then e.value else Value(hash, t, key)
  {
    hide Find;
    var t' := Store(t, h, e);
    forall g: Handle | Has(t, g) && Uses(At(t, g), e.key)
      ensures g == h
    {
      FindIff(hash, t, e.key, g);
      FindIff(hash, t, e.key, h);
    }
    assert Distinct(hash, t');
    var r, r' := Find(hash, t, key), Find(hash, t', key);
    if r.Some? {
      FindIff(hash, t, key, r.value);
      FindIff(hash, t', key, r.value);
    }
    if r'.Some? {
      FindIff(hash, t', key, r'.value);
      FindIff(hash, t, key, r'.value);
    }
    FindIff(hash, t', key, h);
  }

  class Map {
    const hash: Addr -> nat  // addr_hash
    var lists: Lists

    ghost predicate Valid()
      reads this
    {
      Distinct(hash, lists)
    }

    constructor (hash: Addr -> nat)
      ensures Valid() && forall key :: Value(hash, lists, key) == 0
    {
      this.hash := hash;
      lists := EmptyLists();
    }

    method FindElem(key: Addr) returns (h: Option<Handle>)
      requires Valid()
      ensures h == Find(hash, lists, key)
    {
      var b := hash(key) % MAP_SIZE;
      var i := Scan(lists[b], (e: Elem) => Uses(e, key));
      return if i < |lists[b]| then Some(Handle(b, i)) else None;
    }

    /** ur_addr_map_put: stores, overwrites, or with value zero removes. */
    method Put(key: Addr, value: nat)
      requires Valid()
      modifies this
      ensures Valid()
      ensures forall k :: Value(hash, lists, k) == if AddrEq(key, k) then value else old(Value(hash, lists, k))
    {
      hide Value, Find;
      ghost var t := lists;
      var h := FindElem(key);
      if h.Some? {
        FindIff(hash, t, key, h.value);
        var e := At(lists, h.value).(value := value);
        StoreAll(hash, t, h.value, e);
        lists := Store(lists, h.value, e);
      } else if value != 0 {
        // addr_list_add
        var b := hash(key) % MAP_SIZE;
        var i := Scan(lists[b], (e: Elem) => e.value == 0);
        StoreAll(hash, t, Handle(b, i), Elem(key, value));
        lists := Store(lists, Handle(b, i), Elem(key, value));
      } else {
        NoValue(hash, t, key);
      }
    }

    /** ur_addr_map_get. */
    method Get(key: Addr) returns (found: bool, value: nat)
      requires Valid()
      ensures value == Value(hash, lists, key) && (found <==> value != 0)
    {
      var h := FindElem(key);
      match h {
        case None => return false, 0;
        case Some(g) =>
          FindIff(hash, lists, key, g);
          return true, At(lists, g).value;
      }
    }

    /** ur_addr_map_del: every slot used by the key is emptied; there is at most one. */
    method Del(key: Addr) returns (found: bool)
      requires Valid()
      modifies this
      ensures Valid()
      ensures found <==> old(Value(hash, lists, key)) != 0
      ensures forall k :: Value(hash, lists, k) == if AddrEq(key, k) then 0 else old(Value(hash, lists, k))
    {
      hide Value, Find, Distinct;
      ghost var t := lists;
      var b := hash(key) % MAP_SIZE;
      var counter := 0;
      var i := 0;
      Lengths(hash, t);
      NoValue(hash, t, key);
      while i < |lists[b]|
        invariant Distinct(hash, lists) && |lists| == MAP_SIZE && 0 <= i <= |lists[b]| == |t[b]|
        invariant forall j :: 0 <= j < i ==> !Uses(lists[b][j], key)
        invariant counter >= 0
        invariant counter == 0 ==> lists == t
        invariant counter > 0 ==> Value(hash, t, key) != 0
        invariant counter > 0 ==> forall k :: Value(hash, lists, k) == if AddrEq(key, k) then 0 else Value(hash, t, k)
      {
        var e := lists[b][i];
        if Uses(e, key) {
          ghost var t1 := lists;
          UsedValue(hash, t1, key, Handle(b, i));
          StoreAll(hash, t1, Handle(b, i), e.(value := 0));
          lists := Store(lists, Handle(b, i), e.(value := 0));
          counter := counter + 1;
        }
        i := i + 1;
      }
      if counter == 0 {
        NotUsed(hash, t, key);
      }
      return counter > 0;
    }
  }

  lemma Lengths(hash: Addr -> nat, t: Lists)
    requires Distinct(hash, t)
    ensures |t| == MAP_SIZE
    ensures forall i :: 0 <= i < MAP_SIZE ==> |t[i]| >= ARRAY_SIZE
  {
  }

  lemma NoValue(hash: Addr -> nat, t: Lists, key: Addr)
    requires |t| == MAP_SIZE
    ensures forall k :: AddrEq(key, k) ==> Value(hash, t, k) == Value(hash, t, key)
    ensures Find(hash, t, key).None? ==> Value(hash, t, key) == 0
  {
  }

  lemma UsedValue(hash: Addr -> nat, t: Lists, key: Addr, h: Handle)
    requires Distinct(hash, t) && Has(t, h) && Uses(At(t, h), key)
    ensures Value(hash, t, key) != 0 && At(t, h).key == key && hash(key) % MAP_SIZE == h.bucket
  {
    FindIff(hash, t, key, h);
  }

  lemma NotUsed(hash: Addr -> nat, t: Lists, key: Addr)
    requires |t| == MAP_SIZE
    requires forall j :: 0 <= j < |t[hash(key) % MAP_SIZE]| ==> !Uses(t[hash(key) % MAP_SIZE][j], key)
    ensures Value(hash, t, key) == 0
  {
  }

  lemma StoreAll(hash: Addr -> nat, t: Lists, h: Handle, e: Elem)
    requires Distinct(hash, t) && h.bucket < |t| && h.slot <= |t[h.bucket]|
    requires hash(e.key) % MAP_SIZE == h.bucket
    requires if Has(t, h) && At(t, h).value != 0 then At(t, h).key == e.key else Find(hash, t, e.key).None?
    ensures Distinct(hash, Store(t, h, e))
    ensures forall k :: Value(hash, Store(t, h, e), k) == if AddrEq(e.key, k) then e.value else Value(hash, t, k)
  {
    hide Value, Distinct, Find;
    Lengths(hash, t);
    StoreValue(hash, t, h, e, e.key);
    forall k
      ensures Value(hash, Store(t, h, e), k) == if AddrEq(e.key, k) then e.value else Value(hash, t, k)
    {
      StoreValue(hash, t, h, e, k);
    }
  }
}
