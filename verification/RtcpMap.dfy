/** The map of reserved RTCP sockets: a token hands its socket out once, and a two-phase sweep closes what nobody
    fetched in time. */
module RtcpMap {
  import opened Options
  import opened Khash
  import UrMap

  const RTCP_TIMEOUT := 300
  const MAX_TOKEN_DEL := 1024
  const WORD := 0x1_0000_0000

  type Token = x: int | 0 <= x < 0x1_0000_0000_0000_0000
  type Socket = nat

  datatype Alloc = Alloc(s: Socket, t: u32, token: Token)

  /** turn_time_before: the sign of the 32-bit difference. */
  predicate Before(t1: u32, t2: u32) {
    (t1 - t2) % WORD >= 0x8000_0000
  }

  function Deadline(now: u32): u32 {
    (now + RTCP_TIMEOUT) % WORD
  }

  /** The comparison is right for every age below half a turn of the clock beyond the deadline, wherever the
      clock wraps around; in the first 300 seconds it never says that the deadline has passed. */
  lemma ExpiredIff(put: nat, now: nat)
    requires put <= now < put + 0x1_0000_0000
    ensures Before(Deadline(put % WORD), now % WORD) <==> put + 300 < now <= put + 300 + 0x8000_0000
  {
    AddMod(put, RTCP_TIMEOUT);
    DiffMod(put + RTCP_TIMEOUT, now, Deadline(put % WORD), now % WORD);
    SmallMod(put + RTCP_TIMEOUT - now);
  }

  lemma AddMod(a: int, b: int)
    ensures (a % WORD + b) % WORD == (a + b) % WORD
  {
    assert a + b == a % WORD + b + WORD * (a / WORD);
  }

  lemma SmallMod(x: int)
    requires -WORD < x < WORD
    ensures x % WORD == if x >= 0 then x else x + WORD
  {
  }

  lemma DiffMod(a: int, b: int, x: int, y: int)
    requires x == a % WORD && y == b % WORD
    ensures (x - y) % WORD == (a - b) % WORD
  {
    var qa, qb := a / WORD, b / WORD;
    assert a - b == x - y + WORD * (qa - qb);
  }

  class Reservations {
    const table: UrMap.Map<Token, Alloc>
    var closed: seq<Socket>  // the sockets the map has closed, in order

    ghost predicate Valid()
      reads this, table, table.h, table.h.flags, table.h.keys, table.h.vals
    {
      table.Valid()
    }

    ghost function Contents(): map<Token, Alloc>
      reads this, table, table.h, table.h.flags, table.h.keys, table.h.vals
      requires Valid()
    {
      table.Contents()
    }

    constructor (hash: Token -> u32)
      ensures Valid() && Contents() == map[] && closed == []
      ensures fresh(table) && fresh(table.h) && fresh(table.h.flags) && fresh(table.h.keys) && fresh(table.h.vals)
    {
      table := new UrMap.Map(hash);
      closed := [];
    }

    /** rtcp_map_put. */
    method Put(token: Token, s: Socket, now: u32) returns (ret: int)
      requires Valid() && |Contents()| <= MAX_SIZE
      modifies table.h, table.h.flags, table.h.keys, table.h.vals
      ensures Valid() && table.h.FreshOrSame(old(table.h.flags), old(table.h.keys), old(table.h.vals))
      ensures ret == 0 && Contents() == old(Contents())[token := Alloc(s, Deadline(now), token)]
      ensures Deadline(now) == (now + 300) % 0x1_0000_0000
    {
      ret := table.Put(token, Alloc(s, Deadline(now), token));
    }

    /** rtcp_map_get: the socket leaves the map with the first caller. */
    method Get(token: Token) returns (s: Option<Socket>)
      requires Valid()
      modifies table.h, table.h.flags
      ensures Valid() && table.h.FreshOrSame(old(table.h.flags), old(table.h.keys), old(table.h.vals))
      ensures Contents() == old(Contents()) - {token}
      ensures s == if token in old(Contents()) then Some(old(Contents())[token].s) else None
    {
      var value := table.Get(token);
      if value.Some? {
        s := Some(value.value.s);
        var _ := table.Del(token);
      } else {
        s := None;
      }
    }

    /** The first phase of rtcp_map_timeout_handler, under the lock: at most 1024 expired tokens. */
    method Expired(now: u32) returns (tokens: seq<Token>)
      requires Valid()
      ensures Collected(Contents(), now, tokens)
      ensures |tokens| <= 1024
      ensures |tokens| < 1024 ==> forall k :: k in Contents() && Before(Contents()[k].t, now) ==> k in tokens
    {
      tokens := table.Collect((token: Token, a: Alloc) => Before(a.t, now), MAX_TOKEN_DEL);
    }

    /** rtcp_map_del: one deletion of the second phase, which locks anew. */
    method Delete(token: Token) returns (found: bool)
      requires Valid()
      modifies this`closed, table.h, table.h.flags
      ensures Valid() && table.h.FreshOrSame(old(table.h.flags), old(table.h.keys), old(table.h.vals))
      ensures Contents() == old(Contents()) - {token}
      ensures found <==> token in old(Contents())
      ensures closed == if found then old(closed) + [old(Contents())[token].s] else old(closed)
    {
      var removed := table.Del(token);
      if removed.Some? {
        closed := closed + [removed.value.s];
      }
      found := removed.Some?;
    }

    /** rtcp_map_timeout_handler, when nothing comes between its two phases. */
    method Sweep(now: u32) returns (ghost tokens: seq<Token>)
      requires Valid()
      modifies this`closed, table.h, table.h.flags
      ensures Valid() && table.h.FreshOrSame(old(table.h.flags), old(table.h.keys), old(table.h.vals))
      ensures Collected(old(Contents()), now, tokens)
      ensures Contents() == old(Contents()) - Elements(tokens)
      ensures closed == old(closed) + SocketsOf(old(Contents()), tokens)
    {
      hide Elements, Collected, UrMap.Map.Valid, UrMap.Map.Contents;
      var found := Expired(now);
      tokens := found;
      ghost var m := Contents();
      DropNone(m, found);
      var i := 0;
      while i < |found|
        invariant i <= |found| && Valid()
        invariant table.h.FreshOrSame(old(table.h.flags), old(table.h.keys), old(table.h.vals))
        invariant Contents() == m - Elements(found[..i])
        invariant closed == old(closed) + SocketsOf(m, found[..i])
      {
        DropNext(m, now, found, i);
        assert found[..i + 1] == found[..i] + [found[i]];
        var _ := Delete(found[i]);
        i := i + 1;
      }
      assert found[..i] == found;
    }

    /** Repeated sweeps drain everything that has expired, 1024 entries a time. */
    method Drain(now: u32, passes: nat)
      requires Valid() && |ExpiredKeys(Contents(), now)| <= passes * MAX_TOKEN_DEL
      modifies this`closed, table.h, table.h.flags
      ensures Valid() && ExpiredKeys(Contents(), now) == {}
      ensures Contents() == old(Contents()) - ExpiredKeys(old(Contents()), now)
    {
      hide Before, ExpiredKeys, Collected, Elements, UrMap.Map.Valid, UrMap.Map.Contents;
      ghost var m := Contents();
      assert m - (ExpiredKeys(m, now) - ExpiredKeys(m, now)) == m;
      var n := passes;
      while n > 0
        invariant Valid() && table.h.FreshOrSame(old(table.h.flags), old(table.h.keys), old(table.h.vals))
        invariant |ExpiredKeys(Contents(), now)| <= n * MAX_TOKEN_DEL
        invariant Contents() == m - (ExpiredKeys(m, now) - ExpiredKeys(Contents(), now))
      {
        ghost var before := Contents();
        ghost var tokens := Sweep(now);
        SweepProgress(m, before, Contents(), now, tokens, n);
        n := n - 1;
      }
      NoneLeft(m, Contents(), now);
    }
  }

  ghost function ExpiredKeys(m: map<Token, Alloc>, now: u32): set<Token> {
    set k | k in m && Before(m[k].t, now)
  }

  /** What the first phase may collect: distinct expired tokens, all of them unless there are too many. */
  ghost predicate Collected(m: map<Token, Alloc>, now: u32, tokens: seq<Token>) {
    && |tokens| <= MAX_TOKEN_DEL
    && (forall i :: 0 <= i < |tokens| ==> tokens[i] in m && Before(m[tokens[i]].t, now))
    && (forall i, j :: 0 <= i < j < |tokens| ==> tokens[i] != tokens[j])
    && (|tokens| < MAX_TOKEN_DEL ==> forall k :: k in m && Before(m[k].t, now) ==> k in tokens)
  }

  /** The sockets reserved under some tokens. */
  ghost function SocketsOf(m: map<Token, Alloc>, tokens: seq<Token>): seq<Socket>
    requires forall i :: 0 <= i < |tokens| ==> tokens[i] in m
  {
    seq(|tokens|, i requires 0 <= i < |tokens| => m[tokens[i]].s)
  }

  ghost function Elements(tokens: seq<Token>): set<Token> {
    set k | k in tokens
  }

  lemma DropNone(m: map<Token, Alloc>, tokens: seq<Token>)
    ensures m - Elements(tokens[..0]) == m
  {
  }

  lemma DropNext(m: map<Token, Alloc>, now: u32, tokens: seq<Token>, i: nat)
    requires Collected(m, now, tokens) && i < |tokens|
    ensures tokens[i] in m - Elements(tokens[..i])
    ensures (m - Elements(tokens[..i])) - {tokens[i]} == m - Elements(tokens[..i + 1])
  {
    assert tokens[..i + 1] == tokens[..i] + [tokens[i]];
    assert Elements(tokens[..i + 1]) == Elements(tokens[..i]) + {tokens[i]};
  }

  lemma SweepProgress(m: map<Token, Alloc>, before: map<Token, Alloc>, after: map<Token, Alloc>, now: u32,
                      tokens: seq<Token>, n: nat)
    requires n > 0 && Collected(before, now, tokens) && |ExpiredKeys(before, now)| <= n * MAX_TOKEN_DEL
    requires before == m - (ExpiredKeys(m, now) - ExpiredKeys(before, now))
    requires after == before - Elements(tokens)
    ensures |ExpiredKeys(after, now)| <= (n - 1) * MAX_TOKEN_DEL
    ensures after == m - (ExpiredKeys(m, now) - ExpiredKeys(after, now))
  {
    hide ExpiredKeys, Collected, Elements;
    ExpiredAfter(before, now, tokens);
    ExpiredWithin(m, ExpiredKeys(m, now) - ExpiredKeys(before, now), now);
    var x, y, z := ExpiredKeys(m, now), ExpiredKeys(before, now), ExpiredKeys(after, now);
    assert y - z == Elements(tokens) && z <= y;
    assert after == m - (x - z);
  }

  lemma ExpiredWithin(m: map<Token, Alloc>, gone: set<Token>, now: u32)
    ensures ExpiredKeys(m - gone, now) <= ExpiredKeys(m, now)
  {
  }

  lemma NoneLeft(m: map<Token, Alloc>, after: map<Token, Alloc>, now: u32)
    requires |ExpiredKeys(after, now)| <= 0 && after == m - (ExpiredKeys(m, now) - ExpiredKeys(after, now))
    ensures ExpiredKeys(after, now) == {} && after == m - ExpiredKeys(m, now)
  {
    hide ExpiredKeys;
    assert ExpiredKeys(m, now) - {} == ExpiredKeys(m, now);
  }

  lemma ExpiredAfter(before: map<Token, Alloc>, now: u32, tokens: seq<Token>)
    requires Collected(before, now, tokens)
    ensures var y, z := ExpiredKeys(before, now), ExpiredKeys(before - Elements(tokens), now);
            z == y - Elements(tokens) && Elements(tokens) <= y && (|tokens| == MAX_TOKEN_DEL || z == {})
            && |z| == |y| - |tokens|
  {
    hide Before;
    var y, z := ExpiredKeys(before, now), ExpiredKeys(before - Elements(tokens), now);
    assert z == y - Elements(tokens);
    assert Elements(tokens) <= y;
    SetOfSeq(tokens);
  }

  lemma {:induction false} SetOfSeq(s: seq<Token>)
    requires forall i, j :: 0 <= i < j < |s| ==> s[i] != s[j]
    ensures |Elements(s)| == |s|
  {
    if s != [] {
      var t, x := s[..|s| - 1], s[|s| - 1];
      SetOfSeq(t);
      assert s == t + [x];
      assert Elements(s) == Elements(t) + {x};
      assert x !in t;
    }
  }
}
