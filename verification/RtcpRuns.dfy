/** Runs of the reservation map: puts, gets and the two phases of the sweep in any interleaving, over a clock of
    32 bits. */
module RtcpRuns {
  import opened Options
  import opened Khash
  import opened RtcpMap

  datatype Event =
    | Put(token: Token, s: Socket)
    | Get(token: Token)
    | Collect(found: seq<Token>)  // the first phase of the sweep
    | DeleteNext                  // one deletion of the second phase
    | Tick(seconds: nat)

  datatype Reservation = Reservation(token: Token, s: Socket, at: nat)

  // Reservation r leaves the map with its socket, at a time.
  datatype Leaving = Leaving(r: nat, s: Socket, at: nat)

  datatype State = State(
    now: nat,                        // seconds that do not wrap around
    live: map<Token, Alloc>,         // the hash table
    held: map<Token, nat>,           // which reservation an entry is
    put: seq<Reservation>,           // every reservation made
    pending: seq<Token>,             // collected, not yet deleted
    handed: seq<Leaving>,
    closed: seq<Leaving>,
    lost: seq<nat>)                  // overwritten by a put of the same token: never handed out, never closed

  function Init(start: nat): State {
    State(start, map[], map[], [], [], [], [], [])
  }

  ghost predicate Enabled(s: State, e: Event) {
    match e
    case Collect(found) => s.pending == [] && Collected(s.live, s.now % WORD, found)
    case DeleteNext => s.pending != []
    case _ => true
  }

  /** An entry leaves the map: where its reservation goes depends on the caller. */
  function Leave(s: State, token: Token): Leaving
    requires token in s.live && token in s.held
  {
    Leaving(s.held[token], s.live[token].s, s.now)
  }

  ghost function Step(s: State, e: Event): State
    requires Enabled(s, e) && s.held.Keys == s.live.Keys
    ensures Step(s, e).held.Keys == Step(s, e).live.Keys
  {
    match e
    case Put(token, sock) =>
      s.(live := s.live[token := Alloc(sock, Deadline(s.now % WORD), token)],
         held := s.held[token := |s.put|],
         put := s.put + [Reservation(token, sock, s.now)],
         lost := if token in s.held then s.lost + [s.held[token]] else s.lost)
    case Get(token) =>
      if token in s.live then
        s.(live := s.live - {token}, held := s.held - {token}, handed := s.handed + [Leave(s, token)])
      else s
    case Collect(found) => s.(pending := found)
    case DeleteNext =>
      var token, rest := s.pending[0], s.(pending := s.pending[1..]);
      if token in s.live then
        rest.(live := s.live - {token}, held := s.held - {token}, closed := s.closed + [Leave(s, token)])
      else rest
    case Tick(seconds) => s.(now := s.now + seconds)
  }

  /** The state after some events, if every one of them was possible. */
  ghost function RunFrom(s: State, events: seq<Event>): (r: Option<State>)
    requires s.held.Keys == s.live.Keys
    ensures r.Some? ==> r.value.held.Keys == r.value.live.Keys
  {
    if events == [] then Some(s)
    else
      match RunFrom(s, events[..|events| - 1])
      case None => None
      case Some(t) => if Enabled(t, events[|events| - 1]) then Some(Step(t, events[|events| - 1])) else None
  }

  ghost function Run(start: nat, events: seq<Event>): Option<State> {
    RunFrom(Init(start), events)
  }

  // ---------------------------------------------------------------- each reservation is somewhere, once

  ghost function Refs(l: seq<Leaving>): set<nat> {
    set i | 0 <= i < |l| :: l[i].r
  }

  ghost function Elems(l: seq<nat>): set<nat> {
    set i | 0 <= i < |l| :: l[i]
  }

  ghost function Held(m: map<Token, nat>): set<nat> {
    set t | t in m :: m[t]
  }

  ghost predicate Once(l: seq<Leaving>) {
    forall i, j :: 0 <= i < j < |l| ==> l[i].r != l[j].r
  }

  /** Every entry of the table is the reservation that it is said to be. */
  ghost predicate Linked(s: State) {
    && s.held.Keys == s.live.Keys
    && (forall t :: t in s.held ==>
          && s.held[t] < |s.put| && s.put[s.held[t]].token == t && s.put[s.held[t]].at <= s.now
          && s.live[t] == Alloc(s.put[s.held[t]].s, Deadline(s.put[s.held[t]].at % WORD), t))
    && (forall l :: l in s.handed || l in s.closed ==> l.r < |s.put| && l.s == s.put[l.r].s)
  }

  /** Every reservation is in exactly one place: still in the map, handed out once, closed once, or overwritten. */
  ghost predicate ExactlyOnce(s: State) {
    && (forall r :: 0 <= r < |s.put| <==> r in Held(s.held) || r in Refs(s.handed) || r in Refs(s.closed) || r in Elems(s.lost))
    && Held(s.held) !! Refs(s.handed) !! Refs(s.closed) !! Elems(s.lost)
    && Once(s.handed) && Once(s.closed)
    && (forall i, j :: 0 <= i < j < |s.lost| ==> s.lost[i] != s.lost[j])
  }

  /** For every run, tokens reused or not. */
  lemma {:induction false} RunAccounts(s: State, events: seq<Event>)
    requires Linked(s) && ExactlyOnce(s) && RunFrom(s, events).Some?
    ensures Linked(RunFrom(s, events).value) && ExactlyOnce(RunFrom(s, events).value)
  {
    hide Linked, ExactlyOnce, Step, Enabled;
    LinkedKeys(s);
    if events != [] {
      var before, e := events[..|events| - 1], events[|events| - 1];
      RunAccounts(s, before);
      var t := RunFrom(s, before).value;
      StepLinked(t, e);
      StepOnce(t, e);
    }
  }

  lemma LinkedKeys(s: State)
    requires Linked(s)
    ensures s.held.Keys == s.live.Keys
  {
  }

  lemma StepLinked(s: State, e: Event)
    requires Linked(s) && Enabled(s, e)
    ensures Linked(Step(s, e))
  {
  }

  lemma StepOnce(s: State, e: Event)
    requires Linked(s) && ExactlyOnce(s) && Enabled(s, e)
    ensures ExactlyOnce(Step(s, e))
  {
    match e {
      case Put(token, sock) =>
        PutHeld(s, token);
        if token in s.held {
          ElemsSnoc(s.lost, s.held[token]);
        }
      case Get(token) =>
        if token in s.live {
          DropHeld(s, token);
          RefsSnoc(s.handed, Leave(s, token));
        }
      case DeleteNext =>
        if s.pending[0] in s.live {
          DropHeld(s, s.pending[0]);
          RefsSnoc(s.closed, Leave(s, s.pending[0]));
        }
      case _ =>
    }
  }

  lemma DropHeld(s: State, token: Token)
    requires Linked(s) && token in s.held
    ensures Held(s.held - {token}) == Held(s.held) - {s.held[token]} && s.held[token] in Held(s.held)
  {
    var m := s.held - {token};
    forall t | t in m
      ensures s.held[t] != s.held[token] && m[t] in Held(s.held)
    {
      assert s.put[s.held[t]].token == t;
    }
    assert Held(m) <= Held(s.held) - {s.held[token]};
    forall r | r in Held(s.held) - {s.held[token]}
      ensures r in Held(m)
    {
      var t :| t in s.held && s.held[t] == r;
      assert m[t] == r;
    }
  }

  lemma PutHeld(s: State, token: Token)
    requires Linked(s)
    ensures var h := if token in s.held then Held(s.held) - {s.held[token]} else Held(s.held);
            Held(s.held[token := |s.put|]) == h + {|s.put|}
    ensures token in s.held ==> s.held[token] in Held(s.held)
  {
    var m := s.held[token := |s.put|];
    assert m[token] == |s.put|;
    assert m - {token} == s.held - {token};
    if token in s.held {
      DropHeld(s, token);
    } else {
      assert s.held - {token} == s.held;
    }
    HeldSplit(m, token);
  }

  lemma HeldSplit(m: map<Token, nat>, token: Token)
    requires token in m
    ensures Held(m) == Held(m - {token}) + {m[token]}
  {
    forall r | r in Held(m)
      ensures r in Held(m - {token}) + {m[token]}
    {
      var t :| t in m && m[t] == r;
      assert t != token ==> (m - {token})[t] == r;
    }
    forall r | r in Held(m - {token})
      ensures r in Held(m)
    {
      var t :| t in m - {token} && (m - {token})[t] == r;
      assert m[t] == r;
    }
  }

  lemma RefsSnoc(l: seq<Leaving>, x: Leaving)
    ensures Refs(l + [x]) == Refs(l) + {x.r}
    ensures Once(l) && x.r !in Refs(l) ==> Once(l + [x])
  {
    var q := l + [x];
    forall i | 0 <= i < |l|
      ensures l[i].r in Refs(q) && q[i] == l[i] && l[i].r in Refs(l)
    {
      assert q[i] == l[i];
    }
    assert q[|l|] == x;
  }

  lemma ElemsSnoc(l: seq<nat>, x: nat)
    ensures Elems(l + [x]) == Elems(l) + {x}
    ensures x !in Elems(l) ==> forall i :: 0 <= i < |l| ==> l[i] != x
  {
    var q := l + [x];
    forall i | 0 <= i < |l|
      ensures l[i] in Elems(q) && q[i] == l[i] && l[i] in Elems(l)
    {
      assert q[i] == l[i];
    }
    assert q[|l|] == x;
  }

  // ---------------------------------------------------------------- deadlines

  /** A socket is closed more than 300 seconds after its own reservation. */
  ghost predicate OnTime(s: State, l: Leaving) {
    l.r < |s.put| && l.at > s.put[l.r].at + 300
  }

  ghost predicate NoneEarly(s: State) {
    forall l :: l in s.closed ==> OnTime(s, l)
  }

  /** What the sweep is about to delete has expired, and no socket has been lost. */
  ghost predicate Safe(s: State) {
    && s.lost == []
    && forall t :: t in s.pending && t in s.held ==> s.held[t] < |s.put| && s.now > s.put[s.held[t]].at + RTCP_TIMEOUT
  }

  /** The guard of a put: its token is neither in the map nor in the hands of the sweep. */
  predicate FreshToken(s: State, e: Event) {
    e.Put? ==> e.token !in s.live && e.token !in s.pending
  }

  /** Each event keeps the map safe if and only if it is not a put of a token that is in use. */
  lemma StepSafeIff(s: State, e: Event)
    requires Linked(s) && Safe(s) && Enabled(s, e)
    ensures Safe(Step(s, e)) <==> FreshToken(s, e)
  {
    match e {
      case Put(token, sock) =>
        if token in s.pending {
          var t := Step(s, e);
          assert token in t.pending && token in t.held && t.put[t.held[token]].at == s.now;
        }
      case Collect(found) =>
        forall t | t in found
          ensures t in s.held && s.now > s.put[s.held[t]].at + RTCP_TIMEOUT
        {
          var i :| 0 <= i < |found| && found[i] == t;
          NotYoung(s.put[s.held[t]].at, s.now);
        }
      case _ =>
    }
  }

  lemma StepNoneEarly(s: State, e: Event)
    requires Linked(s) && Safe(s) && NoneEarly(s) && Enabled(s, e)
    ensures NoneEarly(Step(s, e))
  {
  }

  /** In the first 300 seconds the 32-bit comparison never says "expired". */
  lemma NotYoung(put: nat, now: nat)
    requires put <= now && Before(Deadline(put % WORD), now % WORD)
    ensures now > put + RTCP_TIMEOUT
  {
    if now < put + WORD {
      ExpiredIff(put, now);
    }
  }

  /** At every moment of a run the map is safe. */
  ghost predicate AlwaysSafe(start: nat, events: seq<Event>) {
    forall k :: 0 <= k <= |events| && Run(start, events[..k]).Some? ==> Safe(Run(start, events[..k]).value)
  }

  /** No put of a run finds its token in use. */
  ghost predicate TokensFresh(start: nat, events: seq<Event>) {
    forall k :: 0 <= k < |events| && Run(start, events[..k]).Some? ==> FreshToken(Run(start, events[..k]).value, events[k])
  }

  /** Over every run, however the clock wraps around: the map is safe at every moment if and only if no put finds its
      token in use; then each reserved socket is in the map, handed out once or closed once, and none is closed before
      its deadline. */
  lemma {:induction false} RunSafeIff(start: nat, events: seq<Event>)
    requires Run(start, events).Some?
    ensures AlwaysSafe(start, events) <==> TokensFresh(start, events)
    ensures Linked(Run(start, events).value) && ExactlyOnce(Run(start, events).value)
    ensures AlwaysSafe(start, events) ==> Run(start, events).value.lost == [] && NoneEarly(Run(start, events).value)
  {
    hide AlwaysSafe, TokensFresh, Linked, ExactlyOnce, NoneEarly, Safe, FreshToken, Step, Enabled;
    InitSafe(start);
    RunAccounts(Init(start), events);
    if events != [] {
      var before, e := events[..|events| - 1], events[|events| - 1];
      RunAccounts(Init(start), before);
      RunSafeIff(start, before);
      LongerRun(start, events);
      var s := Run(start, before).value;
      if AlwaysSafe(start, before) {
        StepSafeIff(s, e);
        StepNoneEarly(s, e);
      }
    }
    SafeLost(start, events);
  }

  lemma InitSafe(start: nat)
    ensures Linked(Init(start)) && ExactlyOnce(Init(start)) && NoneEarly(Init(start))
    ensures AlwaysSafe(start, []) && TokensFresh(start, [])
  {
  }

  lemma SafeLost(start: nat, events: seq<Event>)
    requires Run(start, events).Some?
    ensures AlwaysSafe(start, events) ==> Run(start, events).value.lost == []
  {
    assert events[..|events|] == events;
  }

  lemma LongerRun(start: nat, events: seq<Event>)
    requires events != [] && Run(start, events).Some?
    ensures var before, e := events[..|events| - 1], events[|events| - 1];
            && Run(start, before).Some? && Enabled(Run(start, before).value, e)
            && Run(start, events) == Some(Step(Run(start, before).value, e))
            && (AlwaysSafe(start, events) <==> AlwaysSafe(start, before) && Safe(Run(start, events).value))
            && (TokensFresh(start, events) <==> TokensFresh(start, before) && FreshToken(Run(start, before).value, e))
            && (AlwaysSafe(start, before) ==> Safe(Run(start, before).value))
  {
    hide Safe, FreshToken;
    var before := events[..|events| - 1];
    assert Run(start, events) == Some(Step(Run(start, before).value, events[|events| - 1]));
    hide RunFrom, Run;
    assert forall k :: 0 <= k <= |before| ==> events[..k] == before[..k];
    assert events[..|events|] == events && before[..|before|] == before;
  }

  // ---------------------------------------------------------------- what a reused token can do

  /** A put is harmless whatever deletions follow it if and only if its token is not in the hands of the sweep;
      otherwise the deletions of that very sweep, at the same moment, close the new socket. */
  lemma PutHarmlessIff(s: State, token: Token, sock: Socket)
    requires Linked(s) && Safe(s) && NoneEarly(s) && PendingOnce(s)
    ensures (forall n: nat :: RunFrom(Step(s, Put(token, sock)), Deletions(n)).Some? ==>
               NoneEarly(RunFrom(Step(s, Put(token, sock)), Deletions(n)).value))
            <==> token !in s.pending
  {
    var t := Step(s, Put(token, sock));
    StepLinked(s, Put(token, sock));
    if token in s.pending {
      var k :| 0 <= k < |s.pending| && s.pending[k] == token;
      DeletedEarly(t, token, k);
      assert !NoneEarly(RunFrom(t, Deletions(k + 1)).value);
    } else {
      forall n: nat | RunFrom(t, Deletions(n)).Some?
        ensures NoneEarly(RunFrom(t, Deletions(n)).value)
      {
        DeletionsOnTime(t, n);
      }
    }
  }

  ghost predicate PendingOnce(s: State) {
    forall i, j :: 0 <= i < j < |s.pending| ==> s.pending[i] != s.pending[j]
  }

  function Deletions(n: nat): seq<Event> {
    seq(n, _ => DeleteNext)
  }

  /** What is pending has expired, wherever it is still held. */
  ghost predicate Expiring(s: State) {
    forall t :: t in s.pending && t in s.held ==> s.held[t] < |s.put| && s.now > s.put[s.held[t]].at + RTCP_TIMEOUT
  }

  lemma {:induction false} DeletionsOnTime(s: State, n: nat)
    requires Linked(s) && Expiring(s) && NoneEarly(s) && RunFrom(s, Deletions(n)).Some?
    ensures var t := RunFrom(s, Deletions(n)).value; Linked(t) && Expiring(t) && NoneEarly(t)
  {
    hide Linked, NoneEarly, Expiring;
    LinkedKeys(s);
    if n > 0 {
      assert Deletions(n)[..n - 1] == Deletions(n - 1);
      DeletionsOnTime(s, n - 1);
      StepLinked(RunFrom(s, Deletions(n - 1)).value, DeleteNext);
      DeletionOnTime(RunFrom(s, Deletions(n - 1)).value);
    }
  }

  lemma DeletionOnTime(s: State)
    requires Linked(s) && Expiring(s) && NoneEarly(s) && s.pending != []
    ensures Expiring(Step(s, DeleteNext)) && NoneEarly(Step(s, DeleteNext))
  {
  }

  /** Deleting up to a pending entry, which is then closed as young as it is. */
  lemma {:induction false} Deleting(s: State, token: Token, k: nat, n: nat)
    requires Linked(s) && k < |s.pending| && s.pending[k] == token && token in s.held && PendingOnce(s) && n <= k
    ensures RunFrom(s, Deletions(n)).Some?
    ensures var t := RunFrom(s, Deletions(n)).value;
            && Linked(t) && t.pending == s.pending[n..] && token in t.held && t.held[token] == s.held[token]
            && t.put == s.put && t.now == s.now
  {
    if n > 0 {
      assert Deletions(n)[..n - 1] == Deletions(n - 1);
      Deleting(s, token, k, n - 1);
      var t := RunFrom(s, Deletions(n - 1)).value;
      assert t.pending[0] == s.pending[n - 1] != token;
      StepLinked(t, DeleteNext);
    }
  }

  lemma DeletedEarly(s: State, token: Token, k: nat)
    requires Linked(s) && k < |s.pending| && s.pending[k] == token && token in s.held && PendingOnce(s)
    requires s.put[s.held[token]].at == s.now
    ensures RunFrom(s, Deletions(k + 1)).Some?
    ensures var t := RunFrom(s, Deletions(k + 1)).value;
            && Leaving(s.held[token], s.put[s.held[token]].s, s.now) in t.closed
            && !NoneEarly(t)
  {
    Deleting(s, token, k, k);
    var t := RunFrom(s, Deletions(k)).value;
    DeletionsSnoc(s, k);
    ClosedNow(t, token);
  }

  lemma ClosedNow(s: State, token: Token)
    requires Linked(s) && s.pending != [] && s.pending[0] == token && token in s.held
    requires s.put[s.held[token]].at == s.now
    ensures var t := Step(s, DeleteNext);
            Leaving(s.held[token], s.put[s.held[token]].s, s.now) in t.closed && !NoneEarly(t)
  {
    var t := Step(s, DeleteNext);
    var l := Leaving(s.held[token], s.put[s.held[token]].s, s.now);
    assert t.closed[|s.closed|] == l;
    assert l in t.closed && !OnTime(t, l);
  }

  lemma DeletionsSnoc(s: State, n: nat)
    requires s.held.Keys == s.live.Keys && RunFrom(s, Deletions(n)).Some?
    ensures var t := RunFrom(s, Deletions(n)).value;
            RunFrom(s, Deletions(n + 1)) == if t.pending != [] then Some(Step(t, DeleteNext)) else None
  {
    assert Deletions(n + 1)[..n] == Deletions(n);
  }

  /** The run in which this happens: the token is fetched and drawn again between the two phases of a sweep, and the
      socket that was reserved second is closed at the moment of its reservation. */
  lemma ReuseClosesEarly(t: Token)
    ensures var events := [Put(t, 1), Tick(301), Collect([t]), Get(t), Put(t, 2), DeleteNext];
            && Run(0, events).Some?
            && Run(0, events).value.put == [Reservation(t, 1, 0), Reservation(t, 2, 301)]
            && Run(0, events).value.closed == [Leaving(1, 2, 301)]
  {
    var e := [Put(t, 1), Tick(301), Collect([t]), Get(t), Put(t, 2), DeleteNext];
    assert e[..0] == [];
    Next(0, e, 0);
    Next(0, e, 1);
    ExpiredIff(0, 301);
    Next(0, e, 2);
    var s := Run(0, e[..3]).value;
    assert s == State(301, map[t := Alloc(1, 300, t)], map[t := 0], [Reservation(t, 1, 0)], [t], [], [], []);
    ReusedThen(t, e, s);
  }

  lemma ReusedThen(t: Token, e: seq<Event>, s: State)
    requires |e| == 6 && e[3..] == [Get(t), Put(t, 2), DeleteNext]
    requires s == State(301, map[t := Alloc(1, 300, t)], map[t := 0], [Reservation(t, 1, 0)], [t], [], [], [])
    requires Run(0, e[..3]) == Some(s)
    ensures Run(0, e).Some? && Run(0, e).value.put == [Reservation(t, 1, 0), Reservation(t, 2, 301)]
    ensures Run(0, e).value.closed == [Leaving(1, 2, 301)]
  {
    assert e[3] == e[3..][0] && e[4] == e[3..][1] && e[5] == e[3..][2];
    hide Run;
    Next(0, e, 3);
    var s1 := Step(s, e[3]);
    assert s1.live == map[] && s1.held == map[] && s1.pending == [t] && s1.now == 301;
    Next(0, e, 4);
    var s2 := Step(s1, e[4]);
    assert s2.live == map[t := Alloc(2, 601, t)] && s2.held == map[t := 1] && s2.pending == [t];
    Next(0, e, 5);
    assert e[..6] == e;
  }

  lemma Next(start: nat, events: seq<Event>, i: nat)
    requires i < |events| && Run(start, events[..i]).Some? && Enabled(Run(start, events[..i]).value, events[i])
    ensures Run(start, events[..i + 1]) == Some(Step(Run(start, events[..i]).value, events[i]))
  {
    assert events[..i + 1][..i] == events[..i];
  }

  // ---------------------------------------------------------------- tokens that are never drawn twice

  /** A random 64-bit token is not drawn twice. */
  ghost predicate TokensOnce(events: seq<Event>) {
    forall i, j :: 0 <= i < j < |events| && events[i].Put? && events[j].Put? ==> events[i].token != events[j].token
  }

  ghost predicate WasPut(events: seq<Event>, t: Token) {
    exists i :: 0 <= i < |events| && events[i].Put? && events[i].token == t
  }

  /** A token in use was drawn before. */
  lemma {:induction false} InUseWasPut(start: nat, events: seq<Event>, t: Token)
    requires Run(start, events).Some?
    ensures var s := Run(start, events).value;
            t in s.live || t in s.pending ==> WasPut(events, t)
  {
    hide WasPut;
    if events != [] {
      var before, e := events[..|events| - 1], events[|events| - 1];
      InUseWasPut(start, before, t);
      WasPutSnoc(before, e, t);
      assert before + [e] == events;
    }
  }

  lemma WasPutSnoc(before: seq<Event>, e: Event, t: Token)
    ensures WasPut(before, t) || (e.Put? && e.token == t) ==> WasPut(before + [e], t)
  {
    var events := before + [e];
    assert events[|before|] == e;
    if i :| 0 <= i < |before| && before[i].Put? && before[i].token == t {
      assert events[i].token == t;
    }
  }

  /** So without a reused token every run is safe. */
  lemma OnceIsFresh(start: nat, events: seq<Event>)
    requires TokensOnce(events)
    ensures TokensFresh(start, events)
  {
    hide WasPut;
    forall k | 0 <= k < |events| && Run(start, events[..k]).Some?
      ensures FreshToken(Run(start, events[..k]).value, events[k])
    {
      if events[k].Put? {
        InUseWasPut(start, events[..k], events[k].token);
        NotPutBefore(events, k);
      }
    }
  }

  lemma NotPutBefore(events: seq<Event>, k: nat)
    requires TokensOnce(events) && k < |events| && events[k].Put?
    ensures !WasPut(events[..k], events[k].token)
  {
  }

  // ---------------------------------------------------------------- the map itself

  ghost function Sockets(l: seq<Leaving>): seq<Socket> {
    seq(|l|, i requires 0 <= i < |l| => l[i].s)
  }

  ghost function PutCount(events: seq<Event>): nat {
    if events == [] then 0 else PutCount(events[..|events| - 1]) + if events[|events| - 1].Put? then 1 else 0
  }

  /** The map is in a state of the protocol. */
  ghost predicate InState(m: Reservations, s: State)
    reads m, m.table, m.table.h, m.table.h.flags, m.table.h.keys, m.table.h.vals
  {
    m.Valid() && m.Contents() == s.live && s.held.Keys == s.live.Keys && m.closed == Sockets(s.closed)
  }

  /** One event on the map; a collection finds what it finds, and an impossible event passes no time. */
  method Do(m: Reservations, e: Event, ghost s: State, now: nat, pending: seq<Token>)
    returns (later: nat, rest: seq<Token>, ghost done: Event)
    requires InState(m, s) && (e.Put? ==> |s.live| <= MAX_SIZE) && s.now == now && s.pending == pending
    modifies m`closed, m.table.h, m.table.h.flags, m.table.h.keys, m.table.h.vals
    ensures m.table.h.FreshOrSame(old(m.table.h.flags), old(m.table.h.keys), old(m.table.h.vals))
    ensures Enabled(s, done) && InState(m, Step(s, done))
    ensures Step(s, done).now == later && Step(s, done).pending == rest
    ensures (done.Put? <==> e.Put?) && (done.Put? ==> done == e)
  {
    hide Reservations.Valid, Reservations.Contents, Collected, Sockets;
    later, rest, done := now, pending, e;
    match e {
      case Put(token, sock) =>
        var _ := m.Put(token, sock, now % WORD);
      case Get(token) =>
        DoGet(m, token, s);
      case Collect(_) =>
        if pending == [] {
          rest := m.Expired(now % WORD);
          done := Collect(rest);
        } else {
          done := Tick(0);
        }
      case DeleteNext =>
        if pending != [] {
          DoDelete(m, pending[0], s);
          rest := pending[1..];
        } else {
          done := Tick(0);
        }
      case Tick(seconds) => later := now + seconds;
    }
  }

  method DoGet(m: Reservations, token: Token, ghost s: State)
    requires InState(m, s)
    modifies m.table.h, m.table.h.flags
    ensures m.table.h.FreshOrSame(old(m.table.h.flags), old(m.table.h.keys), old(m.table.h.vals))
    ensures InState(m, Step(s, Get(token)))
  {
    hide Reservations.Valid, Reservations.Contents, Sockets;
    var _ := m.Get(token);
    if token !in s.live {
      assert s.live - {token} == s.live;
    }
  }

  method DoDelete(m: Reservations, token: Token, ghost s: State)
    requires InState(m, s) && s.pending != [] && token == s.pending[0]
    modifies m`closed, m.table.h, m.table.h.flags
    ensures m.table.h.FreshOrSame(old(m.table.h.flags), old(m.table.h.keys), old(m.table.h.vals))
    ensures InState(m, Step(s, DeleteNext))
  {
    hide Reservations.Valid, Reservations.Contents, Sockets;
    var _ := m.Delete(token);
    if token in s.live {
      SocketsSnoc(s.closed, Leave(s, token));
    } else {
      assert s.live - {token} == s.live;
    }
  }

  lemma SocketsSnoc(l: seq<Leaving>, x: Leaving)
    ensures Sockets(l + [x]) == Sockets(l) + [x.s]
  {
  }

  lemma StepSize(s: State, e: Event)
    requires Enabled(s, e) && s.held.Keys == s.live.Keys
    ensures |Step(s, e).live| <= |s.live| + (if e.Put? then 1 else 0)
  {
    hide Collected;
    if e.Put? && e.token !in s.live {
      assert Step(s, e).live.Keys == s.live.Keys + {e.token};
    } else {
      assert Step(s, e).live.Keys <= s.live.Keys;
      Fewer(Step(s, e).live.Keys, s.live.Keys);
    }
  }

  lemma Fewer(a: set<Token>, b: set<Token>)
    requires a <= b
    ensures |a| <= |b|
  {
    assert b == a + (b - a);
  }

  /** What the map really did for a list of commands: a command that is not possible passes no time. */
  predicate Follows(events: seq<Event>, commands: seq<Event>) {
    && |events| <= |commands|
    && forall i :: 0 <= i < |events| ==>
         (events[i].Put? <==> commands[i].Put?) && (events[i].Put? ==> events[i] == commands[i])
  }

  /** Any sequence of commands on the map is a run of the protocol: the map holds what the run says, and has closed
      the sockets that the run says, in that order. A sweep that is not over is not started again. */
  method Execute(m: Reservations, commands: seq<Event>, start: nat) returns (ghost events: seq<Event>, ghost s: State)
    requires m.Valid() && m.Contents() == map[] && m.closed == [] && PutCount(commands) <= MAX_SIZE
    modifies m`closed, m.table.h, m.table.h.flags, m.table.h.keys, m.table.h.vals
    ensures m.Valid() && Run(start, events) == Some(s) && |events| == |commands| && Follows(events, commands)
    ensures m.Contents() == s.live && m.closed == Sockets(s.closed)
    ensures Linked(s) && ExactlyOnce(s)
    ensures TokensFresh(start, events) ==> s.lost == [] && NoneEarly(s)
    ensures TokensOnce(commands) ==> TokensFresh(start, events)
  {
    hide Reservations.Valid, Reservations.Contents, TokensOnce, TokensFresh, Run, Linked, ExactlyOnce, NoneEarly;
    hide Sockets, Step, Enabled;
    events, s := [], Init(start);
    RunNone(start);
    var now, pending := start, [];
    for i := 0 to |commands|
      invariant InState(m, s) && m.table.h.FreshOrSame(old(m.table.h.flags), old(m.table.h.keys), old(m.table.h.vals))
      invariant Run(start, events) == Some(s) && s.now == now && s.pending == pending
      invariant |s.live| <= PutCount(commands[..i])
      invariant |events| == i && Follows(events, commands)
    {
      PutCountMono(commands, i + 1);
      assert commands[..i + 1][..i] == commands[..i];
      ghost var done;
      now, pending, done := Do(m, commands[i], s, now, pending);
      RunSnoc(start, events, done);
      StepSize(s, done);
      s := Step(s, done);
      events := events + [done];
    }
    RunSafeIff(start, events);
    if TokensOnce(commands) {
      FollowsOnce(events, commands);
      OnceIsFresh(start, events);
    }
  }

  lemma RunNone(start: nat)
    ensures Run(start, []) == Some(Init(start)) && Sockets([]) == []
  {
  }

  lemma FollowsOnce(events: seq<Event>, commands: seq<Event>)
    requires Follows(events, commands) && TokensOnce(commands)
    ensures TokensOnce(events)
  {
  }

  lemma RunSnoc(start: nat, events: seq<Event>, e: Event)
    requires Run(start, events).Some? && Enabled(Run(start, events).value, e)
    ensures Run(start, events + [e]) == Some(Step(Run(start, events).value, e))
  {
    assert (events + [e])[..|events|] == events;
  }

  lemma {:induction false} PutCountMono(events: seq<Event>, i: nat)
    requires i <= |events|
    ensures PutCount(events[..i]) <= PutCount(events)
    decreases |events|
  {
    if i < |events| {
      assert events[..|events| - 1][..i] == events[..i];
      PutCountMono(events[..|events| - 1], i);
    } else {
      assert events[..i] == events;
    }
  }
}
