/** Allocation quota: what every call of the quota callbacks leaves behind, over all sessions. */
module Quota {
  import opened Options

  type Sid = nat

  datatype Session = Session(used: bool, username: string, oauth: bool, realm: string, originSet: bool, keySet: bool,
                             mobile: bool)

  // What a quota callback is called with.
  datatype Grant = Grant(username: string, oauth: bool, realm: string)

  datatype Config = Config(
    longTerm: bool,     // long-term credentials
    hasCheck: bool,     // chquotacb is set
    hasRelease: bool)   // raqcb is set

  datatype State = State(sessions: map<Sid, Session>, destroyed: map<Sid, Session>, acquired: seq<Grant>,
                         released: seq<Grant>)

  ghost function Used(m: map<Sid, Session>): set<Sid> {
    set i | i in m && m[i].used
  }

  /** Successful acquisitions less releases are the sessions that hold quota, and no destroyed one does. */
  ghost predicate Conserved(c: Config, s: State) {
    && s.sessions.Keys !! s.destroyed.Keys
    && |s.acquired| == |s.released| + |Used(s.sessions)| + |Used(s.destroyed)|
    && (c.hasRelease ==> Used(s.destroyed) == {})
  }

  // ---------------------------------------------------------------- the two functions

  predicate Asks(c: Config, ss: Session) {
    !ss.used && c.hasCheck
  }

  /** inc_quota returns -1: the origin is not known, or the callback says no. */
  predicate Denied(c: Config, ss: Session, allowed: bool) {
    Asks(c, ss) && ((c.longTerm && !ss.originSet) || !allowed)
  }

  function Inc(c: Config, s: State, i: Sid, username: string, allowed: bool): State
    requires i in s.sessions
  {
    var ss := s.sessions[i];
    if !Asks(c, ss) || Denied(c, ss, allowed) then s
    else
      s.(sessions := s.sessions[i := ss.(username := username, used := true)],
         acquired := s.acquired + [Grant(username, ss.oauth, ss.realm)])
  }

  /** dec_quota: the release is made under the names the session has now. */
  function Dec(c: Config, s: State, i: Sid): State
    requires i in s.sessions
  {
    var ss := s.sessions[i];
    if !ss.used || !c.hasRelease then s
    else
      s.(sessions := s.sessions[i := ss.(used := false)],
         released := s.released + [Grant(ss.username, ss.oauth, ss.realm)])
  }

  /** Changing anything but the quota flag of a session. */
  function Edit(s: State, i: Sid, ss: Session): State {
    s.(sessions := s.sessions[i := ss])
  }

  function Destroy(s: State, i: Sid): State
    requires i in s.sessions
  {
    s.(sessions := s.sessions - {i}, destroyed := s.destroyed[i := s.sessions[i]])
  }

  lemma IncOk(c: Config, s: State, i: Sid, username: string, allowed: bool)
    requires Conserved(c, s) && i in s.sessions
    ensures Conserved(c, Inc(c, s, i, username, allowed))
  {
    var s' := Inc(c, s, i, username, allowed);
    if s' != s {
      assert Used(s'.sessions) == Used(s.sessions) + {i};
    }
  }

  lemma DecOk(c: Config, s: State, i: Sid)
    requires Conserved(c, s) && i in s.sessions
    ensures Conserved(c, Dec(c, s, i)) && Dec(c, s, i).sessions.Keys == s.sessions.Keys
    ensures c.hasRelease ==> !Dec(c, s, i).sessions[i].used
  {
    var s' := Dec(c, s, i);
    if s' != s {
      assert Used(s.sessions) == Used(s'.sessions) + {i};
    }
  }

  lemma EditOk(c: Config, s: State, i: Sid, ss: Session)
    requires Conserved(c, s) && i in s.sessions && ss.used == s.sessions[i].used
    ensures Conserved(c, Edit(s, i, ss))
  {
    assert Used(Edit(s, i, ss).sessions) == Used(s.sessions);
  }

  lemma DestroyOk(c: Config, s: State, i: Sid)
    requires Conserved(c, s) && i in s.sessions && (c.hasRelease ==> !s.sessions[i].used)
    ensures Conserved(c, Destroy(s, i))
  {
    UsedMoves(s.sessions, s.destroyed, i);
    hide Used;
  }

  lemma UsedMoves(m: map<Sid, Session>, d: map<Sid, Session>, i: Sid)
    requires i in m && i !in d
    ensures |Used(m - {i})| + |Used(d[i := m[i]])| == |Used(m)| + |Used(d)|
    ensures !m[i].used ==> Used(d[i := m[i]]) == Used(d)
  {
    if m[i].used {
      assert Used(m) == Used(m - {i}) + {i};
      assert Used(d[i := m[i]]) == Used(d) + {i};
    } else {
      assert Used(m) == Used(m - {i});
      assert Used(d[i := m[i]]) == Used(d);
    }
  }

  // ---------------------------------------------------------------- user by user

  /** What a session's quota is given back as: the names it has now. */
  function GrantOf(ss: Session): Grant {
    Grant(ss.username, ss.oauth, ss.realm)
  }

  ghost function HeldBy(m: map<Sid, Session>, g: Grant): set<Sid> {
    set i | i in m && m[i].used && GrantOf(m[i]) == g
  }

  /** Acquisitions under some names, less releases and sessions that hold quota under them. */
  ghost function Drift(s: State, g: Grant): int {
    multiset(s.acquired)[g] - multiset(s.released)[g] - |HeldBy(s.sessions, g)| - |HeldBy(s.destroyed, g)|
  }

  /** For every user and realm the books agree. */
  ghost predicate Balanced(s: State) {
    forall g :: Drift(s, g) == 0
  }

  /** What one session contributes. */
  function Holds(ss: Session, g: Grant): int {
    if ss.used && GrantOf(ss) == g then 1 else 0
  }

  lemma HeldRemove(m: map<Sid, Session>, i: Sid, g: Grant)
    requires i in m
    ensures |HeldBy(m - {i}, g)| == |HeldBy(m, g)| - Holds(m[i], g)
  {
    assert HeldBy(m, g) == HeldBy(m - {i}, g) + if Holds(m[i], g) == 1 then {i} else {};
  }

  lemma HeldUpdate(m: map<Sid, Session>, i: Sid, ss: Session, g: Grant)
    ensures |HeldBy(m[i := ss], g)| == |HeldBy(m, g)| + Holds(ss, g) - if i in m then Holds(m[i], g) else 0
  {
    hide HeldBy;
    HeldRemove(m[i := ss], i, g);
    assert m[i := ss] - {i} == m - {i};
    if i in m {
      HeldRemove(m, i, g);
    } else {
      assert m - {i} == m;
    }
  }

  lemma Appended(l: seq<Grant>, x: Grant, g: Grant)
    ensures multiset(l + [x])[g] == multiset(l)[g] + if g == x then 1 else 0
  {
  }

  lemma IncDrift(c: Config, s: State, i: Sid, username: string, allowed: bool, g: Grant)
    requires i in s.sessions
    ensures Drift(Inc(c, s, i, username, allowed), g) == Drift(s, g)
  {
    var s' := Inc(c, s, i, username, allowed);
    var ss := s'.sessions[i];
    Appended(s.acquired, GrantOf(ss), g);
    HeldUpdate(s.sessions, i, ss, g);
    hide HeldBy;
  }

  lemma DecDrift(c: Config, s: State, i: Sid, g: Grant)
    requires i in s.sessions
    ensures Drift(Dec(c, s, i), g) == Drift(s, g)
  {
    var s' := Dec(c, s, i);
    Appended(s.released, GrantOf(s.sessions[i]), g);
    HeldUpdate(s.sessions, i, s'.sessions[i], g);
    hide HeldBy;
  }

  /** Renaming a session that holds quota shifts the books from the new names to the old ones. */
  lemma EditDrift(s: State, i: Sid, ss: Session, g: Grant)
    ensures Drift(Edit(s, i, ss), g) == Drift(s, g) - Holds(ss, g) + if i in s.sessions then Holds(s.sessions[i], g) else 0
  {
    HeldUpdate(s.sessions, i, ss, g);
    hide HeldBy;
  }

  lemma DestroyDrift(s: State, i: Sid, g: Grant)
    requires i in s.sessions && i !in s.destroyed
    ensures Drift(Destroy(s, i), g) == Drift(s, g)
  {
    HeldRemove(s.sessions, i, g);
    HeldUpdate(s.destroyed, i, s.sessions[i], g);
    hide HeldBy;
  }

  // ---------------------------------------------------------------- the call sites

  /** After a successful credential lookup. */
  function Resumed(c: Config, s: State, i: Sid, oauth: bool, realm: string, allowed: bool): State
    requires i in s.sessions
  {
    var s1 := Edit(s, i, s.sessions[i].(keySet := true, oauth := oauth));
    if realm == "" || realm == s.sessions[i].realm then s1
    else
      var s2 := Dec(c, s1, i);
      var s3 := Edit(s2, i, s2.sessions[i].(realm := realm));
      Inc(c, s3, i, s3.sessions[i].username, allowed)
  }

  /** One session with the credentials of another. */
  function WithCredentials(ss: Session, from: Session): Session {
    ss.(realm := from.realm, username := from.username, keySet := from.keySet, oauth := from.oauth,
        originSet := from.originSet)
  }

  function Copied(c: Config, s: State, from: Sid, to: Sid, allowed: bool): State
    requires from in s.sessions && to in s.sessions
  {
    var s1 := Dec(c, s, to);
    var ss := WithCredentials(s1.sessions[to], s1.sessions[from]);
    Inc(c, Edit(s1, to, ss), to, ss.username, allowed)
  }

  // What check_stun_auth reads of a request: whether there is a MESSAGE-INTEGRITY of the right size, the REALM, and
  // the USERNAME unless it is missing or not secure.
  datatype Request = Request(integrity: bool, realm: Option<string>, username: Option<string>)

  /** What check_stun_auth makes of a session's names, and whether the names are accepted. */
  function Named(c: Config, ss: Session, connectionBind: bool, r: Request): (Session, bool) {
    if !c.longTerm then (ss, true)
    else if !r.integrity || r.realm.None? then (ss, false)
    else if !connectionBind && r.realm.value != ss.realm && !ss.oauth then (ss, false)
    else
      var s1 := if connectionBind then ss.(realm := r.realm.value) else ss;
      if r.username.None? then (s1, false)
      else if ss.username == "" || ss.username == r.username.value then (s1.(username := r.username.value), true)
      else if ss.oauth then (s1.(keySet := false, username := r.username.value), true)
      else (s1, false)
  }

  function Authenticated(c: Config, s: State, i: Sid, connectionBind: bool, r: Request): State
    requires i in s.sessions
  {
    Edit(s, i, Named(c, s.sessions[i], connectionBind, r).0)
  }

  /** When a request changes the names: a CONNECTION-BIND with another realm; another user name on an OAuth session,
      or on one that has none yet. */
  predicate Rewrites(c: Config, ss: Session, connectionBind: bool, r: Request) {
    && c.longTerm && r.integrity && r.realm.Some?
    && ( || (connectionBind && r.realm.value != ss.realm)
         || (r.username.Some? && r.username.value != ss.username
             && (connectionBind || r.realm.value == ss.realm || ss.oauth)
             && (ss.username == "" || ss.oauth)))
  }

  lemma NamedIff(c: Config, ss: Session, connectionBind: bool, r: Request)
    ensures Named(c, ss, connectionBind, r).0.used == ss.used && Named(c, ss, connectionBind, r).0.oauth == ss.oauth
    ensures GrantOf(Named(c, ss, connectionBind, r).0) != GrantOf(ss) <==> Rewrites(c, ss, connectionBind, r)
    ensures !connectionBind ==> Named(c, ss, connectionBind, r).0.realm == ss.realm
  {
  }

  /** The first Allocate of a session decides its realm by the origin. */
  function WithOrigin(ss: Session, realm: string): Session {
    if ss.originSet then ss else ss.(realm := realm, originSet := true)
  }

  /** A mobile REFRESH; what follows the check happens when it and the transfer of the socket succeed. */
  function Refreshed(c: Config, s: State, i: Sid, orig: Sid, r: Request, moved: bool, allowed1: bool, allowed2: bool,
                     allowed3: bool): State
    requires i in s.sessions && orig in s.sessions
  {
    var s1 := Edit(s, i, s.sessions[i].(realm := s.sessions[orig].realm));
    var s2 := if s1.sessions[i].keySet then s1 else Copied(c, s1, orig, i, allowed1);
    var s3 := Authenticated(c, s2, i, false, r);
    if Named(c, s2.sessions[i], false, r).1 && moved then MobileMoved(c, s3, i, orig, allowed2, allowed3) else s3
  }

  function MobileMoved(c: Config, s: State, i: Sid, orig: Sid, allowed2: bool, allowed3: bool): State
    requires i in s.sessions && orig in s.sessions
  {
    var s1 := if s.sessions[i].keySet then Copied(c, s, i, orig, allowed2) else s;
    var s2 := Dec(c, s1, i);
    Inc(c, s2, orig, s2.sessions[orig].username, allowed3)
  }

  lemma IdsApart(c: Config, s: State)
    requires Conserved(c, s)
    ensures s.sessions.Keys !! s.destroyed.Keys
  {
  }

  /** At most one session is different. */
  predicate Touched(m: map<Sid, Session>, m': map<Sid, Session>, i: Sid) {
    m'.Keys == m.Keys && forall j :: j in m && j != i ==> m'[j] == m[j]
  }

  class Server {
    const config: Config
    var sessions: map<Sid, Session>
    var destroyed: map<Sid, Session>
    var acquired: seq<Grant>
    var released: seq<Grant>

    ghost function T(): State
      reads this
    {
      State(sessions, destroyed, acquired, released)
    }

    ghost predicate Valid()
      reads this
    {
      Conserved(config, T())
    }

    constructor (config: Config)
      ensures Valid() && this.config == config && T() == State(map[], map[], [], [])
    {
      this.config := config;
      sessions, destroyed, acquired, released := map[], map[], [], [];
    }

    /** create_new_ss; a session number is not used again. */
    method Create(i: Sid, realm: string)
      requires Valid() && i !in sessions && i !in destroyed
      modifies this
      ensures Valid() && T() == Edit(old(T()), i, Zeroed(realm))
    {
      assert Used(sessions[i := Zeroed(realm)]) == Used(sessions);
      sessions := sessions[i := Zeroed(realm)];
    }

    /** One event, by the handler that it is for. */
    method Do(e: Event)
      requires Valid()
      modifies this
      ensures Valid() && T() == Next(config, old(T()), e)
    {
      hide Inc, Dec, Edit, Copied, Resumed, Refreshed, Authenticated, Destroy;
      IdsApart(config, T());
      hide Conserved;
      match e {
        case NewSession(i, realm) =>
          if i !in sessions && i !in destroyed {
            Create(i, realm);
          }
        case Origin(i, realm) =>
          if i in sessions {
            Rewrite(i, WithOrigin(sessions[i], realm));
          }
        case Auth(i, connectionBind, r) =>
          if i in sessions {
            var _ := CheckAuth(i, connectionBind, r);
          }
        case Allocate(i, username, mobile, allowed) =>
          if i in sessions {
            Rewrite(i, sessions[i].(mobile := mobile || sessions[i].mobile));
            var _ := IncQuota(i, username, allowed);
          }
        case Resume(i, success, oauth, realm, allowed) =>
          if i in sessions {
            ResumeAuth(i, success, oauth, realm, allowed);
          }
        case Mobile(i, orig, r, moved, allowed1, allowed2, allowed3) =>
          if i in sessions && orig in sessions && i != orig {
            MobileRefresh(i, orig, r, moved, true, allowed1, allowed2, allowed3);
          }
        case Close(i, force, allocationValid) =>
          if i in sessions {
            Shutdown(i, force, allocationValid);
          }
      }
    }

    method IncQuota(i: Sid, username: string, allowed: bool) returns (ret: int)
      requires Valid() && i in sessions
      modifies this
      ensures Valid() && T() == Inc(config, old(T()), i, username, allowed)
      ensures ret == if Denied(config, old(sessions)[i], allowed) then -1 else 0
      ensures Touched(old(sessions), sessions, i) && destroyed == old(destroyed) && released == old(released)
      ensures sessions[i] == old(sessions)[i].(used := sessions[i].used, username := sessions[i].username)
      ensures config.hasCheck && allowed && (config.longTerm ==> old(sessions)[i].originSet) ==> sessions[i].used
      ensures username == old(sessions)[i].username ==> sessions[i].username == username
    {
      hide Conserved;
      IncOk(config, T(), i, username, allowed);
      var ss := sessions[i];
      if !ss.used && config.hasCheck {
        if config.longTerm {
          if !ss.originSet {
            return -1;
          }
        }
        if !allowed {
          return -1;
        } else {
          acquired := acquired + [Grant(username, ss.oauth, ss.realm)];
          sessions := sessions[i := ss.(username := username, used := true)];
        }
      }
      return 0;
    }

    method DecQuota(i: Sid)
      requires Valid() && i in sessions
      modifies this
      ensures Valid() && T() == Dec(config, old(T()), i)
      ensures config.hasRelease ==> !sessions[i].used
      ensures Touched(old(sessions), sessions, i) && destroyed == old(destroyed)
      ensures sessions[i] == old(sessions)[i].(used := sessions[i].used)
    {
      hide Conserved;
      DecOk(config, T(), i);
      var ss := sessions[i];
      if ss.used && config.hasRelease {
        sessions := sessions[i := ss.(used := false)];
        released := released + [Grant(ss.username, ss.oauth, ss.realm)];
      }
    }

    method Rewrite(i: Sid, ss: Session)
      requires Valid() && i in sessions && ss.used == sessions[i].used
      modifies this
      ensures Valid() && T() == Edit(old(T()), i, ss)
      ensures Touched(old(sessions), sessions, i) && sessions[i] == ss
      ensures destroyed == old(destroyed) && acquired == old(acquired) && released == old(released)
    {
      hide Conserved;
      EditOk(config, T(), i, ss);
      sessions := sessions[i := ss];
    }

    /** resume_processing_after_username_check: a new realm gives the quota back and asks for it again. */
    method ResumeAuth(i: Sid, success: bool, oauth: bool, realm: string, allowed: bool)
      requires Valid() && i in sessions
      modifies this
      ensures Valid() && T() == if success then Resumed(config, old(T()), i, oauth, realm, allowed) else old(T())
    {
      hide Conserved, Inc, Dec;
      if success {
        Rewrite(i, sessions[i].(keySet := true, oauth := oauth));
        if realm != "" && realm != sessions[i].realm {
          DecQuota(i);
          Rewrite(i, sessions[i].(realm := realm));
          var _ := IncQuota(i, sessions[i].username, allowed);
        }
      }
    }

    /** check_stun_auth: the rewriting of the realm and of the user name, with or without quota held. */
    method CheckAuth(i: Sid, connectionBind: bool, r: Request) returns (ok: bool)
      requires Valid() && i in sessions
      modifies this
      ensures Valid() && T() == Authenticated(config, old(T()), i, connectionBind, r)
      ensures ok == Named(config, old(sessions)[i], connectionBind, r).1
      ensures Touched(old(sessions), sessions, i) && destroyed == old(destroyed)
    {
      hide Conserved, Edit;
      var ss;
      ss, ok := CheckNames(config, sessions[i], connectionBind, r);
      Rewrite(i, ss);
    }

    /** copy_auth_parameters. */
    method CopyAuth(from: Sid, to: Sid, allowed: bool)
      requires Valid() && from in sessions && to in sessions && from != to
      modifies this
      ensures Valid() && T() == Copied(config, old(T()), from, to, allowed)
      ensures Touched(old(sessions), sessions, to) && destroyed == old(destroyed)
      ensures sessions[to] == WithCredentials(sessions[to], sessions[from])
    {
      hide Conserved, Inc, Dec;
      DecQuota(to);
      Rewrite(to, WithCredentials(sessions[to], sessions[from]));
      var _ := IncQuota(to, sessions[to].username, allowed);
    }

    /** The quota side of a mobile REFRESH that takes the allocation of orig over to a new client connection: authentic
        and transferred are what the checks behind the names say. */
    method MobileRefresh(i: Sid, orig: Sid, r: Request, authentic: bool, transferred: bool, allowed1: bool, allowed2: bool,
                         allowed3: bool)
      requires Valid() && i in sessions && orig in sessions && i != orig
      modifies this
      ensures Valid() && T() == Refreshed(config, old(T()), i, orig, r, authentic && transferred, allowed1, allowed2, allowed3)
    {
      hide Conserved, Inc, Dec, Edit, Copied, Named;
      Rewrite(i, sessions[i].(realm := sessions[orig].realm));
      if !sessions[i].keySet {
        CopyAuth(orig, i, allowed1);
      }
      var ok := CheckAuth(i, false, r);
      if ok && authentic && transferred {
        if sessions[i].keySet {
          CopyAuth(i, orig, allowed2);
        }
        DecQuota(i);
        var _ := IncQuota(orig, sessions[orig].username, allowed3);
      }
    }

    /** shutdown_client_connection: the quota goes first; a mobile session with an allocation stays for a while. */
    method Shutdown(i: Sid, force: bool, allocationValid: bool)
      requires Valid() && i in sessions
      modifies this
      ensures Valid()
      ensures if !force && allocationValid && old(sessions)[i].mobile
              then T() == Dec(config, old(T()), i)
              else T() == Destroy(Dec(config, old(T()), i), i)
      ensures i in destroyed && config.hasRelease ==> !destroyed[i].used || i in old(destroyed)
    {
      hide Conserved;
      DecQuota(i);
      var forced := force || !allocationValid;
      if !forced && sessions[i].mobile {
        return;
      }
      DestroyOk(config, T(), i);
      destroyed := destroyed[i := sessions[i]];
      sessions := sessions - {i};
    }
  }

  /** The part of check_stun_auth that looks at the names, on the session it is given. */
  method CheckNames(c: Config, given: Session, connectionBind: bool, r: Request) returns (ss: Session, ok: bool)
    ensures (ss, ok) == Named(c, given, connectionBind, r) && ss.used == given.used
  {
    ss := given;
    if !c.longTerm {
      return ss, true;
    }
    if !r.integrity || r.realm.None? {
      return ss, false;
    }
    if connectionBind {
      ss := ss.(realm := r.realm.value);
    } else if r.realm.value != ss.realm {
      if !ss.oauth {
        return ss, false;
      }
    }
    if r.username.None? {
      return ss, false;
    }
    if ss.username != "" {
      if ss.username != r.username.value {
        if ss.oauth {
          ss := ss.(keySet := false, username := r.username.value);
        } else {
          return ss, false;
        }
      }
    } else {
      ss := ss.(username := r.username.value);
    }
    return ss, true;
  }

  // ---------------------------------------------------------------- whole runs

  datatype Event =
    | NewSession(i: Sid, realm: string)
    | Origin(i: Sid, realm: string)
    | Auth(i: Sid, connectionBind: bool, r: Request)
    | Allocate(i: Sid, username: string, mobile: bool, allowed: bool)
    | Resume(i: Sid, success: bool, oauth: bool, realm: string, allowed: bool)
    | Mobile(i: Sid, orig: Sid, r: Request, moved: bool, allowed1: bool, allowed2: bool, allowed3: bool)
    | Close(i: Sid, force: bool, allocationValid: bool)

  /** create_new_ss zeroes a session and gives it the default realm. */
  function Zeroed(realm: string): Session {
    Session(false, "", false, realm, false, false, false)
  }

  /** An event of the server; one about a session that is not there changes nothing. */
  function Next(c: Config, s: State, e: Event): State {
    match e
    case NewSession(i, realm) => if i in s.sessions || i in s.destroyed then s else Edit(s, i, Zeroed(realm))
    case Origin(i, realm) => if i in s.sessions then Edit(s, i, WithOrigin(s.sessions[i], realm)) else s
    case Auth(i, connectionBind, r) => if i in s.sessions then Authenticated(c, s, i, connectionBind, r) else s
    case Allocate(i, username, mobile, allowed) =>
      if i in s.sessions then Inc(c, Edit(s, i, s.sessions[i].(mobile := mobile || s.sessions[i].mobile)), i, username, allowed)
      else s
    case Resume(i, success, oauth, realm, allowed) =>
      if i in s.sessions && success then Resumed(c, s, i, oauth, realm, allowed) else s
    case Mobile(i, orig, r, moved, allowed1, allowed2, allowed3) =>
      if i in s.sessions && orig in s.sessions && i != orig then
        Refreshed(c, s, i, orig, r, moved, allowed1, allowed2, allowed3)
      else s
    case Close(i, force, allocationValid) =>
      if i !in s.sessions then s
      else if !force && allocationValid && s.sessions[i].mobile then Dec(c, s, i)
      else Destroy(Dec(c, s, i), i)
  }

  const START := State(map[], map[], [], [])

  function Reached(c: Config, events: seq<Event>): State {
    if events == [] then START else Next(c, Reached(c, events[..|events| - 1]), events[|events| - 1])
  }

  /** Over every run, with the callbacks answering as they like: acquisitions less releases are the sessions holding
      quota, and a destroyed session holds none. */
  method Run(c: Config, events: seq<Event>) returns (m: Server)
    ensures fresh(m) && m.config == c && m.Valid() && m.T() == Reached(c, events)
    ensures c.hasRelease ==>
      && |m.acquired| - |m.released| == |Used(m.sessions)|
      && forall i :: i in m.destroyed ==> !m.destroyed[i].used
  {
    hide Conserved, Next;
    m := new Server(c);
    for k := 0 to |events|
      invariant fresh(m) && m.config == c && m.Valid() && m.T() == Reached(c, events[..k])
    {
      assert events[..k + 1][..k] == events[..k];
      m.Do(events[k]);
    }
    assert events[..|events|] == events;
    ValidMeans(c, m.T());
  }

  lemma ValidMeans(c: Config, s: State)
    requires Conserved(c, s)
    ensures c.hasRelease ==> |s.acquired| - |s.released| == |Used(s.sessions)| && forall i :: i in s.destroyed ==> !s.destroyed[i].used
  {
    forall i | i in s.destroyed && s.destroyed[i].used
      ensures i in Used(s.destroyed)
    {
    }
  }

  // ---------------------------------------------------------------- when the books agree user by user

  /** The events that rename a session while it holds quota. */
  predicate Renames(c: Config, s: State, e: Event) {
    match e
    case Origin(i, realm) => i in s.sessions && s.sessions[i].used && !s.sessions[i].originSet && realm != s.sessions[i].realm
    case Auth(i, connectionBind, r) => i in s.sessions && s.sessions[i].used && Rewrites(c, s.sessions[i], connectionBind, r)
    case Resume(i, success, oauth, _, _) => i in s.sessions && success && s.sessions[i].used && oauth != s.sessions[i].oauth
    case Mobile(i, orig, r, _, allowed1, _, _) =>
      && i in s.sessions && orig in s.sessions && i != orig
      && ( || (s.sessions[i].used && s.sessions[orig].realm != s.sessions[i].realm)
           || RenamesChecked(c, s, i, orig, r, allowed1))
    case _ => false
  }

  /** The renaming by the check of a mobile REFRESH, on the session as it is by then. */
  predicate RenamesChecked(c: Config, s: State, i: Sid, orig: Sid, r: Request, allowed: bool)
    requires i in s.sessions && orig in s.sessions && i != orig
  {
    var ss := s.sessions[i].(realm := s.sessions[orig].realm);
    if ss.keySet then ss.used && Rewrites(c, ss, false, r)
    else
      // its quota is given back and asked for again under the names of the other session
      var copy := WithCredentials(ss, s.sessions[orig]);
      && (if c.hasCheck then allowed && (c.longTerm ==> copy.originSet) else false)
      && Rewrites(c, copy, false, r)
  }

  /** Each event keeps the books of every user if and only if it does not rename a session that holds quota. */
  lemma StepBalancedIff(c: Config, s: State, e: Event)
    requires c.hasRelease && Conserved(c, s) && Balanced(s)
    ensures Balanced(Next(c, s, e)) <==> !Renames(c, s, e)
  {
    hide Drift, Conserved;
    IdsApart(c, s);
    match e {
      case NewSession(i, realm) =>
        if i !in s.sessions && i !in s.destroyed {
          RenameIff(s, i, Zeroed(realm));
        }
      case Origin(i, realm) =>
        if i in s.sessions {
          RenameIff(s, i, WithOrigin(s.sessions[i], realm));
        }
      case Auth(i, connectionBind, r) =>
        if i in s.sessions {
          NamedIff(c, s.sessions[i], connectionBind, r);
          RenameIff(s, i, Named(c, s.sessions[i], connectionBind, r).0);
        }
      case Allocate(i, username, mobile, allowed) =>
        if i in s.sessions {
          var s1 := Edit(s, i, s.sessions[i].(mobile := mobile || s.sessions[i].mobile));
          RenameIff(s, i, s1.sessions[i]);
          IncSame(c, s1, i, username, allowed);
        }
      case Resume(i, success, oauth, realm, allowed) =>
        if i in s.sessions && success {
          ResumedIff(c, s, i, oauth, realm, allowed);
        }
      case Mobile(i, orig, r, moved, allowed1, allowed2, allowed3) =>
        if i in s.sessions && orig in s.sessions && i != orig {
          RefreshedIff(c, s, i, orig, r, moved, allowed1, allowed2, allowed3);
        }
      case Close(i, force, allocationValid) =>
        if i in s.sessions {
          DecSame(c, s, i);
          DestroySame(Dec(c, s, i), i);
        }
    }
  }

  /** The two states have the same books. */
  ghost predicate SameBooks(s: State, t: State) {
    forall g :: Drift(t, g) == Drift(s, g)
  }

  lemma IncSame(c: Config, s: State, i: Sid, username: string, allowed: bool)
    requires i in s.sessions
    ensures SameBooks(s, Inc(c, s, i, username, allowed))
  {
    forall g
      ensures Drift(Inc(c, s, i, username, allowed), g) == Drift(s, g)
    {
      IncDrift(c, s, i, username, allowed, g);
    }
  }

  lemma DecSame(c: Config, s: State, i: Sid)
    requires i in s.sessions
    ensures SameBooks(s, Dec(c, s, i)) && Dec(c, s, i).sessions.Keys == s.sessions.Keys
    ensures Dec(c, s, i).destroyed == s.destroyed
  {
    forall g
      ensures Drift(Dec(c, s, i), g) == Drift(s, g)
    {
      DecDrift(c, s, i, g);
    }
  }

  lemma DestroySame(s: State, i: Sid)
    requires i in s.sessions && i !in s.destroyed
    ensures SameBooks(s, Destroy(s, i))
  {
    forall g
      ensures Drift(Destroy(s, i), g) == Drift(s, g)
    {
      DestroyDrift(s, i, g);
    }
  }

  /** Editing a session keeps balanced books if and only if it holds no quota or keeps its names. */
  lemma RenameIff(s: State, i: Sid, ss: Session)
    requires Balanced(s) && ss.used == (i in s.sessions && s.sessions[i].used)
    ensures Balanced(Edit(s, i, ss)) <==> !ss.used || GrantOf(ss) == GrantOf(s.sessions[i])
  {
    hide Drift;
    forall g
      ensures Drift(Edit(s, i, ss), g) == (if i in s.sessions then Holds(s.sessions[i], g) else 0) - Holds(ss, g)
    {
      EditDrift(s, i, ss, g);
    }
    if ss.used && GrantOf(ss) != GrantOf(s.sessions[i]) {
      assert Drift(Edit(s, i, ss), GrantOf(ss)) != 0;
    }
  }

  lemma ResumedIff(c: Config, s: State, i: Sid, oauth: bool, realm: string, allowed: bool)
    requires c.hasRelease && Balanced(s) && i in s.sessions
    ensures Balanced(Resumed(c, s, i, oauth, realm, allowed)) <==> !(s.sessions[i].used && oauth != s.sessions[i].oauth)
  {
    hide Drift;
    var s1 := Edit(s, i, s.sessions[i].(keySet := true, oauth := oauth));
    RenameIff(s, i, s1.sessions[i]);
    if realm != "" && realm != s.sessions[i].realm {
      var s2 := Dec(c, s1, i);
      var s3 := Edit(s2, i, s2.sessions[i].(realm := realm));
      DecSame(c, s1, i);
      FreeEdit(s2, i, s3.sessions[i]);
      IncSame(c, s3, i, s3.sessions[i].username, allowed);
      hide Inc, Dec, Edit;
    }
  }

  /** A session without quota may be renamed. */
  lemma FreeEdit(s: State, i: Sid, ss: Session)
    requires i in s.sessions && !s.sessions[i].used && !ss.used
    ensures SameBooks(s, Edit(s, i, ss))
  {
    forall g
      ensures Drift(Edit(s, i, ss), g) == Drift(s, g)
    {
      EditDrift(s, i, ss, g);
    }
  }

  lemma CopiedSame(c: Config, s: State, from: Sid, to: Sid, allowed: bool)
    requires c.hasRelease && from in s.sessions && to in s.sessions && from != to
    ensures SameBooks(s, Copied(c, s, from, to, allowed)) && Copied(c, s, from, to, allowed).sessions.Keys == s.sessions.Keys
  {
    hide Drift;
    var s1 := Dec(c, s, to);
    var ss := WithCredentials(s1.sessions[to], s1.sessions[from]);
    var s2 := Edit(s1, to, ss);
    DecSame(c, s, to);
    FreeEdit(s1, to, ss);
    IncSame(c, s2, to, ss.username, allowed);
  }

  lemma MovedSame(c: Config, s: State, i: Sid, orig: Sid, allowed2: bool, allowed3: bool)
    requires c.hasRelease && i in s.sessions && orig in s.sessions && i != orig
    ensures SameBooks(s, MobileMoved(c, s, i, orig, allowed2, allowed3))
  {
    hide Drift;
    CopiedSame(c, s, i, orig, allowed2);
    var s1 := if s.sessions[i].keySet then Copied(c, s, i, orig, allowed2) else s;
    hide Copied;
    DecSame(c, s1, i);
    var s2 := Dec(c, s1, i);
    IncSame(c, s2, orig, s2.sessions[orig].username, allowed3);
    hide Inc, Dec;
  }

  /** What the check of a mobile REFRESH finds: the session under the other one's realm. */
  lemma BeforeCheck(c: Config, s: State, i: Sid, orig: Sid, r: Request, allowed: bool) returns (s2: State)
    requires c.hasRelease && i in s.sessions && orig in s.sessions && i != orig
    ensures var s1 := Edit(s, i, s.sessions[i].(realm := s.sessions[orig].realm));
            && s2 == (if s1.sessions[i].keySet then s1 else Copied(c, s1, orig, i, allowed))
            && SameBooks(s1, s2) && s2.sessions.Keys == s.sessions.Keys
    ensures s2.sessions[i].realm == s.sessions[orig].realm
    ensures s2.sessions[i].used && Rewrites(c, s2.sessions[i], false, r) <==> RenamesChecked(c, s, i, orig, r, allowed)
  {
    hide Drift;
    var s1 := Edit(s, i, s.sessions[i].(realm := s.sessions[orig].realm));
    CopiedSame(c, s1, orig, i, allowed);
    s2 := if s1.sessions[i].keySet then s1 else Copied(c, s1, orig, i, allowed);
    hide SameBooks;
  }

  lemma RefreshedIff(c: Config, s: State, i: Sid, orig: Sid, r: Request, moved: bool, allowed1: bool, allowed2: bool,
                     allowed3: bool)
    requires c.hasRelease && Balanced(s) && i in s.sessions && orig in s.sessions && i != orig
    ensures Balanced(Refreshed(c, s, i, orig, r, moved, allowed1, allowed2, allowed3)) <==>
            !(s.sessions[i].used && s.sessions[orig].realm != s.sessions[i].realm) && !RenamesChecked(c, s, i, orig, r, allowed1)
  {
    hide Drift, Rewrites, RenamesChecked, MobileMoved, Copied;
    var a := s.sessions[i];
    var a1 := a.(realm := s.sessions[orig].realm);
    var s1 := Edit(s, i, a1);
    var s2 := BeforeCheck(c, s, i, orig, r, allowed1);
    var b := s2.sessions[i];
    var b1 := Named(c, b, false, r).0;
    NamedIff(c, b, false, r);
    var s3 := Edit(s2, i, b1);
    MovedSame(c, s3, i, orig, allowed2, allowed3);
    var t := Refreshed(c, s, i, orig, r, moved, allowed1, allowed2, allowed3);
    hide Refreshed, Named;
    forall g
      ensures Drift(t, g) == Holds(a, g) - Holds(a1, g) + Holds(b, g) - Holds(b1, g)
    {
      EditDrift(s, i, a1, g);
      EditDrift(s2, i, b1, g);
    }
    if a.used && a.realm != a1.realm {
      assert Drift(t, GrantOf(a)) >= 1;
    } else if b.used && GrantOf(b) != GrantOf(b1) {
      assert Drift(t, GrantOf(b)) == 1;
    }
  }

  ghost predicate BooksAgree(c: Config, events: seq<Event>) {
    forall k :: 0 <= k <= |events| ==> Balanced(Reached(c, events[..k]))
  }

  ghost predicate NoneRenamed(c: Config, events: seq<Event>) {
    forall k :: 0 <= k < |events| ==> !Renames(c, Reached(c, events[..k]), events[k])
  }

  /** Over every run: the books of every user agree at each moment if and only if no event renames a session that
      holds quota. */
  lemma {:induction false} RunBalancedIff(c: Config, events: seq<Event>)
    requires c.hasRelease
    ensures Conserved(c, Reached(c, events))
    ensures BooksAgree(c, events) <==> NoneRenamed(c, events)
  {
    hide Balanced, Renames, Conserved, Next, BooksAgree, NoneRenamed;
    if events == [] {
      StartBalanced(c);
      EmptyRun(c);
    } else {
      var before, e := events[..|events| - 1], events[|events| - 1];
      RunBalancedIff(c, before);
      NextConserved(c, Reached(c, before), e);
      Longer(c, events);
      if Balanced(Reached(c, before)) {
        StepBalancedIff(c, Reached(c, before), e);
      }
    }
  }

  lemma EmptyRun(c: Config)
    requires Balanced(START)
    ensures BooksAgree(c, []) && NoneRenamed(c, [])
  {
  }

  lemma Longer(c: Config, events: seq<Event>)
    requires events != []
    ensures var before, e := events[..|events| - 1], events[|events| - 1];
            && (BooksAgree(c, events) <==> BooksAgree(c, before) && Balanced(Reached(c, events)))
            && (NoneRenamed(c, events) <==> NoneRenamed(c, before) && !Renames(c, Reached(c, before), e))
            && (BooksAgree(c, before) ==> Balanced(Reached(c, before)))
  {
    hide Balanced, Renames, Reached;
    var before := events[..|events| - 1];
    assert forall k :: 0 <= k <= |before| ==> events[..k] == before[..k];
    assert events[..|events|] == events && before[..|before|] == before;
  }

  lemma StartBalanced(c: Config)
    ensures Balanced(START) && Conserved(c, START)
  {
    assert Used(START.sessions) == {} && Used(START.destroyed) == {};
    assert forall g :: HeldBy(START.sessions, g) == {};
  }

  lemma NextConserved(c: Config, s: State, e: Event)
    requires Conserved(c, s)
    ensures Conserved(c, Next(c, s, e))
  {
    IdsApart(c, s);
    hide Conserved;
    match e {
      case NewSession(i, realm) =>
        if i !in s.sessions && i !in s.destroyed {
          CreateOk(c, s, i, realm);
        }
      case Origin(i, realm) =>
        if i in s.sessions {
          EditOk(c, s, i, WithOrigin(s.sessions[i], realm));
        }
      case Auth(i, connectionBind, r) =>
        if i in s.sessions {
          EditOk(c, s, i, Named(c, s.sessions[i], connectionBind, r).0);
        }
      case Allocate(i, username, mobile, allowed) =>
        if i in s.sessions {
          var ss := s.sessions[i].(mobile := mobile || s.sessions[i].mobile);
          EditOk(c, s, i, ss);
          IncOk(c, Edit(s, i, ss), i, username, allowed);
        }
      case Resume(i, success, oauth, realm, allowed) =>
        if i in s.sessions && success {
          ResumedOk(c, s, i, oauth, realm, allowed);
        }
      case Mobile(i, orig, r, moved, allowed1, allowed2, allowed3) =>
        if i in s.sessions && orig in s.sessions && i != orig {
          RefreshedOk(c, s, i, orig, r, moved, allowed1, allowed2, allowed3);
        }
      case Close(i, force, allocationValid) =>
        if i in s.sessions {
          DecOk(c, s, i);
          DestroyOk(c, Dec(c, s, i), i);
        }
    }
  }

  lemma CreateOk(c: Config, s: State, i: Sid, realm: string)
    requires Conserved(c, s) && i !in s.sessions && i !in s.destroyed
    ensures Conserved(c, Edit(s, i, Zeroed(realm)))
  {
    assert Used(s.sessions[i := Zeroed(realm)]) == Used(s.sessions);
  }

  lemma ResumedOk(c: Config, s: State, i: Sid, oauth: bool, realm: string, allowed: bool)
    requires Conserved(c, s) && i in s.sessions
    ensures Conserved(c, Resumed(c, s, i, oauth, realm, allowed))
  {
    hide Conserved;
    var s1 := Edit(s, i, s.sessions[i].(keySet := true, oauth := oauth));
    EditOk(c, s, i, s1.sessions[i]);
    var s2 := Dec(c, s1, i);
    DecOk(c, s1, i);
    var s3 := Edit(s2, i, s2.sessions[i].(realm := realm));
    EditOk(c, s2, i, s3.sessions[i]);
    IncOk(c, s3, i, s3.sessions[i].username, allowed);
    hide Inc, Dec, Edit;
  }

  lemma CopiedOk(c: Config, s: State, from: Sid, to: Sid, allowed: bool)
    requires Conserved(c, s) && from in s.sessions && to in s.sessions
    ensures Conserved(c, Copied(c, s, from, to, allowed))
    ensures Copied(c, s, from, to, allowed).sessions.Keys == s.sessions.Keys
  {
    hide Conserved;
    var s1 := Dec(c, s, to);
    var ss := WithCredentials(s1.sessions[to], s1.sessions[from]);
    DecOk(c, s, to);
    EditOk(c, s1, to, ss);
    IncOk(c, Edit(s1, to, ss), to, ss.username, allowed);
    hide Inc, Dec;
  }

  lemma RefreshedOk(c: Config, s: State, i: Sid, orig: Sid, r: Request, moved: bool, allowed1: bool, allowed2: bool,
                    allowed3: bool)
    requires Conserved(c, s) && i in s.sessions && orig in s.sessions && i != orig
    ensures Conserved(c, Refreshed(c, s, i, orig, r, moved, allowed1, allowed2, allowed3))
  {
    hide Conserved, Inc, Dec, Named;
    var s1 := Edit(s, i, s.sessions[i].(realm := s.sessions[orig].realm));
    EditOk(c, s, i, s1.sessions[i]);
    CopiedOk(c, s1, orig, i, allowed1);
    var s2 := if s1.sessions[i].keySet then s1 else Copied(c, s1, orig, i, allowed1);
    hide Copied;
    NamedIff(c, s2.sessions[i], false, r);
    EditOk(c, s2, i, Named(c, s2.sessions[i], false, r).0);
    var s3 := Authenticated(c, s2, i, false, r);
    CopiedOk(c, s3, i, orig, allowed2);
    var s4 := if s3.sessions[i].keySet then Copied(c, s3, i, orig, allowed2) else s3;
    DecOk(c, s4, i);
    var s5 := Dec(c, s4, i);
    IncOk(c, s5, orig, s5.sessions[orig].username, allowed3);
    hide Edit, Authenticated;
  }

  lemma After(c: Config, events: seq<Event>, k: nat)
    requires k < |events|
    ensures Reached(c, events[..k + 1]) == Next(c, Reached(c, events[..k]), events[k])
    ensures Reached(c, events[..0]) == START
  {
    assert events[..k + 1][..k] == events[..k];
  }

  // An OAuth session and a user who changes the name that is authenticated, and a CONNECTION-BIND under another realm.

  function Asking(realm: string, username: string): Request {
    Request(true, Some(realm), Some(username))
  }

  function One(ss: Session, acquired: seq<Grant>): State {
    State(map[0 := ss], map[], acquired, [])
  }

  lemma Opened(c: Config, realm: string)
    ensures Next(c, START, NewSession(0, realm)) == One(Zeroed(realm), [])
    ensures Next(c, One(Zeroed(realm), []), Origin(0, realm)) == One(Zeroed(realm).(originSet := true), [])
  {
  }

  lemma AskedAuth(c: Config, ss: Session, acquired: seq<Grant>, connectionBind: bool, r: Request)
    ensures Next(c, One(ss, acquired), Auth(0, connectionBind, r)) == One(Named(c, ss, connectionBind, r).0, acquired)
  {
    hide Named;
  }

  lemma FoundUser(c: Config, ss: Session, oauth: bool)
    ensures Next(c, One(ss, []), Resume(0, true, oauth, ss.realm, true)) == One(ss.(keySet := true, oauth := oauth), [])
  {
  }

  lemma Allocated(c: Config, ss: Session)
    requires !ss.used && ss.originSet && c.hasCheck
    ensures Next(c, One(ss, []), Allocate(0, ss.username, false, true)) == One(ss.(used := true), [GrantOf(ss)])
  {
  }

  lemma Closed(c: Config, ss: Session, acquired: seq<Grant>)
    requires ss.used && c.hasRelease
    ensures Next(c, One(ss, acquired), Close(0, true, true)).sessions == map[]
    ensures Next(c, One(ss, acquired), Close(0, true, true)).acquired == acquired
    ensures Next(c, One(ss, acquired), Close(0, true, true)).released == [GrantOf(ss)]
  {
  }

  /** A run in which one user name acquires quota and another gives it back: an OAuth client names itself anew. */
  lemma RenamedUser(c: Config)
    requires c.longTerm && c.hasCheck && c.hasRelease
    ensures var events := [NewSession(0, "r"), Origin(0, "r"), Auth(0, false, Asking("r", "a")),
                           Resume(0, true, true, "r", true), Allocate(0, "a", false, true),
                           Auth(0, false, Asking("r", "b")), Close(0, true, true)];
            var s := Reached(c, events);
            s.acquired == [Grant("a", true, "r")] && s.released == [Grant("b", true, "r")] && s.sessions == map[]
  {
    hide Reached, Next, One;
    var e := [NewSession(0, "r"), Origin(0, "r"), Auth(0, false, Asking("r", "a")), Resume(0, true, true, "r", true),
              Allocate(0, "a", false, true), Auth(0, false, Asking("r", "b")), Close(0, true, true)];
    var a := Session(false, "a", true, "r", true, true, false);
    After(c, e, 0);
    After(c, e, 1);
    Opened(c, "r");
    After(c, e, 2);
    AskedAuth(c, Zeroed("r").(originSet := true), [], false, Asking("r", "a"));
    After(c, e, 3);
    FoundUser(c, a.(oauth := false, keySet := false), true);
    After(c, e, 4);
    Allocated(c, a);
    After(c, e, 5);
    AskedAuth(c, a.(used := true), [GrantOf(a)], false, Asking("r", "b"));
    After(c, e, 6);
    Closed(c, a.(used := true, username := "b", keySet := false), [GrantOf(a)]);
    assert e[..7] == e;
  }

  /** The same for a realm: a data connection of the session is bound under another one. */
  lemma RenamedRealm(c: Config)
    requires c.longTerm && c.hasCheck && c.hasRelease
    ensures var events := [NewSession(0, "r"), Origin(0, "r"), Auth(0, false, Asking("r", "a")),
                           Allocate(0, "a", false, true), Auth(0, true, Asking("q", "a")), Close(0, true, true)];
            var s := Reached(c, events);
            s.acquired == [Grant("a", false, "r")] && s.released == [Grant("a", false, "q")] && s.sessions == map[]
  {
    hide Reached, Next, One;
    var e := [NewSession(0, "r"), Origin(0, "r"), Auth(0, false, Asking("r", "a")), Allocate(0, "a", false, true),
              Auth(0, true, Asking("q", "a")), Close(0, true, true)];
    var a := Session(false, "a", false, "r", true, false, false);
    After(c, e, 0);
    After(c, e, 1);
    Opened(c, "r");
    After(c, e, 2);
    AskedAuth(c, Zeroed("r").(originSet := true), [], false, Asking("r", "a"));
    After(c, e, 3);
    Allocated(c, a);
    After(c, e, 4);
    AskedAuth(c, a.(used := true), [GrantOf(a)], true, Asking("q", "a"));
    After(c, e, 5);
    Closed(c, a.(used := true, realm := "q"), [GrantOf(a)]);
    assert e[..6] == e;
  }
}
