/** What every event of the quota machine does to the sessions and to the books, written out. */
module QuotaEffects {
  import opened Options
  import opened Quota

  /** The quota callback is asked for a session that holds none and grants it: the origin is known, where that counts. */
  predicate Granted(c: Config, used: bool, originSet: bool, allowed: bool) {
    !used && c.hasCheck && allowed && (c.longTerm ==> originSet)
  }

  function Maybe(b: bool, g: Grant): seq<Grant> {
    if b then [g] else []
  }

  /** One session is different, and the books have grown. */
  function Updated(s: State, i: Sid, ss: Session, acquired: seq<Grant>, released: seq<Grant>): State {
    State(s.sessions[i := ss], s.destroyed, s.acquired + acquired, s.released + released)
  }

  lemma UpdatedTwice(s: State, i: Sid, x: Session, y: Session, a: seq<Grant>, r: seq<Grant>)
    ensures Updated(Updated(s, i, x, [], []), i, y, a, r) == Updated(s, i, y, a, r)
  {
    assert s.acquired + [] + a == s.acquired + a && s.released + [] + r == s.released + r;
  }

  lemma IncEffect(c: Config, s: State, i: Sid, username: string, allowed: bool)
    requires i in s.sessions
    ensures var ss := s.sessions[i];
            var granted := Granted(c, ss.used, ss.originSet, allowed);
            Inc(c, s, i, username, allowed)
            == Updated(s, i, ss.(used := ss.used || granted, username := if granted then username else ss.username),
                       Maybe(granted, Grant(username, ss.oauth, ss.realm)), [])
  {
    assert s.sessions == s.sessions[i := s.sessions[i]];
  }

  lemma DecEffect(c: Config, s: State, i: Sid)
    requires i in s.sessions
    ensures var ss := s.sessions[i];
            Dec(c, s, i)
            == Updated(s, i, ss.(used := ss.used && !c.hasRelease), [],
                       Maybe(ss.used && c.hasRelease, Grant(ss.username, ss.oauth, ss.realm)))
  {
    assert s.sessions == s.sessions[i := s.sessions[i]];
  }

  lemma EditEffect(s: State, i: Sid, ss: Session)
    ensures Edit(s, i, ss) == Updated(s, i, ss, [], [])
  {
  }

  /** Quota that is held is given back, the session gets other names, and quota is asked for again. */
  lemma Reasked(c: Config, s: State, i: Sid, named: Session, allowed: bool)
    requires i in s.sessions && named.used == (s.sessions[i].used && !c.hasRelease)
    ensures var b := s.sessions[i];
            var granted := Granted(c, named.used, named.originSet, allowed);
            Inc(c, Edit(Dec(c, s, i), i, named), i, named.username, allowed)
            == Updated(s, i, named.(used := named.used || granted),
                       Maybe(granted, Grant(named.username, named.oauth, named.realm)),
                       Maybe(b.used && c.hasRelease, Grant(b.username, b.oauth, b.realm)))
  {
    DecEffect(c, s, i);
    var s2 := Edit(Dec(c, s, i), i, named);
    EditEffect(Dec(c, s, i), i, named);
    IncEffect(c, s2, i, named.username, allowed);
    hide Inc, Dec, Edit, Granted, Maybe;
  }

  // ---------------------------------------------------------------- the events

  lemma CreateEffect(c: Config, s: State, i: Sid, realm: string)
    requires i !in s.sessions && i !in s.destroyed
    ensures Next(c, s, NewSession(i, realm)) == Updated(s, i, Session(false, "", false, realm, false, false, false), [], [])
  {
  }

  /** Only the first Allocate of a session decides its realm. */
  lemma OriginEffect(c: Config, s: State, i: Sid, realm: string)
    requires i in s.sessions
    ensures var ss := s.sessions[i];
            Next(c, s, Origin(i, realm))
            == Updated(s, i, ss.(originSet := true, realm := if ss.originSet then ss.realm else realm), [], [])
  {
  }

  /** An Allocate that is granted makes the session hold quota under the user name of the request; one that is denied,
      and one of a session that already holds quota, leaves the books alone. */
  lemma AllocateEffect(c: Config, s: State, i: Sid, username: string, mobile: bool, allowed: bool)
    requires i in s.sessions
    ensures var ss := s.sessions[i];
            var granted := Granted(c, ss.used, ss.originSet, allowed);
            Next(c, s, Allocate(i, username, mobile, allowed))
            == Updated(s, i, ss.(mobile := mobile || ss.mobile, used := ss.used || granted,
                                 username := if granted then username else ss.username),
                       Maybe(granted, Grant(username, ss.oauth, ss.realm)), [])
  {
    var ss := s.sessions[i].(mobile := mobile || s.sessions[i].mobile);
    EditEffect(s, i, ss);
    IncEffect(c, Edit(s, i, ss), i, username, allowed);
    hide Inc, Edit;
  }

  /** A resume under the same realm, or none, leaves quota alone; one that fails changes nothing. */
  lemma ResumeStays(c: Config, s: State, i: Sid, oauth: bool, realm: string, allowed: bool)
    requires i in s.sessions && (realm == "" || realm == s.sessions[i].realm)
    ensures Next(c, s, Resume(i, true, oauth, realm, allowed))
            == Updated(s, i, s.sessions[i].(keySet := true, oauth := oauth), [], [])
  {
  }

  lemma ResumeFails(c: Config, s: State, i: Sid, oauth: bool, realm: string, allowed: bool)
    ensures Next(c, s, Resume(i, false, oauth, realm, allowed)) == s
  {
  }

  /** A resume under another realm: quota that was held is given back under the old one, and quota is asked for again
      under the new one; granted, the session holds it. */
  lemma ResumeMoves(c: Config, s: State, i: Sid, oauth: bool, realm: string, allowed: bool)
    requires i in s.sessions && realm != "" && realm != s.sessions[i].realm
    ensures var ss := s.sessions[i];
            var named := ss.(keySet := true, oauth := oauth, used := ss.used && !c.hasRelease, realm := realm);
            var granted := Granted(c, named.used, ss.originSet, allowed);
            Next(c, s, Resume(i, true, oauth, realm, allowed))
            == Updated(s, i, named.(used := named.used || granted), Maybe(granted, Grant(ss.username, oauth, realm)),
                       Maybe(ss.used && c.hasRelease, Grant(ss.username, oauth, ss.realm)))
  {
    var ss := s.sessions[i];
    var first := ss.(keySet := true, oauth := oauth);
    var named := first.(used := ss.used && !c.hasRelease, realm := realm);
    var granted := Granted(c, named.used, ss.originSet, allowed);
    var s1 := Edit(s, i, first);
    EditEffect(s, i, first);
    DecEffect(c, s1, i);
    assert Dec(c, s1, i).sessions[i].(realm := realm) == named;
    assert Resumed(c, s, i, oauth, realm, allowed) == Inc(c, Edit(Dec(c, s1, i), i, named), i, named.username, allowed);
    hide Inc, Dec, Edit, Resumed, Granted, Maybe;
    Reasked(c, s1, i, named, allowed);
    UpdatedTwice(s, i, first, named.(used := named.used || granted), Maybe(granted, Grant(ss.username, oauth, realm)),
                 Maybe(ss.used && c.hasRelease, Grant(ss.username, oauth, ss.realm)));
  }

  /** What the check of a request makes of the names, case by case, and whether it accepts them. */
  lemma AuthEffect(c: Config, ss: Session, connectionBind: bool, r: Request)
    ensures !c.longTerm ==> Named(c, ss, connectionBind, r) == (ss, true)
    ensures c.longTerm && (!r.integrity || r.realm.None?) ==> Named(c, ss, connectionBind, r) == (ss, false)
    ensures c.longTerm && r.integrity && r.realm.Some? && !connectionBind && r.realm.value != ss.realm && !ss.oauth ==>
              Named(c, ss, connectionBind, r) == (ss, false)
    ensures c.longTerm && r.integrity && r.realm.Some? && (connectionBind || r.realm.value == ss.realm || ss.oauth) ==>
              var realm := if connectionBind then r.realm.value else ss.realm;
              match r.username
              case None => Named(c, ss, connectionBind, r) == (ss.(realm := realm), false)
              case Some(name) =>
                if name == ss.username then Named(c, ss, connectionBind, r) == (ss.(realm := realm), true)
                else if ss.username == "" then
                  Named(c, ss, connectionBind, r) == (ss.(realm := realm, username := name), true)
                else if ss.oauth then
                  Named(c, ss, connectionBind, r) == (ss.(realm := realm, username := name, keySet := false), true)
                else Named(c, ss, connectionBind, r) == (ss.(realm := realm), false)
  {
  }

  lemma AuthTouches(c: Config, s: State, i: Sid, connectionBind: bool, r: Request)
    requires i in s.sessions
    ensures Next(c, s, Auth(i, connectionBind, r)) == Updated(s, i, Named(c, s.sessions[i], connectionBind, r).0, [], [])
  {
  }

  /** Credentials that are copied: the session gets all names of the other one; what quota it held is given back under
      its old names, and it holds quota again, under the new ones, exactly if that is granted. */
  lemma CopyEffect(c: Config, s: State, from: Sid, to: Sid, allowed: bool)
    requires from in s.sessions && to in s.sessions && from != to
    ensures var a, b := s.sessions[from], s.sessions[to];
            var kept := b.used && !c.hasRelease;
            var granted := Granted(c, kept, a.originSet, allowed);
            Copied(c, s, from, to, allowed)
            == Updated(s, to, b.(realm := a.realm, username := a.username, keySet := a.keySet, oauth := a.oauth,
                                 originSet := a.originSet, used := kept || granted),
                       Maybe(granted, Grant(a.username, a.oauth, a.realm)),
                       Maybe(b.used && c.hasRelease, Grant(b.username, b.oauth, b.realm)))
  {
    DecEffect(c, s, to);
    Reasked(c, s, to, WithCredentials(s.sessions[to].(used := s.sessions[to].used && !c.hasRelease), s.sessions[from]), allowed);
    hide Inc, Dec, Edit;
  }

  /** The end of a mobile REFRESH: the new client connection gives its quota back, and the session that is taken over,
      with the credentials of the new one if there is a key, holds quota if it is granted before or after. */
  lemma MovedEffect(c: Config, s: State, i: Sid, orig: Sid, allowed2: bool, allowed3: bool)
    requires i in s.sessions && orig in s.sessions && i != orig
    ensures var a, b := s.sessions[i], s.sessions[orig];
            var s1 := if a.keySet then Copied(c, s, i, orig, allowed2) else s;
            var b1 := s1.sessions[orig];
            var granted := Granted(c, b1.used, b1.originSet, allowed3);
            MobileMoved(c, s, i, orig, allowed2, allowed3)
            == Updated(Updated(s1, i, a.(used := a.used && !c.hasRelease), [],
                               Maybe(a.used && c.hasRelease, Grant(a.username, a.oauth, a.realm))),
                       orig, b1.(used := b1.used || granted), Maybe(granted, Grant(b1.username, b1.oauth, b1.realm)), [])
  {
    var a := s.sessions[i];
    if a.keySet {
      CopyEffect(c, s, i, orig, allowed2);
    }
    var s1 := if a.keySet then Copied(c, s, i, orig, allowed2) else s;
    hide Copied;
    assert s1.sessions[i] == a;
    DecEffect(c, s1, i);
    IncEffect(c, Dec(c, s1, i), orig, s1.sessions[orig].username, allowed3);
    hide Inc, Dec;
  }

  /** A mobile REFRESH as a whole: before the check the new connection takes the realm of the old one, and without a key
      all its credentials; it goes on to the transfer exactly if the check accepts and the rest succeeds. */
  lemma MobileEffect(c: Config, s: State, i: Sid, orig: Sid, r: Request, moved: bool, allowed1: bool, allowed2: bool,
                     allowed3: bool)
    requires i in s.sessions && orig in s.sessions && i != orig
    ensures var a, b, t := s.sessions[i], s.sessions[orig], Next(c, s, Mobile(i, orig, r, moved, allowed1, allowed2, allowed3));
            var s1 := Updated(s, i, a.(realm := b.realm), [], []);
            var s2 := if a.keySet then s1 else Copied(c, s1, orig, i, allowed1);
            i in s2.sessions && orig in s2.sessions &&
            var (named, ok) := Named(c, s2.sessions[i], false, r);
            var s3 := Updated(s2, i, named, [], []);
            t == if ok && moved then MobileMoved(c, s3, i, orig, allowed2, allowed3) else s3
  {
    var s1 := Updated(s, i, s.sessions[i].(realm := s.sessions[orig].realm), [], []);
    EditEffect(s, i, s.sessions[i].(realm := s.sessions[orig].realm));
    CopyEffect(c, s1, orig, i, allowed1);
    var s2 := if s.sessions[i].keySet then s1 else Copied(c, s1, orig, i, allowed1);
    EditEffect(s2, i, Named(c, s2.sessions[i], false, r).0);
    hide Copied, MobileMoved, Named, Edit;
  }

  /** So after it the new connection holds no quota, and the one that is taken over holds it if the last question is
      granted, or was. */
  lemma MobileHolds(c: Config, s: State, i: Sid, orig: Sid, allowed2: bool, allowed3: bool)
    requires i in s.sessions && orig in s.sessions && i != orig && c.hasRelease && c.hasCheck
    ensures var t := MobileMoved(c, s, i, orig, allowed2, allowed3);
            && i in t.sessions && orig in t.sessions && !t.sessions[i].used
            && (allowed3 && (c.longTerm ==> t.sessions[orig].originSet) ==> t.sessions[orig].used)
            && (s.sessions[i].keySet ==>
                  t.sessions[orig].username == s.sessions[i].username && t.sessions[orig].realm == s.sessions[i].realm)
  {
    MovedEffect(c, s, i, orig, allowed2, allowed3);
    CopyEffect(c, s, i, orig, allowed2);
    hide Copied, MobileMoved;
  }

  /** A session that closes gives its quota back first; it is destroyed unless it is mobile, its allocation is valid and
      nobody forces it. */
  lemma CloseEffect(c: Config, s: State, i: Sid, force: bool, allocationValid: bool)
    requires i in s.sessions
    ensures var ss := s.sessions[i];
            var after := ss.(used := ss.used && !c.hasRelease);
            var released := s.released + Maybe(ss.used && c.hasRelease, Grant(ss.username, ss.oauth, ss.realm));
            Next(c, s, Close(i, force, allocationValid))
            == if !force && allocationValid && ss.mobile then State(s.sessions[i := after], s.destroyed, s.acquired, released)
               else State(s.sessions - {i}, s.destroyed[i := after], s.acquired, released)
  {
    DecEffect(c, s, i);
    hide Dec;
    assert s.sessions[i := s.sessions[i].(used := s.sessions[i].used && !c.hasRelease)] - {i} == s.sessions - {i};
  }

  /** What the handlers are for: after a resume under another realm that is granted the session holds quota there, and
      exactly that grant was acquired. */
  lemma ResumedHolds(c: Config, s: State, i: Sid, oauth: bool, realm: string)
    requires i in s.sessions && realm != "" && realm != s.sessions[i].realm
    requires c.hasRelease && c.hasCheck && (c.longTerm ==> s.sessions[i].originSet)
    ensures var ss, t := s.sessions[i], Next(c, s, Resume(i, true, oauth, realm, true));
            && i in t.sessions && t.sessions[i].used && t.sessions[i].realm == realm
            && t.acquired == s.acquired + [Grant(ss.username, oauth, realm)]
            && t.released == s.released + (if ss.used then [Grant(ss.username, oauth, ss.realm)] else [])
  {
    ResumeMoves(c, s, i, oauth, realm, true);
  }
}
