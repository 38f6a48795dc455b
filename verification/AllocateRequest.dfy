/** The attribute loop of an Allocate request: which combinations reach the creation of a relay
    (section 6.2 of RFC 5766, section 4.2 of RFC 6156). */
module AllocateRequest {
  import opened IoAddr
  import opened Options

  const UDP := 17
  const TCP := 6
  const MAX_NUMBER_OF_UNKNOWN_ATTRS := 128

  datatype Family = IPv4 | IPv6 | Invalid

  // An attribute as the loop looks at it.
  datatype Att =
    | Username(tooLong: bool, secure: bool)
    | Skipped                                    // REALM, NONCE, MESSAGE-INTEGRITY, FINGERPRINT and the like
    | Bandwidth
    | MobilityTicket(len: nat)
    | RequestedTransport(len: nat, protocol: u8)
    | DontFragment
    | Lifetime(len: nat)
    | EvenPort(reserve: bool)
    | ReservationToken(len: nat, token: nat)
    | RequestedFamily(family: Family)
    | AdditionalFamily(family: Family)
    | Other(kind: u16)

  datatype Config = Config(
    mobility: bool, noTcpRelay: bool, noUdpRelay: bool, dontFragment: bool, externalIp: bool,
    stream: Option<bool>)  // whether the client socket, if there is one, is a stream

  datatype Outcome =
    | Reject(err: int)
    | Relay(transport: u8, evenPort: int, token: nat, v4: bool, v6: bool)

  // ---------------------------------------------------------------- what a request says

  /** The protocol asked for; zero when there is none, or none that is known. */
  function Transport(s: seq<Att>): u8 {
    if s == [] then 0
    else
      var a := s[|s| - 1];
      var before := Transport(s[..|s| - 1]);
      if before == 0 && a.RequestedTransport? && a.len == 4 && (a.protocol == UDP || a.protocol == TCP) then a.protocol
      else before
  }

  /** The bit of the last EVEN-PORT attribute; -1 without one. */
  function LastEven(s: seq<Att>): int {
    if s == [] then -1
    else
      match s[|s| - 1]
      case EvenPort(reserve) => if reserve then 1 else 0
      case _ => LastEven(s[..|s| - 1])
  }

  /** The reservation token; zero without one. */
  function Token(s: seq<Att>): nat {
    if s == [] then 0
    else
      match s[|s| - 1]
      case ReservationToken(_, token) => token
      case _ => Token(s[..|s| - 1])
  }

  predicate IsToken(a: Att) {
    a.ReservationToken? && a.token != 0
  }

  predicate IsFamily(a: Att) {
    a.RequestedFamily? || a.AdditionalFamily?
  }

  predicate IsV4(a: Att) {
    a.AdditionalFamily? || (a.RequestedFamily? && a.family.IPv4?)
  }

  predicate IsV6(a: Att) {
    a.AdditionalFamily? || (a.RequestedFamily? && a.family.IPv6?)
  }

  predicate Unknown(c: Config, a: Att) {
    (a.Other? && a.kind <= 0x7FFF) || (a.DontFragment? && !c.dontFragment)
  }

  predicate Any(s: seq<Att>, p: Att -> bool) {
    exists i :: 0 <= i < |s| && p(s[i])
  }

  /** The error an attribute causes, given the ones before it; zero for none. */
  function ErrorOf(c: Config, before: seq<Att>, a: Att): int {
    match a
    case Username(tooLong, secure) => if tooLong || !secure then 400 else 0
    case MobilityTicket(len) => if !c.mobility then 405 else if len != 0 then 400 else 0
    case RequestedTransport(len, protocol) =>
      if len != 4 || Transport(before) != 0 then 400
      else if protocol != UDP && protocol != TCP then 442
      else if protocol == TCP && c.noTcpRelay then 442
      else if protocol == UDP && c.noUdpRelay then 442
      else if protocol == TCP && c.stream == Some(false) then 400
      else 0
    case Lifetime(len) => if len != 4 then 400 else 0
    case EvenPort(reserve) =>
      if Any(before, IsToken) then 400
      else if reserve && Any(before, (b: Att) => b.AdditionalFamily?) then 400
      else 0
    case ReservationToken(len, _) =>
      if len != 8 || Any(before, IsFamily) || LastEven(before) >= 0 || Any(before, IsToken) then 400 else 0
    case RequestedFamily(family) =>
      if Any(before, IsToken) || Any(before, IsFamily) then 400
      else if family.Invalid? then 440
      else 0
    case AdditionalFamily(family) =>
      if LastEven(before) > 0 || Any(before, IsToken) || Any(before, IsFamily) then 400
      else (match family case IPv4 => 400 case IPv6 => 0 case Invalid => 440)
    case _ => 0
  }

  ghost predicate Clean(c: Config, s: seq<Att>) {
    forall i :: 0 <= i < |s| ==> ErrorOf(c, s[..i], s[i]) == 0
  }

  ghost predicate NoneUnknown(c: Config, s: seq<Att>) {
    forall i :: 0 <= i < |s| ==> !Unknown(c, s[i])
  }

  /** The requests that reach the creation of a relay. */
  ghost predicate Accepted(c: Config, s: seq<Att>) {
    && Clean(c, s) && NoneUnknown(c, s) && Transport(s) != 0
    && (Transport(s) == TCP ==> !Any(s, (a: Att) => a.DontFragment?) && Token(s) == 0 && LastEven(s) == -1)
    && !(Any(s, IsV4) && Any(s, IsV6) && c.externalIp)
  }

  ghost predicate FirstBad(c: Config, s: seq<Att>, k: int) {
    0 <= k < |s| && Clean(c, s[..k]) && ErrorOf(c, s[..k], s[k]) != 0 && NoneUnknown(c, s[..k + 1])
  }

  // ---------------------------------------------------------------- the handler

  /** The variables of the loop. */
  datatype Vars = Vars(transport: u8, evenPort: int, dontFragment: bool, token: nat, af4: bool, af6: bool)

  ghost predicate Reads(v: Vars, s: seq<Att>) {
    && v.transport == Transport(s) && v.evenPort == LastEven(s) && v.token == Token(s)
    && v.dontFragment == Any(s, (a: Att) => a.DontFragment?)
    && v.af4 == Any(s, IsV4) && v.af6 == Any(s, IsV6)
    && (v.token != 0 <==> Any(s, IsToken))
    && (v.af4 || v.af6 <==> Any(s, IsFamily))
    && (v.af4 && v.af6 <==> Any(s, (a: Att) => a.AdditionalFamily?))
  }

  /** The body of the loop for one attribute. */
  method Step(c: Config, v: Vars, a: Att, ghost before: seq<Att>) returns (err: int, r: Vars)
    requires Reads(v, before)
    ensures err == ErrorOf(c, before, a)
    ensures err == 0 ==> Reads(r, before + [a])
    ensures r.transport == Transport(before + [a])
  {
    hide Transport, LastEven, Token, Any;
    Snoc(before, a);
    err, r := 0, v;
    match a {
      case Username(tooLong, secure) =>
        if tooLong {
          err := 400;
        } else if !secure {
          err := 400;
        }
      case MobilityTicket(len) =>
        if !c.mobility {
          err := 405;
        } else if len != 0 {
          err := 400;
        }
      case RequestedTransport(len, protocol) =>
        if len != 4 {
          err := 400;
        } else if v.transport != 0 {
          err := 400;
        } else {
          var transport: u8 := if protocol == UDP || protocol == TCP then protocol else 0;
          r := v.(transport := transport);
          if transport == 0 {
            err := 442;
          }
          if transport == TCP && c.noTcpRelay {
            err := 442;
          } else if transport == UDP && c.noUdpRelay {
            err := 442;
          } else if c.stream.Some? {
            if transport == TCP && !c.stream.value {
              err := 400;
            }
          }
        }
      case DontFragment => r := v.(dontFragment := true);
      case Lifetime(len) =>
        if len != 4 {
          err := 400;
        }
      case EvenPort(reserve) =>
        if v.token != 0 {
          err := 400;
        } else {
          r := v.(evenPort := if reserve then 1 else 0);
          if reserve {
            if v.af4 && v.af6 {
              err := 400;
            }
          }
        }
      case ReservationToken(len, token) =>
        if len != 8 {
          err := 400;
        } else if v.af4 || v.af6 {
          err := 400;
        } else {
          if v.evenPort >= 0 {
            err := 400;
          } else if v.token != 0 {
            err := 400;
          } else {
            r := v.(token := token);
          }
        }
      case AdditionalFamily(family) =>
        if v.evenPort > 0 {
          err := 400;
        } else if v.token != 0 {
          err := 400;
        } else if v.af4 || v.af6 {
          err := 400;
        } else {
          match family {
            case IPv4 => err := 400;
            case IPv6 => r := v.(af4 := true, af6 := true);
            case Invalid => err := 440;
          }
        }
      case RequestedFamily(family) =>
        if v.token != 0 {
          err := 400;
        } else if v.af4 || v.af6 {
          err := 400;
        } else {
          match family {
            case IPv4 => r := v.(af4 := true);
            case IPv6 => r := v.(af6 := true);
            case Invalid => err := 440;
          }
        }
      case _ =>
    }
  }

  /** What one more attribute changes. */
  lemma Snoc(s: seq<Att>, a: Att)
    ensures Transport(s + [a])
            == if Transport(s) == 0 && a.RequestedTransport? && a.len == 4 && (a.protocol == UDP || a.protocol == TCP)
               then a.protocol else Transport(s)
    ensures LastEven(s + [a]) == if a.EvenPort? then (if a.reserve then 1 else 0) else LastEven(s)
    ensures Token(s + [a]) == if a.ReservationToken? then a.token else Token(s)
    ensures Any(s + [a], IsToken) <==> Any(s, IsToken) || IsToken(a)
    ensures Any(s + [a], IsFamily) <==> Any(s, IsFamily) || IsFamily(a)
    ensures Any(s + [a], IsV4) <==> Any(s, IsV4) || IsV4(a)
    ensures Any(s + [a], IsV6) <==> Any(s, IsV6) || IsV6(a)
    ensures Any(s + [a], (b: Att) => b.DontFragment?) <==> Any(s, (b: Att) => b.DontFragment?) || a.DontFragment?
    ensures Any(s + [a], (b: Att) => b.AdditionalFamily?) <==> Any(s, (b: Att) => b.AdditionalFamily?) || a.AdditionalFamily?
  {
    var after := s + [a];
    assert after[..|after| - 1] == s && after[|after| - 1] == a;
    AnySnoc(s, a, IsToken);
    AnySnoc(s, a, IsFamily);
    AnySnoc(s, a, IsV4);
    AnySnoc(s, a, IsV6);
    AnySnoc(s, a, (b: Att) => b.DontFragment?);
    AnySnoc(s, a, (b: Att) => b.AdditionalFamily?);
  }

  lemma AnySnoc(s: seq<Att>, a: Att, p: Att -> bool)
    ensures Any(s + [a], p) <==> Any(s, p) || p(a)
  {
    var r := s + [a];
    if i :| 0 <= i < |s| && p(s[i]) {
      assert r[i] == s[i];
    }
    assert r[|s|] == a;
  }

  /** handle_turn_allocate up to the creation of the relay; quota and bandwidth are what those checks say. */
  method HandleAllocate(c: Config, s: seq<Att>, quota: bool, bandwidth: bool) returns (out: Outcome)
    ensures out.Relay? <==> Accepted(c, s) && quota && bandwidth
    ensures out.Relay? ==> out == Relay(Transport(s), LastEven(s), Token(s), Any(s, IsV4), Any(s, IsV6))
    ensures out.Reject? ==> out.err != 0
    // a request of attributes that are right each
    ensures Clean(c, s) && NoneUnknown(c, s) ==>
      out == if Transport(s) == 0 then Reject(400)
             else if Transport(s) == 6 && (Any(s, (a: Att) => a.DontFragment?) || Token(s) != 0 || LastEven(s) != -1) then Reject(400)
             else if !quota then Reject(486)
             else if Any(s, IsV4) && Any(s, IsV6) && c.externalIp then Reject(440)
             else if !bandwidth then Reject(486)
             else Relay(Transport(s), LastEven(s), Token(s), Any(s, IsV4), Any(s, IsV6))
    ensures Clean(c, s) && !NoneUnknown(c, s) && Transport(s) != 0 && |s| <= 128 ==> out == Reject(420)
    // without unknown attributes, the first offending one decides the error
    ensures forall k :: FirstBad(c, s, k) ==>
              out == Reject(if Transport(s[..k + 1]) == 0 then 400 else ErrorOf(c, s[..k], s[k]))
  {
    hide ErrorOf, Reads, Clean, NoneUnknown, Any, LastEven, Token, Transport;
    var v := Vars(0, -1, false, 0, false, false);
    ReadsNone(c);
    var err, unknown, i := 0, 0, 0;
    while i < |s| && err == 0 && unknown < MAX_NUMBER_OF_UNKNOWN_ATTRS
      invariant unknown <= i <= |s| && 0 <= unknown
      invariant err == 0 ==> Clean(c, s[..i]) && Reads(v, s[..i])
      invariant err != 0 ==> 0 < i && Clean(c, s[..i - 1]) && err == ErrorOf(c, s[..i - 1], s[i - 1])
      invariant v.transport == Transport(s[..i])
      invariant unknown == 0 <==> NoneUnknown(c, s[..i])
    {
      assert s[..i + 1] == s[..i] + [s[i]];
      CleanSnoc(c, s[..i], s[i]);
      err, v := Step(c, v, s[i], s[..i]);
      if Unknown(c, s[i]) {
        unknown := unknown + 1;
      }
      i := i + 1;
    }
    assert s[..|s|] == s;
    if Clean(c, s) {
      CleanPrefix(c, s, i);
    }
    if NoneUnknown(c, s) {
      UnknownPrefix(c, s, i);
    }
    FirstError(c, s, i, err);
    if err == 0 {
      EvenNotDual(c, s[..i]);
    }
    Final(v, s[..i]);
    if v.transport == 0 {
      return Reject(400);
    } else if unknown > 0 {
      return Reject(420);
    } else if err != 0 {
      return Reject(err);
    } else if v.transport == TCP && (v.dontFragment || v.token != 0 || v.evenPort != -1) {
      return Reject(400);
    }
    if !quota {
      return Reject(486);
    }
    if !bandwidth {
      err := 486;
    }
    if v.af4 && v.af6 {
      if c.externalIp {
        err := 440;
      }
      if v.evenPort > 0 {
        err := 440;
      }
    }
    if err != 0 {
      return Reject(err);
    }
    return Relay(v.transport, v.evenPort, v.token, v.af4, v.af6);
  }

  lemma ReadsNone(c: Config)
    ensures Reads(Vars(0, -1, false, 0, false, false), []) && Clean(c, []) && NoneUnknown(c, [])
  {
  }

  lemma CleanSnoc(c: Config, s: seq<Att>, a: Att)
    ensures Clean(c, s + [a]) <==> Clean(c, s) && ErrorOf(c, s, a) == 0
    ensures NoneUnknown(c, s + [a]) <==> NoneUnknown(c, s) && !Unknown(c, a)
  {
    hide ErrorOf;
    var r := s + [a];
    assert r[..|s|] == s && r[|s|] == a;
    assert forall i :: 0 <= i < |s| ==> r[..i] == s[..i] && r[i] == s[i];
  }

  lemma Final(v: Vars, s: seq<Att>)
    ensures Reads(v, s) ==>
      && v.transport == Transport(s) && v.evenPort == LastEven(s) && v.token == Token(s)
      && v.dontFragment == Any(s, (a: Att) => a.DontFragment?)
      && v.af4 == Any(s, IsV4) && v.af6 == Any(s, IsV6)
      && (v.af4 && v.af6 <==> Any(s, (a: Att) => a.AdditionalFamily?))
  {
  }

  lemma CleanPrefix(c: Config, s: seq<Att>, i: nat)
    requires Clean(c, s) && i <= |s|
    ensures Clean(c, s[..i]) && forall k :: 0 <= k < |s| ==> ErrorOf(c, s[..k], s[k]) == 0
  {
    hide ErrorOf;
    assert forall k :: 0 <= k < i ==> s[..i][..k] == s[..k];
  }

  lemma UnknownPrefix(c: Config, s: seq<Att>, i: nat)
    requires NoneUnknown(c, s) && i <= |s|
    ensures NoneUnknown(c, s[..i])
  {
  }

  /** Where the loop stops with an error is where the first offending attribute is. */
  lemma FirstError(c: Config, s: seq<Att>, i: nat, err: int)
    requires i <= |s| && (i < |s| ==> err != 0 || !NoneUnknown(c, s[..i]))
    requires err == 0 ==> Clean(c, s[..i])
    requires err != 0 ==> 0 < i && Clean(c, s[..i - 1]) && err == ErrorOf(c, s[..i - 1], s[i - 1])
    ensures forall k :: FirstBad(c, s, k) ==> err != 0 && i == k + 1 && NoneUnknown(c, s[..i])
  {
    hide ErrorOf, NoneUnknown, Clean;
    forall k | FirstBad(c, s, k)
      ensures err != 0 && i == k + 1
    {
      if err != 0 && k < i - 1 {
        CleanAt(c, s, i - 1, k);
      } else if err != 0 && i - 1 < k {
        CleanAt(c, s, k, i - 1);
      } else if err == 0 && k < i {
        CleanAt(c, s, i, k);
      } else if err == 0 {
        assert s[..k + 1][..i] == s[..i];
        UnknownPrefix(c, s[..k + 1], i);
      }
    }
  }

  lemma CleanAt(c: Config, s: seq<Att>, n: nat, k: nat)
    requires k < n <= |s| && Clean(c, s[..n])
    ensures ErrorOf(c, s[..k], s[k]) == 0
  {
    hide ErrorOf;
    assert s[..n][..k] == s[..k] && s[..n][k] == s[k];
  }

  // ---------------------------------------------------------------- combinations

  /** In whatever order its attributes come, an accepted request has at most one family attribute, and none, nor
      EVEN-PORT, next to a non-zero reservation token. */
  lemma TokenStandsAlone(c: Config, s: seq<Att>, i: nat, j: nat)
    requires Clean(c, s) && i < |s| && j < |s| && i != j
    ensures IsToken(s[i]) ==> !s[j].EvenPort? && !IsFamily(s[j]) && !IsToken(s[j])
    ensures IsFamily(s[i]) ==> !IsFamily(s[j])
  {
    hide LastEven, Any, Transport;
    var lo, hi := if i < j then i else j, if i < j then j else i;
    assert s[..hi][lo] == s[lo];
    EarlierSeen(s[..hi], lo);
    assert ErrorOf(c, s[..hi], s[hi]) == 0;
  }

  lemma EarlierSeen(s: seq<Att>, i: nat)
    requires i < |s|
    ensures s[i].EvenPort? ==> LastEven(s) >= 0
    ensures IsToken(s[i]) ==> Any(s, IsToken)
    ensures IsFamily(s[i]) ==> Any(s, IsFamily)
  {
    if s[i].EvenPort? {
      EvenSeen(s, i);
    }
  }

  lemma {:induction false} EvenSeen(s: seq<Att>, i: nat)
    requires i < |s| && s[i].EvenPort?
    ensures LastEven(s) >= 0
  {
    if i < |s| - 1 {
      EvenSeen(s[..|s| - 1], i);
    }
  }

  /** The reserve bit that counts, the last one, is never set for a dual allocation; so the second test for it,
      behind the quota, never fires. */
  lemma {:induction false} EvenNotDual(c: Config, s: seq<Att>)
    requires Clean(c, s)
    ensures LastEven(s) > 0 ==> !Any(s, (a: Att) => a.AdditionalFamily?)
  {
    hide LastEven, Any, Transport, Token;
    if s == [] {
      EmptyEven();
    } else {
      var before, a := s[..|s| - 1], s[|s| - 1];
      assert s == before + [a];
      CleanPrefix(c, s, |before|);
      EvenNotDual(c, before);
      Snoc(before, a);
    }
  }

  lemma EmptyEven()
    ensures LastEven([]) == -1 && Transport([]) == 0 && Token([]) == 0
    ensures !Any([], IsToken) && !Any([], IsFamily) && !Any([], (a: Att) => a.AdditionalFamily?)
  {
  }

  /** A request asks for a reserved next port and for a dual allocation. */
  ghost predicate Mixed(s: seq<Att>) {
    exists i, j :: 0 <= i < |s| && 0 <= j < |s| && s[i] == EvenPort(true) && s[j].AdditionalFamily?
  }

  /** It takes the bit back in between. */
  ghost predicate TakenBack(s: seq<Att>) {
    exists i, k, j :: 0 <= i < k < j < |s| && s[i] == EvenPort(true) && s[k] == EvenPort(false) && s[j].AdditionalFamily?
  }

  /** The check of EVEN-PORT against a dual allocation sees the last EVEN-PORT only: a request without an error asks for
      both if and only if it has an EVEN-PORT with the bit, then one without it, then the dual allocation. */
  lemma MixedIff(c: Config, s: seq<Att>)
    requires Clean(c, s)
    ensures Mixed(s) <==> TakenBack(s)
  {
    if i, j :| 0 <= i < |s| && 0 <= j < |s| && s[i] == EvenPort(true) && s[j].AdditionalFamily? {
      var _ := BitTakenBack(c, s, i, j);
    }
  }

  lemma BitTakenBack(c: Config, s: seq<Att>, i: nat, j: nat) returns (k: nat)
    requires Clean(c, s) && i < |s| && j < |s| && s[i] == EvenPort(true) && s[j].AdditionalFamily?
    ensures i < k < j && s[k] == EvenPort(false) && LastEven(s[..j]) == 0
  {
    hide Transport, LastEven, Any;
    NoBitAfterDual(c, s, i, j);
    assert s[..j][i] == s[i];
    assert ErrorOf(c, s[..j], s[j]) == 0;
    k := BitOff(s[..j], i);
  }

  lemma NoBitAfterDual(c: Config, s: seq<Att>, i: nat, j: nat)
    requires Clean(c, s) && i < |s| && j < |s| && s[j].AdditionalFamily?
    ensures s[i] == EvenPort(true) ==> i < j
  {
    hide Transport, LastEven;
    if j < i {
      assert s[..i][j] == s[j];
      assert ErrorOf(c, s[..i], s[i]) == 0;
    }
  }

  lemma {:induction false} BitOff(s: seq<Att>, i: nat) returns (k: nat)
    requires i < |s| && s[i] == EvenPort(true) && LastEven(s) <= 0
    ensures i < k < |s| && s[k] == EvenPort(false) && LastEven(s) == 0
  {
    k := |s| - 1;
    if !s[k].EvenPort? {
      k := BitOff(s[..k], i);
    }
  }

  /** A server can be made to accept such a request if and only if it relays UDP and is not
      configured with an external address. */
  lemma MixedPossibleIff(c: Config)
    ensures (exists s :: Accepted(c, s) && Mixed(s)) <==> !c.noUdpRelay && !c.externalIp
  {
    hide Accepted, Mixed;
    if s :| Accepted(c, s) && Mixed(s) {
      MixedNeeds(c, s);
    }
    if !c.noUdpRelay && !c.externalIp {
      OverriddenEvenPort(c);
      OverriddenIsMixed();
    }
  }

  lemma OverriddenIsMixed()
    ensures Mixed([RequestedTransport(4, UDP), EvenPort(true), EvenPort(false), AdditionalFamily(IPv6)])
  {
    var s := [RequestedTransport(4, UDP), EvenPort(true), EvenPort(false), AdditionalFamily(IPv6)];
    assert s[1] == EvenPort(true) && s[3].AdditionalFamily?;
  }

  lemma MixedNeeds(c: Config, s: seq<Att>)
    requires Accepted(c, s) && Mixed(s)
    ensures !c.noUdpRelay && !c.externalIp
  {
    hide Clean, ErrorOf, LastEven, Transport;
    var i, j :| 0 <= i < |s| && 0 <= j < |s| && s[i] == EvenPort(true) && s[j].AdditionalFamily?;
    assert IsV4(s[j]) && IsV6(s[j]);
    EvenSeen(s, i);
    TransportAllowed(c, s);
  }

  lemma {:induction false} TransportAllowed(c: Config, s: seq<Att>)
    requires Clean(c, s)
    ensures Transport(s) == 0 || (Transport(s) == TCP && !c.noTcpRelay) || (Transport(s) == UDP && !c.noUdpRelay)
  {
    hide Any, LastEven;
    if s != [] {
      CleanPrefix(c, s, |s| - 1);
      TransportAllowed(c, s[..|s| - 1]);
    }
  }

  /** One with the bit, one without it and a dual allocation are accepted together. */
  lemma OverriddenEvenPort(c: Config)
    requires !c.noUdpRelay && !c.externalIp
    ensures Accepted(c, [RequestedTransport(4, UDP), EvenPort(true), EvenPort(false), AdditionalFamily(IPv6)])
  {
    hide Transport, LastEven, Token, Any;
    var a, b, d, e := RequestedTransport(4, UDP), EvenPort(true), EvenPort(false), AdditionalFamily(IPv6);
    var s1, s2 := [a], [a, b];
    var s3 := [a, b, d];
    assert [] + [a] == s1 && s1 + [b] == s2 && s2 + [d] == s3 && s3 + [e] == [a, b, d, e];
    assert Clean(c, []) && NoneUnknown(c, []);
    EmptyEven();
    Snoc([], a);
    Snoc(s1, b);
    Snoc(s2, d);
    Snoc(s3, e);
    CleanSnoc(c, [], a);
    CleanSnoc(c, s1, b);
    CleanSnoc(c, s2, d);
    CleanSnoc(c, s3, e);
    hide Clean, NoneUnknown;
  }

  /** What an Allocate that reaches the creation of a relay never combines, in terms of what the relay is created
      with. */
  lemma AcceptedCombinations(c: Config, s: seq<Att>)
    requires Accepted(c, s)
    ensures Any(s, IsToken) ==> LastEven(s) == -1 && !Any(s, IsFamily)
    ensures LastEven(s) == 1 ==> !(Any(s, IsV4) && Any(s, IsV6))
    ensures Transport(s) == TCP ==> Token(s) == 0 && LastEven(s) == -1 && !Any(s, (a: Att) => a.DontFragment?)
  {
    if i :| 0 <= i < |s| && IsToken(s[i]) {
      forall j | 0 <= j < |s|
        ensures !s[j].EvenPort? && !IsFamily(s[j])
      {
        if j != i {
          TokenStandsAlone(c, s, i, j);
        }
      }
      NoEven(s);
    }
    EvenNotDual(c, s);
    if i, j :| 0 <= i < |s| && 0 <= j < |s| && IsV4(s[i]) && IsV6(s[j]) {
      if i != j {
        TokenStandsAlone(c, s, i, j);
      }
    }
  }

  lemma {:induction false} NoEven(s: seq<Att>)
    requires forall j :: 0 <= j < |s| ==> !s[j].EvenPort?
    ensures LastEven(s) == -1
  {
    if s != [] {
      NoEven(s[..|s| - 1]);
    }
  }
}
