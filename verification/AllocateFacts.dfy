/** What an Allocate request gets, in numbers and attribute by attribute. */
module AllocateFacts {
  import opened Options
  import opened IoAddr
  import opened AllocateRequest

  ghost predicate Holds(s: seq<Att>, a: Att) {
    exists i :: 0 <= i < |s| && s[i] == a
  }

  // ---------------------------------------------------------------- what an accepted request is relayed with

  /** The families of the relay: IPv6 alone exactly if IPv6 was requested, IPv4 alone exactly if IPv4 was requested, both
      exactly if IPv6 was requested in addition, and neither exactly without any of these attributes. */
  lemma RelayFamilies(c: Config, s: seq<Att>)
    requires Accepted(c, s)
    ensures Any(s, IsV6) && !Any(s, IsV4) <==> Holds(s, RequestedFamily(IPv6))
    ensures Any(s, IsV4) && !Any(s, IsV6) <==> Holds(s, RequestedFamily(IPv4))
    ensures Any(s, IsV4) && Any(s, IsV6) <==> Holds(s, AdditionalFamily(IPv6))
    ensures !Any(s, IsV4) && !Any(s, IsV6) <==> forall i :: 0 <= i < |s| ==> !s[i].RequestedFamily? && !s[i].AdditionalFamily?
  {
    forall i | 0 <= i < |s| && IsFamily(s[i])
      ensures s[i] == RequestedFamily(IPv6) || s[i] == RequestedFamily(IPv4) || s[i] == AdditionalFamily(IPv6)
      ensures forall j :: 0 <= j < |s| && IsFamily(s[j]) ==> j == i
    {
      assert ErrorOf(c, s[..i], s[i]) == 0;
      forall j | 0 <= j < |s| && j != i
        ensures !IsFamily(s[j])
      {
        TokenStandsAlone(c, s, i, j);
      }
    }
    hide Clean, Transport, LastEven, Token;
    OneFamily(s);
  }

  lemma OneFamily(s: seq<Att>)
    requires forall i :: 0 <= i < |s| && IsFamily(s[i]) ==>
               s[i] == RequestedFamily(IPv6) || s[i] == RequestedFamily(IPv4) || s[i] == AdditionalFamily(IPv6)
    requires forall i, j :: 0 <= i < |s| && 0 <= j < |s| && IsFamily(s[i]) && IsFamily(s[j]) ==> i == j
    ensures Any(s, IsV6) && !Any(s, IsV4) <==> Holds(s, RequestedFamily(IPv6))
    ensures Any(s, IsV4) && !Any(s, IsV6) <==> Holds(s, RequestedFamily(IPv4))
    ensures Any(s, IsV4) && Any(s, IsV6) <==> Holds(s, AdditionalFamily(IPv6))
    ensures !Any(s, IsV4) && !Any(s, IsV6) <==> forall i :: 0 <= i < |s| ==> !s[i].RequestedFamily? && !s[i].AdditionalFamily?
  {
    if i :| 0 <= i < |s| && IsFamily(s[i]) {
      assert forall j :: 0 <= j < |s| && j != i ==> !IsFamily(s[j]) && !IsV4(s[j]) && !IsV6(s[j]);
      assert Holds(s, s[i]);
      assert forall a :: IsFamily(a) && Holds(s, a) ==> a == s[i];
      assert Any(s, IsV4) <==> IsV4(s[i]);
      assert Any(s, IsV6) <==> IsV6(s[i]);
    } else {
      assert forall a :: IsFamily(a) ==> !Holds(s, a);
      assert !Any(s, IsV4) && !Any(s, IsV6);
    }
  }

  /** The transport of the relay is the one that was requested; TCP only for a client on a stream, or without a socket,
      and only on a server that relays it. */
  lemma RelayTransport(c: Config, s: seq<Att>)
    requires Accepted(c, s)
    ensures Transport(s) == 6 || Transport(s) == 17
    ensures Holds(s, RequestedTransport(4, Transport(s)))
    ensures Transport(s) == 6 ==> c.stream != Some(false) && !c.noTcpRelay
    ensures Transport(s) == 17 ==> !c.noUdpRelay
    ensures forall i :: 0 <= i < |s| && s[i].RequestedTransport? ==> s[i] == RequestedTransport(4, Transport(s))
  {
    hide Any, LastEven, Token;
    TransportHeld(c, s);
  }

  lemma {:induction false} TransportHeld(c: Config, s: seq<Att>)
    requires Clean(c, s)
    ensures Transport(s) == 0 || Transport(s) == 6 || Transport(s) == 17
    ensures Transport(s) != 0 ==> Holds(s, RequestedTransport(4, Transport(s)))
    ensures Transport(s) == 6 ==> c.stream != Some(false) && !c.noTcpRelay
    ensures Transport(s) == 17 ==> !c.noUdpRelay
    ensures forall i :: 0 <= i < |s| && s[i].RequestedTransport? ==> Transport(s) != 0 && s[i] == RequestedTransport(4, Transport(s))
  {
    hide Any, LastEven;
    if s != [] {
      var before, a := s[..|s| - 1], s[|s| - 1];
      CleanPrefix(c, s, |before|);
      TransportHeld(c, before);
      assert ErrorOf(c, before, a) == 0;
      assert forall i :: 0 <= i < |before| ==> s[i] == before[i];
      if Transport(before) != 0 {
        var i :| 0 <= i < |before| && before[i] == RequestedTransport(4, Transport(before));
        assert s[i] == before[i];
      }
    }
  }

  /** The last EVEN-PORT has this bit. */
  ghost predicate LastIs(s: seq<Att>, b: bool) {
    exists i :: 0 <= i < |s| && s[i] == EvenPort(b) && forall j :: i < j < |s| ==> !s[j].EvenPort?
  }

  ghost predicate NoEvenPort(s: seq<Att>) {
    forall i :: 0 <= i < |s| ==> !s[i].EvenPort?
  }

  /** The port: -1 without EVEN-PORT, otherwise the bit of the last one. */
  lemma {:induction false} RelayPort(s: seq<Att>)
    ensures LastEven(s) == -1 || LastEven(s) == 0 || LastEven(s) == 1
    ensures LastEven(s) == -1 <==> NoEvenPort(s)
    ensures LastEven(s) == 1 <==> LastIs(s, true)
    ensures LastEven(s) == 0 <==> LastIs(s, false)
  {
    hide LastIs, NoEvenPort;
    if s == [] {
      NoneLast();
    } else {
      var before, a := s[..|s| - 1], s[|s| - 1];
      RelayPort(before);
      assert before + [a] == s;
      LastSame(before, a, true);
      LastSame(before, a, false);
    }
  }

  lemma NoneLast()
    ensures NoEvenPort([]) && !LastIs([], true) && !LastIs([], false)
  {
  }

  lemma LastSame(s: seq<Att>, a: Att, b: bool)
    ensures !a.EvenPort? ==> (LastIs(s + [a], b) <==> LastIs(s, b))
    ensures a.EvenPort? ==> (LastIs(s + [a], b) <==> a.reserve == b)
    ensures NoEvenPort(s + [a]) <==> NoEvenPort(s) && !a.EvenPort?
  {
    var r := s + [a];
    assert r[|s|] == a && forall i :: 0 <= i < |s| ==> r[i] == s[i];
    if LastIs(s, b) {
      var i :| 0 <= i < |s| && s[i] == EvenPort(b) && forall j :: i < j < |s| ==> !s[j].EvenPort?;
      assert r[i] == EvenPort(b);
    }
    if LastIs(r, b) && !a.EvenPort? {
      var i :| 0 <= i < |r| && r[i] == EvenPort(b) && forall j :: i < j < |r| ==> !r[j].EvenPort?;
      assert s[i] == EvenPort(b);
    }
  }

  /** A token that is not zero is the one that is used: an accepted request has at most one. */
  lemma RelayToken(c: Config, s: seq<Att>)
    requires Accepted(c, s)
    ensures forall i :: 0 <= i < |s| && s[i].ReservationToken? && s[i].token != 0 ==> s[i] == ReservationToken(8, Token(s))
    ensures Token(s) != 0 ==> Holds(s, ReservationToken(8, Token(s)))
  {
    hide Any, LastEven, Transport;
    TokenHeld(c, s);
  }

  lemma {:induction false} TokenHeld(c: Config, s: seq<Att>)
    requires Clean(c, s)
    ensures Token(s) != 0 ==> Holds(s, ReservationToken(8, Token(s)))
    ensures forall i :: 0 <= i < |s| && s[i].ReservationToken? && s[i].token != 0 ==> s[i] == ReservationToken(8, Token(s))
  {
    hide LastEven, Transport;
    if s != [] {
      var before, a := s[..|s| - 1], s[|s| - 1];
      CleanPrefix(c, s, |before|);
      TokenHeld(c, before);
      assert ErrorOf(c, before, a) == 0;
      assert forall i :: 0 <= i < |before| ==> s[i] == before[i];
      if Token(before) != 0 {
        var i :| 0 <= i < |before| && before[i] == ReservationToken(8, Token(before));
        assert s[i] == before[i];
      }
      assert s[|before|] == a;
    }
  }

  // ---------------------------------------------------------------- attributes that are not known

  /** What must be understood and is not is never relayed: any attribute below 0x8000 that the loop does not list, and
      DONT-FRAGMENT on a server that cannot do it. */
  lemma RequiredRefused(c: Config, s: seq<Att>, i: nat)
    requires i < |s| && ((s[i].Other? && s[i].kind <= 0x7FFF) || (s[i].DontFragment? && !c.dontFragment))
    ensures !Accepted(c, s)
  {
    assert Unknown(c, s[i]);
  }

  /** What need not be understood may be put in or taken out anywhere. */
  lemma OptionalIgnored(c: Config, pre: seq<Att>, a: Att, post: seq<Att>)
    requires a.Other? && a.kind >= 0x8000
    ensures Accepted(c, pre + [a] + post) <==> Accepted(c, pre + post)
    ensures Transport(pre + [a] + post) == Transport(pre + post) && LastEven(pre + [a] + post) == LastEven(pre + post)
    ensures Token(pre + [a] + post) == Token(pre + post)
    ensures Any(pre + [a] + post, IsV4) <==> Any(pre + post, IsV4)
    ensures Any(pre + [a] + post, IsV6) <==> Any(pre + post, IsV6)
  {
    hide Transport, LastEven, Token, Any, Clean, NoneUnknown;
    SameBoth(c, pre, a, post);
  }

  /** Everything that an attribute is judged by. */
  ghost predicate Same(s: seq<Att>, t: seq<Att>) {
    && Transport(s) == Transport(t) && LastEven(s) == LastEven(t) && Token(s) == Token(t)
    && (Any(s, IsToken) <==> Any(t, IsToken)) && (Any(s, IsFamily) <==> Any(t, IsFamily))
    && (Any(s, IsV4) <==> Any(t, IsV4)) && (Any(s, IsV6) <==> Any(t, IsV6))
    && (Any(s, (b: Att) => b.DontFragment?) <==> Any(t, (b: Att) => b.DontFragment?))
    && (Any(s, (b: Att) => b.AdditionalFamily?) <==> Any(t, (b: Att) => b.AdditionalFamily?))
  }

  lemma {:induction false} SameBoth(c: Config, pre: seq<Att>, a: Att, post: seq<Att>)
    requires a.Other? && a.kind >= 0x8000
    ensures Same(pre + [a] + post, pre + post)
    ensures Clean(c, pre + [a] + post) <==> Clean(c, pre + post)
    ensures NoneUnknown(c, pre + [a] + post) <==> NoneUnknown(c, pre + post)
    decreases |post|
  {
    hide Transport, LastEven, Token, Any, Clean, NoneUnknown;
    if post == [] {
      assert pre + [a] + post == pre + [a] && pre + post == pre;
      Snoc(pre, a);
      CleanSnoc(c, pre, a);
    } else {
      var most, last := post[..|post| - 1], post[|post| - 1];
      SameBoth(c, pre, a, most);
      var s, t := pre + [a] + most, pre + most;
      assert pre + [a] + post == s + [last] && pre + post == t + [last];
      Snoc(s, last);
      Snoc(t, last);
      CleanSnoc(c, s, last);
      CleanSnoc(c, t, last);
      SameError(c, s, t, last);
    }
  }

  lemma SameError(c: Config, s: seq<Att>, t: seq<Att>, a: Att)
    requires Same(s, t)
    ensures ErrorOf(c, s, a) == ErrorOf(c, t, a)
  {
    hide Transport, LastEven, Token, Any;
  }

  // ---------------------------------------------------------------- the error of an attribute

  /** The codes of the attributes that are judged by themselves. */
  lemma OwnErrors(c: Config, before: seq<Att>)
    ensures forall tooLong, secure ::
              ErrorOf(c, before, Username(tooLong, secure)) == if tooLong || !secure then 400 else 0
    ensures forall len :: ErrorOf(c, before, MobilityTicket(len)) == if !c.mobility then 405 else if len != 0 then 400 else 0
    ensures forall len :: ErrorOf(c, before, Lifetime(len)) == if len != 4 then 400 else 0
    ensures ErrorOf(c, before, Skipped) == ErrorOf(c, before, Bandwidth) == ErrorOf(c, before, Att.DontFragment) == 0
    ensures forall kind :: ErrorOf(c, before, Other(kind)) == 0
  {
  }

  /** The codes of REQUESTED-TRANSPORT: 400 for a wrong length, a second one, and TCP from a client on UDP; 442 for a
      protocol that is not known or not relayed. */
  lemma TransportErrors(c: Config, before: seq<Att>, len: nat, protocol: u8)
    requires Clean(c, before)
    ensures var err := ErrorOf(c, before, RequestedTransport(len, protocol));
            && (len != 4 || (exists i :: 0 <= i < |before| && before[i].RequestedTransport?) ==> err == 400)
            && (len == 4 && (forall i :: 0 <= i < |before| ==> !before[i].RequestedTransport?) ==>
                  err == if protocol != 17 && protocol != 6 then 442
                         else if protocol == 6 && c.noTcpRelay then 442
                         else if protocol == 17 && c.noUdpRelay then 442
                         else if protocol == 6 && c.stream == Some(false) then 400
                         else 0)
  {
    TransportHeld(c, before);
    hide Transport;
  }

  /** The codes of the attributes that exclude one another: 400 for every clash, 440 for a family that does not exist. */
  lemma ClashErrors(c: Config, before: seq<Att>)
    ensures var token := exists i :: 0 <= i < |before| && before[i].ReservationToken? && before[i].token != 0;
            var family := exists i :: 0 <= i < |before| && (before[i].RequestedFamily? || before[i].AdditionalFamily?);
            var dual := exists i :: 0 <= i < |before| && before[i].AdditionalFamily?;
            var even := !NoEvenPort(before);
            && (forall reserve :: ErrorOf(c, before, EvenPort(reserve)) == if token || (reserve && dual) then 400 else 0)
            && (forall len, value :: ErrorOf(c, before, ReservationToken(len, value))
                                     == if len != 8 || family || even || token then 400 else 0)
            && ErrorOf(c, before, RequestedFamily(IPv4)) == (if token || family then 400 else 0)
            && ErrorOf(c, before, RequestedFamily(IPv6)) == (if token || family then 400 else 0)
            && ErrorOf(c, before, RequestedFamily(Invalid)) == (if token || family then 400 else 440)
            && ErrorOf(c, before, AdditionalFamily(IPv6)) == (if LastIs(before, true) || token || family then 400 else 0)
            && ErrorOf(c, before, AdditionalFamily(IPv4)) == 400
            && ErrorOf(c, before, AdditionalFamily(Invalid)) == (if LastIs(before, true) || token || family then 400 else 440)
  {
    RelayPort(before);
    AnyMeans(before);
    hide LastEven, Any, LastIs, NoEvenPort;
  }

  lemma AnyMeans(s: seq<Att>)
    ensures Any(s, IsToken) <==> exists i :: 0 <= i < |s| && s[i].ReservationToken? && s[i].token != 0
    ensures Any(s, IsFamily) <==> exists i :: 0 <= i < |s| && (s[i].RequestedFamily? || s[i].AdditionalFamily?)
    ensures Any(s, (a: Att) => a.AdditionalFamily?) <==> exists i :: 0 <= i < |s| && s[i].AdditionalFamily?
  {
    if i :| 0 <= i < |s| && s[i].ReservationToken? && s[i].token != 0 {
      assert IsToken(s[i]);
    }
    if i :| 0 <= i < |s| && (s[i].RequestedFamily? || s[i].AdditionalFamily?) {
      assert IsFamily(s[i]);
    }
  }
}
