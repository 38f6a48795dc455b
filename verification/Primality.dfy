/**
 The bucket counts of the hash table are entries of a fixed prime list, and double hashing visits
 every bucket only because they are prime.  This module proves that the entries are prime.

 A certificate for n is a base b and an exponent f with b^f = 1 (mod n), such that no proper divisor
 of f already gives 1 modulo any divisor of n.  Then the f powers of b are distinct modulo every
 divisor d > 1 of n, so d > f; with f * f >= n there is no room for two such divisors.
 */
module Primality {

  ghost predicate IsPrime(n: int) {
    n > 1 && forall d :: 1 < d < n ==> n % d != 0
  }

  // ---------------------------------------------------------------- divisibility

  ghost predicate Divides(d: int, n: int)
    requires d != 0
  {
    exists q :: n == d * q
  }

  lemma DividesMod(d: int, n: int)
    requires d > 0
    ensures Divides(d, n) <==> n % d == 0
  {
    if n % d == 0 {
      assert n == d * (n / d);
    }
    if Divides(d, n) {
      var q :| n == d * q;
      MultipleMod(d, q);
    }
  }

  lemma MulMono(d: int, x: int, y: int)
    requires d >= 0
    ensures x <= y ==> d * x <= d * y
  {
    assert d * y - d * x == d * (y - x);
  }

  lemma MultipleMod(d: int, q: int)
    requires d > 0
    ensures (d * q) % d == 0
  {
    var r := (d * q) % d;
    var k := (d * q) / d;
    assert d * q == d * k + r;
    assert r == d * (q - k);
    MulMono(d, 1, q - k);
    MulMono(d, q - k, -1);
  }

  lemma DividesSub(d: int, a: int, b: int)
    requires d != 0 && Divides(d, a) && Divides(d, b)
    ensures Divides(d, a - b) && Divides(d, a + b)
  {
    var x :| a == d * x;
    var y :| b == d * y;
    assert a - b == d * (x - y);
    assert a + b == d * (x + y);
  }

  lemma DividesMul(d: int, a: int, k: int)
    requires d != 0 && Divides(d, a)
    ensures Divides(d, a * k) && Divides(d, k * a)
  {
    var x :| a == d * x;
    assert a * k == d * (x * k);
    assert k * a == a * k;
  }

  lemma DividesTrans(c: int, d: int, n: int)
    requires c != 0 && d != 0 && Divides(c, d) && Divides(d, n)
    ensures Divides(c, n)
  {
    var x :| d == c * x;
    DividesMul2(c, d, n, x);
  }

  lemma DividesMul2(c: int, d: int, n: int, x: int)
    requires c != 0 && d != 0 && d == c * x && Divides(d, n)
    ensures Divides(c, n)
  {
    var y :| n == d * y;
    assert n == c * (x * y);
  }

  lemma DividesLe(d: int, n: int)
    requires d > 0 && n > 0 && Divides(d, n)
    ensures d <= n
  {
    var q :| n == d * q;
    MulMono(d, q, 0);
    MulMono(d, 1, q);
  }

  /** Euclid's lemma in the form the probe sequence needs: a prime cannot divide k * inc when both
      factors are strictly between 0 and n. */
  lemma {:induction false} NoZeroDivisors(n: int, k: int, inc: int)
    requires IsPrime(n) && 0 < k < n && 0 < inc < n
    ensures !Divides(n, k * inc)
    decreases k
  {
    if Divides(n, k * inc) {
      var r := n % k;
      if r == 0 {
        if k == 1 {
          DividesLe(n, inc);
        }
        assert false;
      } else {
        var c := n / k;
        assert r == n - c * k;
        assert r * inc == n * inc - c * (k * inc);
        DividesMul(n, k * inc, c);
        assert Divides(n, n * inc);
        DividesSub(n, n * inc, c * (k * inc));
        NoZeroDivisors(n, r, inc);
      }
    }
  }

  /** Euclid's lemma. */
  lemma Euclid(q: int, a: int, b: int)
    requires IsPrime(q) && Divides(q, a * b)
    ensures Divides(q, a) || Divides(q, b)
  {
    var x, y := a % q, b % q;
    if x != 0 && y != 0 {
      CongModSelf(a, q);
      CongModSelf(b, q);
      CongMul(a, x, b, y, q);
      DividesSub(q, a * b, a * b - x * y);
      NoZeroDivisors(q, x, y);
    }
    DividesMod(q, a);
    DividesMod(q, b);
  }

  // ---------------------------------------------------------------- powers modulo n

  ghost function Product(s: seq<int>): int {
    if s == [] then 1 else s[0] * Product(s[1..])
  }

  // b^e, as a product of e factors.  (A recursion on the number e itself would be unfolded e times
  // by the verifier wherever e is a constant.)
  ghost function Pow(b: int, e: nat): int {
    Product(seq(e, i => b))
  }

  lemma PowSucc(b: int, e: nat)
    ensures Pow(b, 0) == 1
    ensures Pow(b, e + 1) == b * Pow(b, e)
  {
    var s := seq(e + 1, i => b);
    assert s[1..] == seq(e, i => b);
  }

  lemma {:induction false} PowAdd(b: int, x: nat, y: nat)
    ensures Pow(b, x + y) == Pow(b, x) * Pow(b, y)
    decreases x
  {
    PowSucc(b, 0);
    if x > 0 {
      PowAdd(b, x - 1, y);
      PowSucc(b, x - 1 + y);
      PowSucc(b, x - 1);
      assert x + y == x - 1 + y + 1;
      assert b * (Pow(b, x - 1) * Pow(b, y)) == (b * Pow(b, x - 1)) * Pow(b, y);
    }
  }

  ghost predicate Cong(a: int, b: int, n: int)
    requires n > 0
  {
    Divides(n, a - b)
  }

  lemma CongModSelf(a: int, n: int)
    requires n > 0
    ensures Cong(a, a % n, n)
  {
    assert a - a % n == n * (a / n);
  }

  lemma CongTrans(a: int, b: int, c: int, n: int)
    requires n > 0 && Cong(a, b, n) && Cong(b, c, n)
    ensures Cong(a, c, n)
  {
    DividesSub(n, a - b, b - c);
    assert (a - b) + (b - c) == a - c;
  }

  lemma CongSym(a: int, b: int, n: int)
    requires n > 0 && Cong(a, b, n)
    ensures Cong(b, a, n)
  {
    var q :| a - b == n * q;
    assert b - a == n * (-q);
  }

  lemma CongMul(a: int, b: int, c: int, d: int, n: int)
    requires n > 0 && Cong(a, b, n) && Cong(c, d, n)
    ensures Cong(a * c, b * d, n)
  {
    DividesMul(n, a - b, c);
    DividesMul(n, c - d, b);
    DividesSub(n, (a - b) * c, b * (c - d));
    assert (a - b) * c + b * (c - d) == a * c - b * d;
  }

  lemma CongDivisor(a: int, b: int, d: int, n: int)
    requires n > 0 && d > 0 && Divides(d, n) && Cong(a, b, n)
    ensures Cong(a, b, d)
  {
    DividesTrans(d, n, a - b);
  }

  /** x is b^e modulo n. */
  ghost predicate PowIs(b: int, n: int, e: nat, x: int)
    requires n > 0
  {
    Cong(Pow(b, e), x, n)
  }

  lemma PowStart(b: int, n: int)
    requires n > 0
    ensures PowIs(b, n, 1, b)
  {
    PowSucc(b, 0);
    assert b - b == n * 0;
  }

  /** One step of repeated squaring: from b^e to b^(2e). */
  lemma Sq(b: int, n: int, e: nat, x: int, y: int)
    requires n > 1 && PowIs(b, n, e, x) && (x * x) % n == y
    ensures PowIs(b, n, 2 * e, y)
  {
    var p := Pow(b, e);
    CongMul(p, x, p, x, n);
    CongModSelf(x * x, n);
    CongTrans(p * p, x * x, y, n);
    PowAdd(b, e, e);
  }

  /** Multiplying by the base: from b^e to b^(e+1). */
  lemma Mu(b: int, n: int, e: nat, x: int, y: int)
    requires n > 1 && PowIs(b, n, e, x) && (x * b) % n == y
    ensures PowIs(b, n, e + 1, y)
  {
    assert b - b == n * 0;
    CongMul(b, b, Pow(b, e), x, n);
    assert b * x == x * b;
    CongModSelf(x * b, n);
    PowSucc(b, e);
    CongTrans(Pow(b, e + 1), x * b, y, n);
  }

  // ---------------------------------------------------------------- exponents that give 1

  ghost predicate Unit(b: int, e: nat, d: int)
    requires d > 0
  {
    Cong(Pow(b, e), 1, d)
  }

  /** Cancelling: from b^x = b^y = 1 follows b^(y-x) = 1. */
  lemma UnitSub(b: int, x: nat, y: nat, d: int)
    requires d > 0 && x <= y && Unit(b, x, d) && Unit(b, y, d)
    ensures Unit(b, y - x, d)
  {
    var z := Pow(b, y - x);
    PowAdd(b, x, y - x);
    assert z - z == d * 0;
    CongMul(Pow(b, x), 1, z, z, d);
    CongSym(Pow(b, y), z, d);
    CongTrans(z, Pow(b, y), 1, d);
  }

  ghost function Gcd(x: nat, y: nat): (g: nat)
    requires x > 0 && y > 0
    ensures 0 < g <= x && g <= y
    ensures Divides(g, x) && Divides(g, y)
    decreases x + y
  {
    if x == y then
      assert x == x * 1;
      x
    else if x < y then
      var g := Gcd(x, y - x);
      DividesSub(g, y - x, x);
      g
    else
      var g := Gcd(x - y, y);
      DividesSub(g, x - y, y);
      g
  }

  lemma {:induction false} UnitGcd(b: int, x: nat, y: nat, d: int)
    requires d > 0 && x > 0 && y > 0 && Unit(b, x, d) && Unit(b, y, d)
    ensures Unit(b, Gcd(x, y), d)
    decreases x + y
  {
    if x < y {
      UnitSub(b, x, y, d);
      UnitGcd(b, x, y - x, d);
    } else if y < x {
      UnitSub(b, y, x, d);
      UnitGcd(b, x - y, y, d);
    }
  }

  lemma {:induction false} UnitMultiple(b: int, x: nat, k: nat, d: int)
    requires d > 0 && Unit(b, x, d)
    ensures Unit(b, x * k, d)
    decreases k
  {
    if k == 0 {
      assert x * k == 0;
      PowSucc(b, 0);
      assert 1 - 1 == d * 0;
    } else {
      UnitMultiple(b, x, k - 1, d);
      assert x * k == x * (k - 1) + x;
      PowAdd(b, x * (k - 1), x);
      CongMul(Pow(b, x * (k - 1)), 1, Pow(b, x), 1, d);
    }
  }

  /** The order of b modulo d is exactly f. */
  ghost predicate ExactOrder(b: int, f: nat, d: int)
    requires d > 0
  {
    Unit(b, f, d) && forall e: nat :: 0 < e < f ==> !Unit(b, e, d)
  }

  /** From b^i = b^j and b^f = 1 follows b^(i + f - j) = 1. */
  lemma Collide(b: int, f: nat, d: int, i: nat, j: nat)
    requires d > 0 && i < j <= f && Cong(Pow(b, i), Pow(b, j), d) && Unit(b, f, d)
    ensures Unit(b, i + (f - j), d)
  {
    var z := Pow(b, f - j);
    assert z - z == d * 0;
    CongMul(Pow(b, i), Pow(b, j), z, z, d);
    PowAdd(b, i, f - j);
    PowAdd(b, j, f - j);
    CongTrans(Pow(b, i + (f - j)), Pow(b, f), 1, d);
  }

  /** b^i = b^j only for i = j below the order. */
  lemma PowersDistinct(b: int, f: nat, d: int, i: nat, j: nat)
    requires d > 1 && ExactOrder(b, f, d) && i < j < f
    ensures Pow(b, i) % d != Pow(b, j) % d
  {
    var x, y := Pow(b, i), Pow(b, j);
    if x % d == y % d {
      CongModSelf(x, d);
      CongModSelf(y, d);
      CongSym(y, y % d, d);
      CongTrans(x, x % d, y, d);
      Collide(b, f, d, i, j);
    }
  }

  lemma PowerNonZero(b: int, f: nat, d: int, i: nat)
    requires d > 1 && ExactOrder(b, f, d) && i < f
    ensures Pow(b, i) % d != 0
  {
    if Pow(b, i) % d == 0 {
      DividesMod(d, Pow(b, i));
      PowAdd(b, i, f - i);
      DividesMul(d, Pow(b, i), Pow(b, f - i));
      DividesSub(d, Pow(b, f), Pow(b, f) - 1);
      DividesLe(d, 1);
    }
  }

  /** Counting the powers: there are f distinct non-zero residues, so f < d. */
  lemma OrderBelowModulus(b: int, f: nat, d: int)
    requires d > 1 && ExactOrder(b, f, d)
    ensures f < d
  {
    ResiduesCard(b, f, d, f);
    IntervalCard(Residues(b, d, f), d);
  }

  /** The residues of b^0 .. b^(k-1) modulo d. */
  ghost function Residues(b: int, d: int, k: nat): set<int>
    requires d > 1
  {
    if k == 0 then {} else Residues(b, d, k - 1) + {Pow(b, k - 1) % d}
  }

  lemma {:induction false} ResidueIsPower(b: int, d: int, k: nat, x: int) returns (i: nat)
    requires d > 1 && x in Residues(b, d, k)
    ensures i < k && x == Pow(b, i) % d
  {
    if x == Pow(b, k - 1) % d {
      i := k - 1;
    } else {
      i := ResidueIsPower(b, d, k - 1, x);
    }
  }

  lemma {:induction false} ResiduesCard(b: int, f: nat, d: int, k: nat)
    requires d > 1 && ExactOrder(b, f, d) && k <= f
    ensures |Residues(b, d, k)| == k
    ensures forall x :: x in Residues(b, d, k) ==> 0 < x < d
  {
    if k > 0 {
      ResiduesCard(b, f, d, k - 1);
      var x := Pow(b, k - 1) % d;
      PowerNonZero(b, f, d, k - 1);
      if x in Residues(b, d, k - 1) {
        var i := ResidueIsPower(b, d, k - 1, x);
        PowersDistinct(b, f, d, i, k - 1);
      }
    }
  }

  lemma {:induction false} IntervalCard(s: set<int>, d: int)
    requires d > 0 && forall x :: x in s ==> 0 < x < d
    ensures |s| < d
    decreases d
  {
    if d == 1 {
      assert forall x :: x !in s;
      assert s == {};
    } else {
      var t := s - {d - 1};
      IntervalCard(t, d - 1);
      assert s <= t + {d - 1};
      CardMono(s, t + {d - 1});
    }
  }

  lemma CardMono<T>(s: set<T>, t: set<T>)
    requires s <= t
    ensures |s| <= |t|
  {
    assert t == s + (t - s);
  }

  // ---------------------------------------------------------------- certificates

  /** If modulo every divisor of n the order of b is f, and f * f >= n, then n is prime. */
  lemma PrimeByOrder(n: int, b: int, f: nat)
    requires n > 1 && f * f >= n
    requires forall d :: 1 < d && n % d == 0 ==> ExactOrder(b, f, d)
    ensures IsPrime(n)
  {
    hide ExactOrder;
    forall d | 1 < d < n
      ensures n % d != 0
    {
      if n % d == 0 {
        var e := Cofactor(n, d);
        OrderBelowModulus(b, f, d);
        OrderBelowModulus(b, f, e);
        BothAbove(f, d, e);
      }
    }
  }

  lemma BothAbove(f: nat, d: int, e: int)
    requires f < d && f < e
    ensures d * e > f * f
  {
    MulMono(f, f, e);
    MulMono(e, f + 1, d);
    assert f * e == e * f;
    assert (f + 1) * e == f * e + e;
  }

  lemma Cofactor(n: int, d: int) returns (e: int)
    requires 1 < d < n && n % d == 0
    ensures 1 < e < n && n == d * e && n % e == 0
  {
    e := n / d;
    MulMono(d, e, 1);
    assert n == e * d;
    MultipleMod(e, d);
    MulMono(e, 2, d);
  }

  /** A witness inv that x - 1 is invertible modulo n: then x is not 1 modulo any divisor of n. */
  lemma NotOne(x: int, y: int, inv: int, n: int, d: int)
    requires n > 1 && d > 1 && n % d == 0
    requires Cong(x, y, n)
    requires ((y - 1) * inv) % n == 1
    ensures !Cong(x, 1, d)
  {
    DividesMod(d, n);
    if Cong(x, 1, d) {
      CongDivisor(x, y, d, n);
      CongSym(x, y, d);
      CongTrans(y, x, 1, d);
      DividesMul(d, y - 1, inv);
      CongModSelf((y - 1) * inv, n);
      CongDivisor((y - 1) * inv, 1, d, n);
      DividesSub(d, (y - 1) * inv, (y - 1) * inv - 1);
      assert (y - 1) * inv - ((y - 1) * inv - 1) == 1;
      DividesLe(d, 1);
    }
  }

  /** Certificate with a prime exponent q >= sqrt(n): b^q = 1 and b - 1 is invertible. */
  lemma CertifyOne(n: int, b: int, q: nat, inv: int)
    requires n > 1 && IsPrime(q) && q * q >= n
    requires PowIs(b, n, q, 1)
    requires ((b - 1) * inv) % n == 1
    ensures IsPrime(n)
  {
    forall d | 1 < d && n % d == 0
      ensures ExactOrder(b, q, d)
    {
      DividesMod(d, n);
      CongDivisor(Pow(b, q), 1, d, n);
      assert b - b == n * 0;
      PowSucc(b, 0);
      NotOne(Pow(b, 1), b, inv, n, d);
      forall e: nat | 0 < e < q
        ensures !Unit(b, e, d)
      {
        if Unit(b, e, d) {
          var g := Gcd(e, q);
          UnitGcd(b, e, q, d);
          DividesMod(g, q);
          if g != 1 {
            assert false;
          }
        }
      }
    }
    PrimeByOrder(n, b, q);
  }

  /** A proper divisor of a product of two primes divides one of them. */
  lemma DivisorOfSemiprime(q: int, r: int, g: int)
    requires IsPrime(q) && IsPrime(r) && q != r && 0 < g < q * r && Divides(g, q * r)
    ensures Divides(g, q) || Divides(g, r)
  {
    var e :| q * r == g * e;
    assert g * e == r * q;
    assert Divides(r, g * e);
    Euclid(q, g, e);
    Euclid(r, g, e);
    if Divides(q, e) {
      MoveFactor(q, r, g, e);
    } else if Divides(r, e) {
      MoveFactor(r, q, g, e);
    } else {
      var g1 :| g == q * g1;
      Euclid(r, q, g1);
      if Divides(r, q) {
        DividesMod(r, q);
        DividesLe(r, q);
        assert false;
      } else {
        ProductDivides(q, r, g1);
        DividesLe(q * r, g);
      }
    }
  }

  lemma MoveFactor(q: int, r: int, g: int, e: int)
    requires q > 0 && g != 0 && q * r == g * e && Divides(q, e)
    ensures Divides(g, r)
  {
    var e1 :| e == q * e1;
    assert g * (q * e1) == q * (g * e1);
    CancelLeft(q, r, g * e1);
  }

  lemma ProductDivides(q: int, r: int, g1: int)
    requires q > 0 && r > 0 && Divides(r, g1)
    ensures q * r > 0 && Divides(q * r, q * g1)
  {
    var g2 :| g1 == r * g2;
    assert q * (r * g2) == (q * r) * g2;
  }

  lemma CancelLeft(q: int, x: int, y: int)
    requires q > 0 && q * x == q * y
    ensures x == y
  {
    MulMono(q, x + 1, y);
    MulMono(q, y + 1, x);
  }

  /** Certificate with exponent q * r >= sqrt(n), for distinct primes q and r. */
  lemma CertifyTwo(n: int, b: int, q: nat, r: nat, xq: int, xr: int, invq: int, invr: int)
    requires n > 1 && IsPrime(q) && IsPrime(r) && q != r && (q * r) * (q * r) >= n
    requires PowIs(b, n, q * r, 1) && PowIs(b, n, q, xq) && PowIs(b, n, r, xr)
    requires ((xq - 1) * invq) % n == 1 && ((xr - 1) * invr) % n == 1
    ensures IsPrime(n)
  {
    var f := q * r;
    forall d | 1 < d && n % d == 0
      ensures ExactOrder(b, f, d)
    {
      DividesMod(d, n);
      CongDivisor(Pow(b, f), 1, d, n);
      NotOne(Pow(b, q), xq, invq, n, d);
      NotOne(Pow(b, r), xr, invr, n, d);
      forall e: nat | 0 < e < f
        ensures !Unit(b, e, d)
      {
        if Unit(b, e, d) {
          var g := Gcd(e, f);
          UnitGcd(b, e, f, d);
          DivisorOfSemiprime(q, r, g);
          if Divides(g, q) {
            UnitOfDivisor(b, g, q, d);
          } else {
            UnitOfDivisor(b, g, r, d);
          }
        }
      }
    }
    PrimeByOrder(n, b, f);
  }

  lemma UnitOfDivisor(b: int, g: nat, q: nat, d: int)
    requires d > 0 && g > 0 && Divides(g, q) && Unit(b, g, d)
    ensures Unit(b, q, d)
  {
    var k :| q == g * k;
    MulMono(g, k, -1);
    UnitMultiple(b, g, k, d);
  }

  ghost function Two(m: nat): (p: nat)
    ensures p > 0
  {
    if m == 0 then 1 else 2 * Two(m - 1)
  }

  lemma Twice(h: int, e: int)
    ensures (2 * h) * e == 2 * (h * e)
  {
  }

  lemma {:induction false} OddDivisorOfPower(m: nat, g: int, e: int)
    requires g > 0 && e > 0 && e % 2 == 1 && Two(m) == g * e
    ensures e == 1
    decreases m
  {
    if m == 0 {
      MulMono(g, 2, e);
    } else {
      var k := e / 2;
      var gk := g * k;
      assert g * (2 * k + 1) == 2 * gk + g;
      var h := Two(m - 1) - gk;
      assert g == 2 * h;
      Twice(h, e);
      OddDivisorOfPower(m - 1, h, e);
    }
  }

  /** A proper divisor of 2^m divides 2^(m-1). */
  lemma DivisorOfPower(m: nat, g: int)
    requires 0 < g < Two(m) && Divides(g, Two(m))
    ensures m > 0 && Divides(g, Two(m - 1))
  {
    var e :| Two(m) == g * e;
    MulMono(g, e, 0);
    if e % 2 == 1 {
      OddDivisorOfPower(m, g, e);
    }
    var k := e / 2;
    assert e == 2 * k;
    assert g * (2 * k) == 2 * (g * k);
    assert Two(m) == 2 * Two(m - 1) by {
      if m == 0 {
        MulMono(g, 1, e);
      }
    }
    assert Two(m - 1) == g * k;
  }

  /** Certificate with exponent 2^m >= sqrt(n): b^(2^(m-1)) = -1 and n is odd. */
  lemma CertifyPower(n: int, b: int, m: nat)
    requires n > 2 && n % 2 == 1 && m > 0 && Two(m) * Two(m) >= n
    requires PowIs(b, n, Two(m - 1), n - 1)
    ensures IsPrime(n)
  {
    var f := Two(m);
    MinusOneSquared(b, n, Two(m - 1));
    forall d | 1 < d && n % d == 0
      ensures ExactOrder(b, f, d)
    {
      DividesMod(d, n);
      CongDivisor(Pow(b, f), 1, d, n);
      HalfInverse(n);
      NotOne(Pow(b, Two(m - 1)), n - 1, (n - 1) / 2, n, d);
      forall e: nat | 0 < e < f
        ensures !Unit(b, e, d)
      {
        if Unit(b, e, d) {
          var g := Gcd(e, f);
          UnitGcd(b, e, f, d);
          DivisorOfPower(m, g);
          UnitOfDivisor(b, g, Two(m - 1), d);
        }
      }
    }
    PrimeByOrder(n, b, f);
  }

  lemma MinusOneSquared(b: int, n: int, e: nat)
    requires n > 2 && PowIs(b, n, e, n - 1)
    ensures PowIs(b, n, 2 * e, 1)
  {
    assert (n - 1) * (n - 1) == n * (n - 2) + 1;
    ModPlusOne(n, n - 2);
    Sq(b, n, e, n - 1, 1);
  }

  /** -2 times (n-1)/2 is 1 modulo an odd n. */
  lemma HalfInverse(n: int)
    requires n > 2 && n % 2 == 1
    ensures ((n - 1 - 1) * ((n - 1) / 2)) % n == 1
  {
    var h := (n - 1) / 2;
    assert n == 2 * h + 1;
    assert (n - 2) * h == n * (h - 1) + 1;
    MultipleMod(n, h - 1);
    assert (n * (h - 1) + 1) % n == 1 by {
      CongModSelf(n * (h - 1) + 1, n);
      ModPlusOne(n, h - 1);
    }
  }

  lemma ModPlusOne(n: int, k: int)
    requires n > 1
    ensures (n * k + 1) % n == 1
  {
    var r, c := (n * k + 1) % n, (n * k + 1) / n;
    assert n * k + 1 == n * c + r;
    assert r - 1 == n * (k - c);
    MulMono(n, 1, k - c);
    MulMono(n, k - c, -1);
  }

  // ---------------------------------------------------------------- small primes

  /** No odd number in [lo, hi) divides n. */
  predicate NoOddFactor(n: int, lo: int, hi: int)
    requires 0 < lo
    decreases hi - lo
  {
    lo >= hi || (n % lo != 0 && NoOddFactor(n, lo + 2, hi))
  }

  lemma {:induction false} NoOddFactorMeans(n: int, lo: int, hi: int, d: int)
    requires 0 < lo && NoOddFactor(n, lo, hi) && lo <= d < hi && (d - lo) % 2 == 0
    ensures n % d != 0
    decreases hi - lo
  {
    if d != lo {
      NoOddFactorMeans(n, lo + 2, hi, d);
    }
  }

  /** Trial division by odd numbers below hi, where hi * hi > n. */
  lemma TrialDivision(n: int, hi: int)
    requires n > 2 && n % 2 == 1 && hi > 1 && hi * hi > n && NoOddFactor(n, 3, hi)
    ensures IsPrime(n)
  {
    forall d | 1 < d < n
      ensures n % d != 0
    {
      if n % d == 0 {
        var e := Cofactor(n, d);
        MulMono(d, hi, e);
        MulMono(hi, hi, d);
        if d < hi {
          SmallOddFactor(n, hi, d);
        } else {
          SmallOddFactor(n, hi, e);
        }
      }
    }
  }

  lemma SmallOddFactor(n: int, hi: int, d: int)
    requires n % 2 == 1 && NoOddFactor(n, 3, hi) && 1 < d < hi
    ensures n % d != 0
  {
    if n % d == 0 {
      assert d % 2 == 1 by {
        if d % 2 == 0 {
          DividesMod(2, d);
          DividesMod(d, n);
          DividesTrans(2, d, n);
          DividesMod(2, n);
        }
      }
      NoOddFactorMeans(n, 3, hi, d);
    }
  }
}
