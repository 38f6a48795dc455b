/** Message types: a 12-bit method and a 2-bit class, interleaved (section 6 of RFC 5389). */
module StunTypes {
  import opened IoAddr

  datatype Class = Request | Indication | Success | Error

  /** The class bits are the fifth and the ninth of the type. */
  function ClassBits(c: Class): u16 {
    match c
    case Request => 0
    case Indication => 0x10
    case Success => 0x100
    case Error => 0x110
  }

  /** stun_make_type: the method's bits, parted around the class bits. */
  function MakeType(code: u16): u16 {
    var m := code % 0x1000;
    m % 0x10 + m / 0x10 % 8 * 0x20 + m / 0x80 % 8 * 0x200 + m / 0x400 * 0x1000
  }

  /** stun_make_request, _indication, _success_response and _error_response. */
  function Make(c: Class, code: u16): u16 {
    MakeType(code) + ClassBits(c)
  }

  /** stun_get_method_str of a type field. */
  function MethodOf(t: u16): u16 {
    t % 0x10 + t / 0x20 % 8 * 0x10 + t / 0x200 % 8 * 0x80 + t / 0x1000 % 4 * 0x400
  }

  /** The classification macros, in this order. */
  function ClassOf(t: u16): Class {
    match (t / 0x100 % 2, t / 0x10 % 2)
    case (0, 0) => Request
    case (0, _) => Indication
    case (_, 0) => Success
    case (_, _) => Error
  }

  /** Every method below 4096 and every class are read back from the type they were put into, which needs no
      more than 14 bits; so types are one-to-one with method and class. */
  lemma TypeRoundTrip(c: Class, code: u16)
    ensures Make(c, code) < 0x4000
    ensures MethodOf(Make(c, code)) == code % 0x1000 && ClassOf(Make(c, code)) == c
  {
    hide MethodOf, ClassOf;
    var m := code % 0x1000;
    var a, b, d, e := Parts(m);
    var x := if c.Indication? || c.Error? then 1 else 0;
    var y := if c.Success? || c.Error? then 1 else 0;
    Reads(Make(c, code), a, x, b, y, d, e);
  }

  lemma Reads(t: u16, a: int, x: int, b: int, y: int, d: int, e: int)
    requires 0 <= a < 16 && 0 <= x < 2 && 0 <= b < 8 && 0 <= y < 2 && 0 <= d < 8 && 0 <= e < 4
    requires t == a + 0x10 * x + 0x20 * b + 0x100 * y + 0x200 * d + 0x1000 * e
    ensures MethodOf(t) == a + 0x10 * b + 0x80 * d + 0x400 * e
    ensures ClassOf(t) == if y == 0 then (if x == 0 then Request else Indication) else if x == 0 then Success else Error
  {
    Digits(t, a, x, b, y, d, e);
  }

  lemma Parts(m: int) returns (a: int, b: int, d: int, e: int)
    requires 0 <= m < 0x1000
    ensures a == m % 0x10 && b == m / 0x10 % 8 && d == m / 0x80 % 8 && e == m / 0x400 && 0 <= e < 4
    ensures m == a + 0x10 * b + 0x80 * d + 0x400 * e
  {
    a, b, d, e := m % 0x10, m / 0x10 % 8, m / 0x80 % 8, m / 0x400;
    assert m / 0x10 == b + 8 * (m / 0x80);
    assert m / 0x80 == d + 8 * e;
  }

  lemma Digits(t: int, a: int, x: int, b: int, y: int, d: int, e: int)
    requires 0 <= a < 16 && 0 <= x < 2 && 0 <= b < 8 && 0 <= y < 2 && 0 <= d < 8 && 0 <= e < 4
    requires t == a + 0x10 * x + 0x20 * b + 0x100 * y + 0x200 * d + 0x1000 * e
    ensures t % 0x10 == a && t / 0x10 % 2 == x && t / 0x20 % 8 == b
    ensures t / 0x100 % 2 == y && t / 0x200 % 8 == d && t / 0x1000 == e
  {
    assert t / 0x10 == x + 2 * b + 0x10 * y + 0x20 * d + 0x100 * e;
    assert t / 0x20 == b + 8 * y + 0x10 * d + 0x80 * e;
    assert t / 0x100 == y + 2 * d + 0x10 * e;
    assert t / 0x200 == d + 8 * e;
  }
}
