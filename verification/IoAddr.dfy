/** Transport addresses as the server compares them. */
module IoAddr {

  type u8 = x: int | 0 <= x < 256
  type u16 = x: int | 0 <= x < 0x1_0000

  // The address family and the address bytes, in network order; a zeroed ioa_addr has no family.
  datatype Ip = NoFamily | V4(b4: seq<u8>) | V6(b16: seq<u8>)

  datatype Addr = Addr(ip: Ip, port: u16)

  ghost predicate ValidIp(ip: Ip) {
    match ip
    case NoFamily => true
    case V4(b) => |b| == 4
    case V6(b) => |b| == 16
  }

  const ANY := Addr(NoFamily, 0)

  predicate AllZero(b: seq<u8>) {
    forall i :: 0 <= i < |b| ==> b[i] == 0
  }

  predicate AddrAny(a: Addr) {
    match a.ip
    case NoFamily => true
    case V4(b) => AllZero(b) && a.port == 0
    case V6(b) => AllZero(b) && a.port == 0
  }

  /** addr_get_port: an address without a family has no port. */
  function Port(a: Addr): u16 {
    if a.ip.NoFamily? then 0 else a.port
  }

  /** addr_set_port: has no effect without a family. */
  function WithPort(a: Addr, port: u16): Addr {
    if a.ip.NoFamily? then a else a.(port := port)
  }

  /** addr_eq. */
  predicate AddrEq(a: Addr, b: Addr) {
    a.ip == b.ip && !a.ip.NoFamily? && a.port == b.port
  }

  /** addr_eq_no_port. */
  predicate AddrEqNoPort(a: Addr, b: Addr) {
    IpEq(a.ip, b.ip)
  }

  predicate IpEq(a: Ip, b: Ip) {
    a == b && !a.NoFamily?
  }
}
