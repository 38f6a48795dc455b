/**
 The CRC-32 of the FINGERPRINT attribute: the table-driven loop against the bit-serial definition
 (ITU-T V.42; reflected, polynomial 0xEDB88320).
 */
module Crc32 {

  const CRCPOLY: bv32 := 0xEDB88320
  const CRC_MASK: bv32 := 0xFFFF_FFFF

  // ---------------------------------------------------------------- bit-serial definition

  /** One bit through the reflected shift register. */
  function Shift(r: bv32): bv32 {
    if r & 1 == 1 then (r >> 1) ^ CRCPOLY else r >> 1
  }

  function Shift8(r: bv32): bv32 {
    Shift(Shift(Shift(Shift(Shift(Shift(Shift(Shift(r))))))))
  }

  /** The message bits in order, each byte from its lowest bit: a bit that differs from the bit leaving the
      register feeds the polynomial back. */
  function Feed(r: bv32, bits: seq<bool>): bv32 {
    if bits == [] then r else FeedBit(Feed(r, bits[..|bits| - 1]), bits[|bits| - 1])
  }

  function FeedBit(r: bv32, bit: bool): bv32 {
    if (r & 1 == 1) != bit then (r >> 1) ^ CRCPOLY else r >> 1
  }

  function BitsOf(c: bv8): (bits: seq<bool>)
    ensures |bits| == 8
  {
    var d := c as bv32;
    [Odd(d), Odd(d >> 1), Odd(d >> 2), Odd(d >> 3), Odd(d >> 4), Odd(d >> 5), Odd(d >> 6), Odd(d >> 7)]
  }

  function AllBits(data: seq<bv8>): seq<bool> {
    if data == [] then [] else AllBits(data[..|data| - 1]) + BitsOf(data[|data| - 1])
  }

  /** The CRC of a byte string, one message bit at a time. */
  function Crc(data: seq<bv8>): bv32 {
    !Feed(CRC_MASK, AllBits(data))
  }

  // ---------------------------------------------------------------- the table

  function Row0(low: bv8): bv32 {
    match low
    case 0x0 => 0x00000000 case 0x1 => 0x77073096 case 0x2 => 0xee0e612c case 0x3 => 0x990951ba
    case 0x4 => 0x076dc419 case 0x5 => 0x706af48f case 0x6 => 0xe963a535 case 0x7 => 0x9e6495a3
    case 0x8 => 0x0edb8832 case 0x9 => 0x79dcb8a4 case 0xa => 0xe0d5e91e case 0xb => 0x97d2d988
    case 0xc => 0x09b64c2b case 0xd => 0x7eb17cbd case 0xe => 0xe7b82d07 case _ => 0x90bf1d91
  }

  function Row1(low: bv8): bv32 {
    match low
    case 0x0 => 0x1db71064 case 0x1 => 0x6ab020f2 case 0x2 => 0xf3b97148 case 0x3 => 0x84be41de
    case 0x4 => 0x1adad47d case 0x5 => 0x6ddde4eb case 0x6 => 0xf4d4b551 case 0x7 => 0x83d385c7
    case 0x8 => 0x136c9856 case 0x9 => 0x646ba8c0 case 0xa => 0xfd62f97a case 0xb => 0x8a65c9ec
    case 0xc => 0x14015c4f case 0xd => 0x63066cd9 case 0xe => 0xfa0f3d63 case _ => 0x8d080df5
  }

  function Row2(low: bv8): bv32 {
    match low
    case 0x0 => 0x3b6e20c8 case 0x1 => 0x4c69105e case 0x2 => 0xd56041e4 case 0x3 => 0xa2677172
    case 0x4 => 0x3c03e4d1 case 0x5 => 0x4b04d447 case 0x6 => 0xd20d85fd case 0x7 => 0xa50ab56b
    case 0x8 => 0x35b5a8fa case 0x9 => 0x42b2986c case 0xa => 0xdbbbc9d6 case 0xb => 0xacbcf940
    case 0xc => 0x32d86ce3 case 0xd => 0x45df5c75 case 0xe => 0xdcd60dcf case _ => 0xabd13d59
  }

  function Row3(low: bv8): bv32 {
    match low
    case 0x0 => 0x26d930ac case 0x1 => 0x51de003a case 0x2 => 0xc8d75180 case 0x3 => 0xbfd06116
    case 0x4 => 0x21b4f4b5 case 0x5 => 0x56b3c423 case 0x6 => 0xcfba9599 case 0x7 => 0xb8bda50f
    case 0x8 => 0x2802b89e case 0x9 => 0x5f058808 case 0xa => 0xc60cd9b2 case 0xb => 0xb10be924
    case 0xc => 0x2f6f7c87 case 0xd => 0x58684c11 case 0xe => 0xc1611dab case _ => 0xb6662d3d
  }

  function Row4(low: bv8): bv32 {
    match low
    case 0x0 => 0x76dc4190 case 0x1 => 0x01db7106 case 0x2 => 0x98d220bc case 0x3 => 0xefd5102a
    case 0x4 => 0x71b18589 case 0x5 => 0x06b6b51f case 0x6 => 0x9fbfe4a5 case 0x7 => 0xe8b8d433
    case 0x8 => 0x7807c9a2 case 0x9 => 0x0f00f934 case 0xa => 0x9609a88e case 0xb => 0xe10e9818
    case 0xc => 0x7f6a0dbb case 0xd => 0x086d3d2d case 0xe => 0x91646c97 case _ => 0xe6635c01
  }

  function Row5(low: bv8): bv32 {
    match low
    case 0x0 => 0x6b6b51f4 case 0x1 => 0x1c6c6162 case 0x2 => 0x856530d8 case 0x3 => 0xf262004e
    case 0x4 => 0x6c0695ed case 0x5 => 0x1b01a57b case 0x6 => 0x8208f4c1 case 0x7 => 0xf50fc457
    case 0x8 => 0x65b0d9c6 case 0x9 => 0x12b7e950 case 0xa => 0x8bbeb8ea case 0xb => 0xfcb9887c
    case 0xc => 0x62dd1ddf case 0xd => 0x15da2d49 case 0xe => 0x8cd37cf3 case _ => 0xfbd44c65
  }

  function Row6(low: bv8): bv32 {
    match low
    case 0x0 => 0x4db26158 case 0x1 => 0x3ab551ce case 0x2 => 0xa3bc0074 case 0x3 => 0xd4bb30e2
    case 0x4 => 0x4adfa541 case 0x5 => 0x3dd895d7 case 0x6 => 0xa4d1c46d case 0x7 => 0xd3d6f4fb
    case 0x8 => 0x4369e96a case 0x9 => 0x346ed9fc case 0xa => 0xad678846 case 0xb => 0xda60b8d0
    case 0xc => 0x44042d73 case 0xd => 0x33031de5 case 0xe => 0xaa0a4c5f case _ => 0xdd0d7cc9
  }

  function Row7(low: bv8): bv32 {
    match low
    case 0x0 => 0x5005713c case 0x1 => 0x270241aa case 0x2 => 0xbe0b1010 case 0x3 => 0xc90c2086
    case 0x4 => 0x5768b525 case 0x5 => 0x206f85b3 case 0x6 => 0xb966d409 case 0x7 => 0xce61e49f
    case 0x8 => 0x5edef90e case 0x9 => 0x29d9c998 case 0xa => 0xb0d09822 case 0xb => 0xc7d7a8b4
    case 0xc => 0x59b33d17 case 0xd => 0x2eb40d81 case 0xe => 0xb7bd5c3b case _ => 0xc0ba6cad
  }

  function Row8(low: bv8): bv32 {
    match low
    case 0x0 => 0xedb88320 case 0x1 => 0x9abfb3b6 case 0x2 => 0x03b6e20c case 0x3 => 0x74b1d29a
    case 0x4 => 0xead54739 case 0x5 => 0x9dd277af case 0x6 => 0x04db2615 case 0x7 => 0x73dc1683
    case 0x8 => 0xe3630b12 case 0x9 => 0x94643b84 case 0xa => 0x0d6d6a3e case 0xb => 0x7a6a5aa8
    case 0xc => 0xe40ecf0b case 0xd => 0x9309ff9d case 0xe => 0x0a00ae27 case _ => 0x7d079eb1
  }

  function Row9(low: bv8): bv32 {
    match low
    case 0x0 => 0xf00f9344 case 0x1 => 0x8708a3d2 case 0x2 => 0x1e01f268 case 0x3 => 0x6906c2fe
    case 0x4 => 0xf762575d case 0x5 => 0x806567cb case 0x6 => 0x196c3671 case 0x7 => 0x6e6b06e7
    case 0x8 => 0xfed41b76 case 0x9 => 0x89d32be0 case 0xa => 0x10da7a5a case 0xb => 0x67dd4acc
    case 0xc => 0xf9b9df6f case 0xd => 0x8ebeeff9 case 0xe => 0x17b7be43 case _ => 0x60b08ed5
  }

  function RowA(low: bv8): bv32 {
    match low
    case 0x0 => 0xd6d6a3e8 case 0x1 => 0xa1d1937e case 0x2 => 0x38d8c2c4 case 0x3 => 0x4fdff252
    case 0x4 => 0xd1bb67f1 case 0x5 => 0xa6bc5767 case 0x6 => 0x3fb506dd case 0x7 => 0x48b2364b
    case 0x8 => 0xd80d2bda case 0x9 => 0xaf0a1b4c case 0xa => 0x36034af6 case 0xb => 0x41047a60
    case 0xc => 0xdf60efc3 case 0xd => 0xa867df55 case 0xe => 0x316e8eef case _ => 0x4669be79
  }

  function RowB(low: bv8): bv32 {
    match low
    case 0x0 => 0xcb61b38c case 0x1 => 0xbc66831a case 0x2 => 0x256fd2a0 case 0x3 => 0x5268e236
    case 0x4 => 0xcc0c7795 case 0x5 => 0xbb0b4703 case 0x6 => 0x220216b9 case 0x7 => 0x5505262f
    case 0x8 => 0xc5ba3bbe case 0x9 => 0xb2bd0b28 case 0xa => 0x2bb45a92 case 0xb => 0x5cb36a04
    case 0xc => 0xc2d7ffa7 case 0xd => 0xb5d0cf31 case 0xe => 0x2cd99e8b case _ => 0x5bdeae1d
  }

  function RowC(low: bv8): bv32 {
    match low
    case 0x0 => 0x9b64c2b0 case 0x1 => 0xec63f226 case 0x2 => 0x756aa39c case 0x3 => 0x026d930a
    case 0x4 => 0x9c0906a9 case 0x5 => 0xeb0e363f case 0x6 => 0x72076785 case 0x7 => 0x05005713
    case 0x8 => 0x95bf4a82 case 0x9 => 0xe2b87a14 case 0xa => 0x7bb12bae case 0xb => 0x0cb61b38
    case 0xc => 0x92d28e9b case 0xd => 0xe5d5be0d case 0xe => 0x7cdcefb7 case _ => 0x0bdbdf21
  }

  function RowD(low: bv8): bv32 {
    match low
    case 0x0 => 0x86d3d2d4 case 0x1 => 0xf1d4e242 case 0x2 => 0x68ddb3f8 case 0x3 => 0x1fda836e
    case 0x4 => 0x81be16cd case 0x5 => 0xf6b9265b case 0x6 => 0x6fb077e1 case 0x7 => 0x18b74777
    case 0x8 => 0x88085ae6 case 0x9 => 0xff0f6a70 case 0xa => 0x66063bca case 0xb => 0x11010b5c
    case 0xc => 0x8f659eff case 0xd => 0xf862ae69 case 0xe => 0x616bffd3 case _ => 0x166ccf45
  }

  function RowE(low: bv8): bv32 {
    match low
    case 0x0 => 0xa00ae278 case 0x1 => 0xd70dd2ee case 0x2 => 0x4e048354 case 0x3 => 0x3903b3c2
    case 0x4 => 0xa7672661 case 0x5 => 0xd06016f7 case 0x6 => 0x4969474d case 0x7 => 0x3e6e77db
    case 0x8 => 0xaed16a4a case 0x9 => 0xd9d65adc case 0xa => 0x40df0b66 case 0xb => 0x37d83bf0
    case 0xc => 0xa9bcae53 case 0xd => 0xdebb9ec5 case 0xe => 0x47b2cf7f case _ => 0x30b5ffe9
  }

  function RowF(low: bv8): bv32 {
    match low
    case 0x0 => 0xbdbdf21c case 0x1 => 0xcabac28a case 0x2 => 0x53b39330 case 0x3 => 0x24b4a3a6
    case 0x4 => 0xbad03605 case 0x5 => 0xcdd70693 case 0x6 => 0x54de5729 case 0x7 => 0x23d967bf
    case 0x8 => 0xb3667a2e case 0x9 => 0xc4614ab8 case 0xa => 0x5d681b02 case 0xb => 0x2a6f2b94
    case 0xc => 0xb40bbe37 case 0xd => 0xc30c8ea1 case 0xe => 0x5a05df1b case _ => 0x2d02ef8d
  }

  /** crctable, row by row as the source spells it out. */
  function Table(i: bv8): bv32 {
    match i >> 4
    case 0x0 => Row0(i & 0xF)
    case 0x1 => Row1(i & 0xF)
    case 0x2 => Row2(i & 0xF)
    case 0x3 => Row3(i & 0xF)
    case 0x4 => Row4(i & 0xF)
    case 0x5 => Row5(i & 0xF)
    case 0x6 => Row6(i & 0xF)
    case 0x7 => Row7(i & 0xF)
    case 0x8 => Row8(i & 0xF)
    case 0x9 => Row9(i & 0xF)
    case 0xa => RowA(i & 0xF)
    case 0xb => RowB(i & 0xF)
    case 0xc => RowC(i & 0xF)
    case 0xd => RowD(i & 0xF)
    case 0xe => RowE(i & 0xF)
    case _ => RowF(i & 0xF)
  }

  lemma Row0IsGenerated(low: bv8)
    requires low < 16
    ensures Row0(low) == Shift8(0x00 ^ low as bv32)
  {
  }

  lemma Row1IsGenerated(low: bv8)
    requires low < 16
    ensures Row1(low) == Shift8(0x10 ^ low as bv32)
  {
  }

  lemma Row2IsGenerated(low: bv8)
    requires low < 16
    ensures Row2(low) == Shift8(0x20 ^ low as bv32)
  {
  }

  lemma Row3IsGenerated(low: bv8)
    requires low < 16
    ensures Row3(low) == Shift8(0x30 ^ low as bv32)
  {
  }

  lemma Row4IsGenerated(low: bv8)
    requires low < 16
    ensures Row4(low) == Shift8(0x40 ^ low as bv32)
  {
  }

  lemma Row5IsGenerated(low: bv8)
    requires low < 16
    ensures Row5(low) == Shift8(0x50 ^ low as bv32)
  {
  }

  lemma Row6IsGenerated(low: bv8)
    requires low < 16
    ensures Row6(low) == Shift8(0x60 ^ low as bv32)
  {
  }

  lemma Row7IsGenerated(low: bv8)
    requires low < 16
    ensures Row7(low) == Shift8(0x70 ^ low as bv32)
  {
  }

  lemma Row8IsGenerated(low: bv8)
    requires low < 16
    ensures Row8(low) == Shift8(0x80 ^ low as bv32)
  {
  }

  lemma Row9IsGenerated(low: bv8)
    requires low < 16
    ensures Row9(low) == Shift8(0x90 ^ low as bv32)
  {
  }

  lemma RowAIsGenerated(low: bv8)
    requires low < 16
    ensures RowA(low) == Shift8(0xA0 ^ low as bv32)
  {
  }

  lemma RowBIsGenerated(low: bv8)
    requires low < 16
    ensures RowB(low) == Shift8(0xB0 ^ low as bv32)
  {
  }

  lemma RowCIsGenerated(low: bv8)
    requires low < 16
    ensures RowC(low) == Shift8(0xC0 ^ low as bv32)
  {
  }

  lemma RowDIsGenerated(low: bv8)
    requires low < 16
    ensures RowD(low) == Shift8(0xD0 ^ low as bv32)
  {
  }

  lemma RowEIsGenerated(low: bv8)
    requires low < 16
    ensures RowE(low) == Shift8(0xE0 ^ low as bv32)
  {
  }

  lemma RowFIsGenerated(low: bv8)
    requires low < 16
    ensures RowF(low) == Shift8(0xF0 ^ low as bv32)
  {
  }

  /** The commented-out generator computes every entry of the table. */
  method MakeEntry(i: bv8) returns (r: bv32)
    ensures r == Table(i)
  {
    hide Table, Shift8;
    r := i as bv32;
    var j := 8;
    while j > 0
      invariant 0 <= j <= 8
      invariant r == Times(i as bv32, 8 - j)
    {
      if r & 1 == 1 {
        r := (r >> 1) ^ CRCPOLY;
      } else {
        r := r >> 1;
      }
      j := j - 1;
    }
    TimesEight(i as bv32);
    TableIsGenerated(i);
  }

  function Times(r: bv32, n: nat): bv32 {
    if n == 0 then r else Shift(Times(r, n - 1))
  }

  lemma TimesEight(r: bv32)
    ensures Times(r, 8) == Shift8(r)
  {
    hide Shift;
    assert Times(r, 1) == Shift(Times(r, 0));
    assert Times(r, 2) == Shift(Times(r, 1));
    assert Times(r, 3) == Shift(Times(r, 2));
    assert Times(r, 4) == Shift(Times(r, 3));
    assert Times(r, 5) == Shift(Times(r, 4));
    assert Times(r, 6) == Shift(Times(r, 5));
    assert Times(r, 7) == Shift(Times(r, 6));
    assert Times(r, 8) == Shift(Times(r, 7));
  }

  lemma TableIsGenerated(i: bv8)
    ensures Table(i) == Shift8(i as bv32)
  {
    hide Shift8, Shift, Row0, Row1, Row2, Row3, Row4, Row5, Row6, Row7;
    hide Row8, Row9, RowA, RowB, RowC, RowD, RowE, RowF;
    var low := i & 0xF;
    Nibbles(i);
    match i >> 4 {
      case 0x0 => Row0IsGenerated(low);
      case 0x1 => Row1IsGenerated(low);
      case 0x2 => Row2IsGenerated(low);
      case 0x3 => Row3IsGenerated(low);
      case 0x4 => Row4IsGenerated(low);
      case 0x5 => Row5IsGenerated(low);
      case 0x6 => Row6IsGenerated(low);
      case 0x7 => Row7IsGenerated(low);
      case 0x8 => Row8IsGenerated(low);
      case 0x9 => Row9IsGenerated(low);
      case 0xa => RowAIsGenerated(low);
      case 0xb => RowBIsGenerated(low);
      case 0xc => RowCIsGenerated(low);
      case 0xd => RowDIsGenerated(low);
      case 0xe => RowEIsGenerated(low);
      case _ => RowFIsGenerated(low);
    }
  }

  /** A byte is its high nibble and its low nibble. */
  lemma Nibbles(i: bv8)
    ensures i & 0xF < 16 && i >> 4 < 16
    ensures i as bv32 == ((i >> 4) as bv32 << 4) ^ ((i & 0xF) as bv32)
  {
  }

  // ---------------------------------------------------------------- the loop

  // Names for the word operations, so that the proofs above the bit level need not look at bits.

  function Xor(a: bv32, b: bv32): bv32 {
    a ^ b
  }

  function Half(d: bv32): bv32 {
    d >> 1
  }

  predicate Odd(d: bv32) {
    d & 1 == 1
  }

  /** Shifting is linear. */
  lemma ShiftXor(a: bv32, b: bv32)
    ensures Shift(Xor(a, b)) == Xor(Shift(a), Shift(b))
  {
    hide Shift, Xor, Odd;
    if Odd(a) && Odd(b) {
      BothOdd(a, b);
    } else if Odd(a) {
      OneOdd(a, b);
    } else if Odd(b) {
      OneOdd(b, a);
      XorCommutes(a, b);
      XorCommutes(Shift(a), Shift(b));
    } else {
      NoneOdd(a, b);
    }
  }

  lemma XorCommutes(a: bv32, b: bv32)
    ensures Xor(a, b) == Xor(b, a)
  {
  }

  lemma OddIs(a: bv32)
    ensures if Odd(a) then a & 1 == 1 else a & 1 == 0
  {
  }

  lemma BothOdd(a: bv32, b: bv32)
    requires Odd(a) && Odd(b)
    ensures Shift(Xor(a, b)) == Xor(Shift(a), Shift(b))
  {
  }

  lemma OneOdd(a: bv32, b: bv32)
    requires Odd(a) && !Odd(b)
    ensures Shift(Xor(a, b)) == Xor(Shift(a), Shift(b))
  {
    hide Shift;
    OddIs(a);
    OddIs(b);
    LowBits(a, b);
  }

  lemma LowBits(a: bv32, b: bv32)
    requires a & 1 == 1 && b & 1 == 0
    ensures Shift(a ^ b) == Shift(a) ^ Shift(b)
  {
  }

  lemma NoneOdd(a: bv32, b: bv32)
    requires !Odd(a) && !Odd(b)
    ensures Shift(Xor(a, b)) == Xor(Shift(a), Shift(b))
  {
  }

  lemma Shift8Xor(a: bv32, b: bv32)
    ensures Shift8(Xor(a, b)) == Xor(Shift8(a), Shift8(b))
  {
    hide Shift, Xor;
    var a1, b1 := Shift(a), Shift(b);
    var a2, b2 := Shift(a1), Shift(b1);
    var a3, b3 := Shift(a2), Shift(b2);
    var a4, b4 := Shift(a3), Shift(b3);
    var a5, b5 := Shift(a4), Shift(b4);
    var a6, b6 := Shift(a5), Shift(b5);
    var a7, b7 := Shift(a6), Shift(b6);
    ShiftXor(a, b);
    ShiftXor(a1, b1);
    ShiftXor(a2, b2);
    ShiftXor(a3, b3);
    ShiftXor(a4, b4);
    ShiftXor(a5, b5);
    ShiftXor(a6, b6);
    ShiftXor(a7, b7);
  }

  function Lift(h: bv32): bv32 {
    h << 8
  }

  /** Bits above the low byte only move down. */
  lemma Shift8High(h: bv32)
    requires h < 0x100_0000
    ensures Shift8(Lift(h)) == h
  {
  }

  /** A message bit may enter at the low end before the shift, with the later ones above it. */
  lemma OneBit(r: bv32, d: bv32)
    requires d < 0x100
    ensures Shift(Xor(r, d)) == Xor(FeedBit(r, Odd(d)), Half(d)) && Half(d) < 0x100
  {
  }

  /** What is left of a byte after k of its bits have been fed. */
  function Rest(c: bv8, k: nat): (d: bv32)
    ensures d < 0x100
  {
    if k == 0 then c as bv32 else HalfOf(Rest(c, k - 1))
  }

  function HalfOf(d: bv32): (h: bv32)
    requires d < 0x100
    ensures h == Half(d) && h < 0x100
  {
    d >> 1
  }

  lemma RestIs(c: bv8)
    ensures var d := c as bv32;
            && Rest(c, 0) == d && Rest(c, 1) == d >> 1 && Rest(c, 2) == d >> 2 && Rest(c, 3) == d >> 3
            && Rest(c, 4) == d >> 4 && Rest(c, 5) == d >> 5 && Rest(c, 6) == d >> 6 && Rest(c, 7) == d >> 7
            && Rest(c, 8) == 0
  {
    hide HalfOf, Half;
    var d := c as bv32;
    HalfIs(d);
    assert Rest(c, 1) == HalfOf(Rest(c, 0));
    assert Rest(c, 2) == HalfOf(Rest(c, 1));
    assert Rest(c, 3) == HalfOf(Rest(c, 2));
    assert Rest(c, 4) == HalfOf(Rest(c, 3));
    assert Rest(c, 5) == HalfOf(Rest(c, 4));
    assert Rest(c, 6) == HalfOf(Rest(c, 5));
    assert Rest(c, 7) == HalfOf(Rest(c, 6));
    assert Rest(c, 8) == HalfOf(Rest(c, 7));
  }

  lemma HalfIs(d: bv32)
    requires d < 0x100
    ensures Half(d) == d >> 1 && Half(d >> 1) == d >> 2 && Half(d >> 2) == d >> 3 && Half(d >> 3) == d >> 4
    ensures Half(d >> 4) == d >> 5 && Half(d >> 5) == d >> 6 && Half(d >> 6) == d >> 7 && Half(d >> 7) == 0
  {
  }

  lemma RestBits(c: bv8, k: nat)
    requires k < 8
    ensures BitsOf(c)[k] <==> Odd(Rest(c, k))
  {
    hide Rest, Odd;
    RestIs(c);
    match k {
      case 0 =>
      case 1 =>
      case 2 =>
      case 3 =>
      case 4 =>
      case 5 =>
      case 6 =>
      case _ => assert k == 7;
    }
  }

  /** Feeding the bits of a byte is shifting the byte through. */
  lemma {:induction false} ByteAtOnce(r: bv32, c: bv8, k: nat)
    requires k <= 8
    ensures Times(Xor(r, c as bv32), k) == Xor(Feed(r, BitsOf(c)[..k]), Rest(c, k))
  {
    hide Shift, FeedBit, BitsOf, Xor, Half, Odd, HalfOf;
    if k > 0 {
      ByteAtOnce(r, c, k - 1);
      RestBits(c, k - 1);
      assert BitsOf(c)[..k][..k - 1] == BitsOf(c)[..k - 1];
      OneBit(Feed(r, BitsOf(c)[..k - 1]), Rest(c, k - 1));
    }
  }

  function Index(crc: bv32, c: bv8): bv8 {
    (crc & 0xFF) as bv8 ^ c
  }

  function High(crc: bv32): bv32 {
    crc >> 8
  }

  /** UPDATE_CRC. */
  function Update(crc: bv32, c: bv8): bv32 {
    Xor(Table(Index(crc, c)), High(crc))
  }

  /** One table step is eight message bits. */
  lemma TableStep(r: bv32, c: bv8)
    ensures Update(r, c) == Feed(r, BitsOf(c))
  {
    hide Update, Shift8, Feed, BitsOf, Xor, Times, Rest;
    UpdateShifts(r, c);
    ByteAtOnce(r, c, 8);
    TimesEight(Xor(r, c as bv32));
    assert BitsOf(c)[..8] == BitsOf(c);
    RestIs(c);
    XorZero(Feed(r, BitsOf(c)));
  }

  lemma XorZero(a: bv32)
    ensures Xor(a, 0) == a
  {
  }

  lemma UpdateShifts(r: bv32, c: bv8)
    ensures Update(r, c) == Shift8(Xor(r, c as bv32))
  {
    hide Table, Shift8, Xor, Index, High, Lift;
    TableIsGenerated(Index(r, c));
    Bytes(r, c);
    Shift8Xor(Index(r, c) as bv32, Lift(High(r)));
    Shift8High(High(r));
  }

  lemma Bytes(r: bv32, c: bv8)
    ensures Xor(Index(r, c) as bv32, Lift(High(r))) == Xor(r, c as bv32)
    ensures High(r) < 0x100_0000
  {
  }

  /** ns_crc32 computes the bit-serial CRC of every byte string. */
  method Compute(buffer: seq<bv8>) returns (r: bv32)
    ensures r == Crc(buffer)
  {
    hide Update, FeedBit, BitsOf;
    var crc := CRC_MASK;
    var i := 0;
    while i < |buffer|
      invariant i <= |buffer|
      invariant crc == Feed(CRC_MASK, AllBits(buffer[..i]))
    {
      TableStep(crc, buffer[i]);
      assert buffer[..i + 1][..i] == buffer[..i];
      FeedConcat(CRC_MASK, AllBits(buffer[..i]), BitsOf(buffer[i]));
      crc := Update(crc, buffer[i]);
      i := i + 1;
    }
    assert buffer[..i] == buffer;
    r := !crc;
  }

  lemma {:induction false} FeedConcat(r: bv32, a: seq<bool>, b: seq<bool>)
    ensures Feed(r, a + b) == Feed(Feed(r, a), b)
  {
    hide FeedBit;
    if b == [] {
      assert a + b == a;
    } else {
      assert (a + b)[..|a + b| - 1] == a + b[..|b| - 1];
      FeedConcat(r, a, b[..|b| - 1]);
    }
  }
}
