/**
The CRC-16 generators of the gateway.

A CRC is specified here as the state of a shift register that consumes the
message one bit at a time, which is polynomial division over GF(2). The
table-driven loops of the gateway are proved to compute that state for every
byte string, and the error-detection guarantees follow from the linearity of
the register.
*/
module Crc {
  import opened Bytes

  // ---------------------------------------------------------------------------
  // Bit-at-a-time division
  // ---------------------------------------------------------------------------

  /** Exclusive or of two words: addition of polynomials of degree below 16. */
  function Xor(a: bv16, b: bv16): bv16 { a ^ b }

  /** The same for bytes. */
  function XorByte(a: bv8, b: bv8): bv8 { a ^ b }

  function Widen(b: bv8): bv16 { b as bv16 }

  /** Bit n of a byte, in the lowest position (the other positions do not matter). */
  function Tap(b: bv8, n: nat): bv16
    requires n < 8
  {
    var w := Widen(b);
    match n
    case 0 => w
    case 1 => w >> 1
    case 2 => w >> 2
    case 3 => w >> 3
    case 4 => w >> 4
    case 5 => w >> 5
    case 6 => w >> 6
    case 7 => w >> 7
  }

  /** One message bit enters the reflected register: feedback into bits 15, 13 and 0. */
  function ReflectedBit(c: bv16, bit: bv16): bv16 {
    var y := (c ^ bit) & 1;
    (c >> 1) ^ y ^ (y << 13) ^ (y << 15)
  }

  /** One message bit enters the forward register: feedback into bits 15, 2 and 0. */
  function ForwardBit(c: bv16, bit: bv16): bv16 {
    var y := ((c >> 15) ^ bit) & 1;
    (c << 1) ^ y ^ (y << 2) ^ (y << 15)
  }

  function ReflectedFeedback(y: bv16): bv16 { y ^ (y << 13) ^ (y << 15) }

  function ForwardFeedback(y: bv16): bv16 { y ^ (y << 2) ^ (y << 15) }

  lemma FeedbackIs(z: bv16)
    ensures ReflectedFeedback(z & 1) == if z & 1 == 1 then 0xA001 else 0
    ensures ForwardFeedback(z & 1) == if z & 1 == 1 then 0x8005 else 0
  {
  }

  lemma FeedbackAdded(c: bv16, y: bv16)
    ensures c ^ y ^ (y << 13) ^ (y << 15) == Xor(c, ReflectedFeedback(y))
    ensures c ^ y ^ (y << 2) ^ (y << 15) == Xor(c, ForwardFeedback(y))
  {
  }

  /** A bit that differs from the outgoing one subtracts the polynomial 0xA001. */
  lemma ReflectedTaps(c: bv16, bit: bv16)
    ensures ReflectedBit(c, bit) == Xor(c >> 1, if (c ^ bit) & 1 == 1 then 0xA001 else 0)
  {
    hide Xor, ReflectedFeedback;
    FeedbackIs(c ^ bit);
    FeedbackAdded(c >> 1, (c ^ bit) & 1);
  }

  /** A bit that differs from the outgoing one subtracts the polynomial 0x8005. */
  lemma ForwardTaps(c: bv16, bit: bv16)
    ensures ForwardBit(c, bit) == Xor(c << 1, if ((c >> 15) ^ bit) & 1 == 1 then 0x8005 else 0)
  {
    hide Xor, ForwardFeedback;
    FeedbackIs((c >> 15) ^ bit);
    FeedbackAdded(c << 1, ((c >> 15) ^ bit) & 1);
  }

  /** A whole byte, low bit first. */
  function ReflectedByte(c: bv16, b: bv8): bv16 {
    ReflectedBit(ReflectedBit(ReflectedBit(ReflectedBit(
      ReflectedBit(ReflectedBit(ReflectedBit(ReflectedBit(c,
        Tap(b, 0)), Tap(b, 1)), Tap(b, 2)), Tap(b, 3)), Tap(b, 4)), Tap(b, 5)), Tap(b, 6)), Tap(b, 7))
  }

  /** A whole byte, high bit first. */
  function ForwardByte(c: bv16, b: bv8): bv16 {
    ForwardBit(ForwardBit(ForwardBit(ForwardBit(
      ForwardBit(ForwardBit(ForwardBit(ForwardBit(c,
        Tap(b, 7)), Tap(b, 6)), Tap(b, 5)), Tap(b, 4)), Tap(b, 3)), Tap(b, 2)), Tap(b, 1)), Tap(b, 0))
  }

  /** The reflected register after a whole message, starting from c. */
  function ReflectedCrc(c: bv16, s: seq<bv8>): bv16
    decreases |s|
  {
    if s == [] then c else ReflectedCrc(ReflectedByte(c, s[0]), s[1..])
  }

  /** The forward register after a whole message, starting from c. */
  function ForwardCrc(c: bv16, s: seq<bv8>): bv16
    decreases |s|
  {
    if s == [] then c else ForwardCrc(ForwardByte(c, s[0]), s[1..])
  }

  // ---------------------------------------------------------------------------
  // The register is linear
  // ---------------------------------------------------------------------------

  lemma WidenXor(a: bv8, b: bv8)
    ensures Widen(XorByte(a, b)) == Xor(Widen(a), Widen(b))
  {
  }

  function Half(w: bv16): bv16 { w >> 1 }

  lemma HalfXor(v: bv16, w: bv16)
    ensures Half(Xor(v, w)) == Xor(Half(v), Half(w))
  {
  }

  lemma HalfTap(b: bv8, n: nat)
    requires n < 7
    ensures Tap(b, n + 1) == Half(Tap(b, n))
  {
    hide Widen;
  }

  lemma TapXor(a: bv8, b: bv8, n: nat)
    requires n < 8
    ensures Tap(XorByte(a, b), n) == Xor(Tap(a, n), Tap(b, n))
  {
    hide Xor, XorByte, Half;
    if n == 0 {
      WidenXor(a, b);
    } else {
      hide Tap;
      TapXor(a, b, n - 1);
      HalfTap(a, n - 1);
      HalfTap(b, n - 1);
      HalfTap(XorByte(a, b), n - 1);
      HalfXor(Tap(a, n - 1), Tap(b, n - 1));
    }
  }

  lemma ReflectedBitLinear(c: bv16, d: bv16, a: bv16, b: bv16)
    ensures ReflectedBit(Xor(c, d), Xor(a, b)) == Xor(ReflectedBit(c, a), ReflectedBit(d, b))
  {
  }

  lemma ForwardBitLinear(c: bv16, d: bv16, a: bv16, b: bv16)
    ensures ForwardBit(Xor(c, d), Xor(a, b)) == Xor(ForwardBit(c, a), ForwardBit(d, b))
  {
  }

  lemma ReflectedTapLinear(c: bv16, d: bv16, a: bv8, b: bv8, n: nat)
    requires n < 8
    ensures ReflectedBit(Xor(c, d), Tap(XorByte(a, b), n))
         == Xor(ReflectedBit(c, Tap(a, n)), ReflectedBit(d, Tap(b, n)))
  {
    hide ReflectedBit, ForwardBit, Xor, XorByte, Tap;
    TapXor(a, b, n);
    ReflectedBitLinear(c, d, Tap(a, n), Tap(b, n));
  }

  lemma ForwardTapLinear(c: bv16, d: bv16, a: bv8, b: bv8, n: nat)
    requires n < 8
    ensures ForwardBit(Xor(c, d), Tap(XorByte(a, b), n)) == Xor(ForwardBit(c, Tap(a, n)), ForwardBit(d, Tap(b, n)))
  {
    hide ReflectedBit, ForwardBit, Xor, XorByte, Tap;
    TapXor(a, b, n);
    ForwardBitLinear(c, d, Tap(a, n), Tap(b, n));
  }

  lemma ReflectedByteLinear(c: bv16, d: bv16, a: bv8, b: bv8)
    ensures ReflectedByte(Xor(c, d), XorByte(a, b)) == Xor(ReflectedByte(c, a), ReflectedByte(d, b))
  {
    hide ReflectedBit, Xor, XorByte, Tap;
    var c0, d0 := c, d;
    var c1, d1 := ReflectedBit(c0, Tap(a, 0)), ReflectedBit(d0, Tap(b, 0));  ReflectedTapLinear(c0, d0, a, b, 0);
    var c2, d2 := ReflectedBit(c1, Tap(a, 1)), ReflectedBit(d1, Tap(b, 1));  ReflectedTapLinear(c1, d1, a, b, 1);
    var c3, d3 := ReflectedBit(c2, Tap(a, 2)), ReflectedBit(d2, Tap(b, 2));  ReflectedTapLinear(c2, d2, a, b, 2);
    var c4, d4 := ReflectedBit(c3, Tap(a, 3)), ReflectedBit(d3, Tap(b, 3));  ReflectedTapLinear(c3, d3, a, b, 3);
    var c5, d5 := ReflectedBit(c4, Tap(a, 4)), ReflectedBit(d4, Tap(b, 4));  ReflectedTapLinear(c4, d4, a, b, 4);
    var c6, d6 := ReflectedBit(c5, Tap(a, 5)), ReflectedBit(d5, Tap(b, 5));  ReflectedTapLinear(c5, d5, a, b, 5);
    var c7, d7 := ReflectedBit(c6, Tap(a, 6)), ReflectedBit(d6, Tap(b, 6));  ReflectedTapLinear(c6, d6, a, b, 6);
    ReflectedTapLinear(c7, d7, a, b, 7);
  }

  lemma ForwardByteLinear(c: bv16, d: bv16, a: bv8, b: bv8)
    ensures ForwardByte(Xor(c, d), XorByte(a, b)) == Xor(ForwardByte(c, a), ForwardByte(d, b))
  {
    hide ForwardBit, Xor, XorByte, Tap;
    var c0, d0 := c, d;
    var c1, d1 := ForwardBit(c0, Tap(a, 7)), ForwardBit(d0, Tap(b, 7));  ForwardTapLinear(c0, d0, a, b, 7);
    var c2, d2 := ForwardBit(c1, Tap(a, 6)), ForwardBit(d1, Tap(b, 6));  ForwardTapLinear(c1, d1, a, b, 6);
    var c3, d3 := ForwardBit(c2, Tap(a, 5)), ForwardBit(d2, Tap(b, 5));  ForwardTapLinear(c2, d2, a, b, 5);
    var c4, d4 := ForwardBit(c3, Tap(a, 4)), ForwardBit(d3, Tap(b, 4));  ForwardTapLinear(c3, d3, a, b, 4);
    var c5, d5 := ForwardBit(c4, Tap(a, 3)), ForwardBit(d4, Tap(b, 3));  ForwardTapLinear(c4, d4, a, b, 3);
    var c6, d6 := ForwardBit(c5, Tap(a, 2)), ForwardBit(d5, Tap(b, 2));  ForwardTapLinear(c5, d5, a, b, 2);
    var c7, d7 := ForwardBit(c6, Tap(a, 1)), ForwardBit(d6, Tap(b, 1));  ForwardTapLinear(c6, d6, a, b, 1);
    ForwardTapLinear(c7, d7, a, b, 0);
  }

  // ---------------------------------------------------------------------------
  // The lookup tables
  // ---------------------------------------------------------------------------

  /** `crc16_table`, row by row. */
  function ReflectedTable(i: bv8): bv16 {
    match i >> 4
    case 0 => (match i & 15
      case  0 => 0x0000 case  1 => 0xC0C1 case  2 => 0xC181 case  3 => 0x0140
      case  4 => 0xC301 case  5 => 0x03C0 case  6 => 0x0280 case  7 => 0xC241
      case  8 => 0xC601 case  9 => 0x06C0 case 10 => 0x0780 case 11 => 0xC741
      case 12 => 0x0500 case 13 => 0xC5C1 case 14 => 0xC481 case _ => 0x0440)
    case 1 => (match i & 15
      case  0 => 0xCC01 case  1 => 0x0CC0 case  2 => 0x0D80 case  3 => 0xCD41
      case  4 => 0x0F00 case  5 => 0xCFC1 case  6 => 0xCE81 case  7 => 0x0E40
      case  8 => 0x0A00 case  9 => 0xCAC1 case 10 => 0xCB81 case 11 => 0x0B40
      case 12 => 0xC901 case 13 => 0x09C0 case 14 => 0x0880 case _ => 0xC841)
    case 2 => (match i & 15
      case  0 => 0xD801 case  1 => 0x18C0 case  2 => 0x1980 case  3 => 0xD941
      case  4 => 0x1B00 case  5 => 0xDBC1 case  6 => 0xDA81 case  7 => 0x1A40
      case  8 => 0x1E00 case  9 => 0xDEC1 case 10 => 0xDF81 case 11 => 0x1F40
      case 12 => 0xDD01 case 13 => 0x1DC0 case 14 => 0x1C80 case _ => 0xDC41)
    case 3 => (match i & 15
      case  0 => 0x1400 case  1 => 0xD4C1 case  2 => 0xD581 case  3 => 0x1540
      case  4 => 0xD701 case  5 => 0x17C0 case  6 => 0x1680 case  7 => 0xD641
      case  8 => 0xD201 case  9 => 0x12C0 case 10 => 0x1380 case 11 => 0xD341
      case 12 => 0x1100 case 13 => 0xD1C1 case 14 => 0xD081 case _ => 0x1040)
    case 4 => (match i & 15
      case  0 => 0xF001 case  1 => 0x30C0 case  2 => 0x3180 case  3 => 0xF141
      case  4 => 0x3300 case  5 => 0xF3C1 case  6 => 0xF281 case  7 => 0x3240
      case  8 => 0x3600 case  9 => 0xF6C1 case 10 => 0xF781 case 11 => 0x3740
      case 12 => 0xF501 case 13 => 0x35C0 case 14 => 0x3480 case _ => 0xF441)
    case 5 => (match i & 15
      case  0 => 0x3C00 case  1 => 0xFCC1 case  2 => 0xFD81 case  3 => 0x3D40
      case  4 => 0xFF01 case  5 => 0x3FC0 case  6 => 0x3E80 case  7 => 0xFE41
      case  8 => 0xFA01 case  9 => 0x3AC0 case 10 => 0x3B80 case 11 => 0xFB41
      case 12 => 0x3900 case 13 => 0xF9C1 case 14 => 0xF881 case _ => 0x3840)
    case 6 => (match i & 15
      case  0 => 0x2800 case  1 => 0xE8C1 case  2 => 0xE981 case  3 => 0x2940
      case  4 => 0xEB01 case  5 => 0x2BC0 case  6 => 0x2A80 case  7 => 0xEA41
      case  8 => 0xEE01 case  9 => 0x2EC0 case 10 => 0x2F80 case 11 => 0xEF41
      case 12 => 0x2D00 case 13 => 0xEDC1 case 14 => 0xEC81 case _ => 0x2C40)
    case 7 => (match i & 15
      case  0 => 0xE401 case  1 => 0x24C0 case  2 => 0x2580 case  3 => 0xE541
      case  4 => 0x2700 case  5 => 0xE7C1 case  6 => 0xE681 case  7 => 0x2640
      case  8 => 0x2200 case  9 => 0xE2C1 case 10 => 0xE381 case 11 => 0x2340
      case 12 => 0xE101 case 13 => 0x21C0 case 14 => 0x2080 case _ => 0xE041)
    case 8 => (match i & 15
      case  0 => 0xA001 case  1 => 0x60C0 case  2 => 0x6180 case  3 => 0xA141
      case  4 => 0x6300 case  5 => 0xA3C1 case  6 => 0xA281 case  7 => 0x6240
      case  8 => 0x6600 case  9 => 0xA6C1 case 10 => 0xA781 case 11 => 0x6740
      case 12 => 0xA501 case 13 => 0x65C0 case 14 => 0x6480 case _ => 0xA441)
    case 9 => (match i & 15
      case  0 => 0x6C00 case  1 => 0xACC1 case  2 => 0xAD81 case  3 => 0x6D40
      case  4 => 0xAF01 case  5 => 0x6FC0 case  6 => 0x6E80 case  7 => 0xAE41
      case  8 => 0xAA01 case  9 => 0x6AC0 case 10 => 0x6B80 case 11 => 0xAB41
      case 12 => 0x6900 case 13 => 0xA9C1 case 14 => 0xA881 case _ => 0x6840)
    case 10 => (match i & 15
      case  0 => 0x7800 case  1 => 0xB8C1 case  2 => 0xB981 case  3 => 0x7940
      case  4 => 0xBB01 case  5 => 0x7BC0 case  6 => 0x7A80 case  7 => 0xBA41
      case  8 => 0xBE01 case  9 => 0x7EC0 case 10 => 0x7F80 case 11 => 0xBF41
      case 12 => 0x7D00 case 13 => 0xBDC1 case 14 => 0xBC81 case _ => 0x7C40)
    case 11 => (match i & 15
      case  0 => 0xB401 case  1 => 0x74C0 case  2 => 0x7580 case  3 => 0xB541
      case  4 => 0x7700 case  5 => 0xB7C1 case  6 => 0xB681 case  7 => 0x7640
      case  8 => 0x7200 case  9 => 0xB2C1 case 10 => 0xB381 case 11 => 0x7340
      case 12 => 0xB101 case 13 => 0x71C0 case 14 => 0x7080 case _ => 0xB041)
    case 12 => (match i & 15
      case  0 => 0x5000 case  1 => 0x90C1 case  2 => 0x9181 case  3 => 0x5140
      case  4 => 0x9301 case  5 => 0x53C0 case  6 => 0x5280 case  7 => 0x9241
      case  8 => 0x9601 case  9 => 0x56C0 case 10 => 0x5780 case 11 => 0x9741
      case 12 => 0x5500 case 13 => 0x95C1 case 14 => 0x9481 case _ => 0x5440)
    case 13 => (match i & 15
      case  0 => 0x9C01 case  1 => 0x5CC0 case  2 => 0x5D80 case  3 => 0x9D41
      case  4 => 0x5F00 case  5 => 0x9FC1 case  6 => 0x9E81 case  7 => 0x5E40
      case  8 => 0x5A00 case  9 => 0x9AC1 case 10 => 0x9B81 case 11 => 0x5B40
      case 12 => 0x9901 case 13 => 0x59C0 case 14 => 0x5880 case _ => 0x9841)
    case 14 => (match i & 15
      case  0 => 0x8801 case  1 => 0x48C0 case  2 => 0x4980 case  3 => 0x8941
      case  4 => 0x4B00 case  5 => 0x8BC1 case  6 => 0x8A81 case  7 => 0x4A40
      case  8 => 0x4E00 case  9 => 0x8EC1 case 10 => 0x8F81 case 11 => 0x4F40
      case 12 => 0x8D01 case 13 => 0x4DC0 case 14 => 0x4C80 case _ => 0x8C41)
    case _ => (match i & 15
      case  0 => 0x4400 case  1 => 0x84C1 case  2 => 0x8581 case  3 => 0x4540
      case  4 => 0x8701 case  5 => 0x47C0 case  6 => 0x4680 case  7 => 0x8641
      case  8 => 0x8201 case  9 => 0x42C0 case 10 => 0x4380 case 11 => 0x8341
      case 12 => 0x4100 case 13 => 0x81C1 case 14 => 0x8081 case _ => 0x4040)
  }

  /** `pCRC16Table`, row by row. */
  function ForwardTable(i: bv8): bv16 {
    match i >> 4
    case 0 => (match i & 15
      case  0 => 0x0000 case  1 => 0x8005 case  2 => 0x800F case  3 => 0x000A
      case  4 => 0x801B case  5 => 0x001E case  6 => 0x0014 case  7 => 0x8011
      case  8 => 0x8033 case  9 => 0x0036 case 10 => 0x003C case 11 => 0x8039
      case 12 => 0x0028 case 13 => 0x802D case 14 => 0x8027 case _ => 0x0022)
    case 1 => (match i & 15
      case  0 => 0x8063 case  1 => 0x0066 case  2 => 0x006C case  3 => 0x8069
      case  4 => 0x0078 case  5 => 0x807D case  6 => 0x8077 case  7 => 0x0072
      case  8 => 0x0050 case  9 => 0x8055 case 10 => 0x805F case 11 => 0x005A
      case 12 => 0x804B case 13 => 0x004E case 14 => 0x0044 case _ => 0x8041)
    case 2 => (match i & 15
      case  0 => 0x80C3 case  1 => 0x00C6 case  2 => 0x00CC case  3 => 0x80C9
      case  4 => 0x00D8 case  5 => 0x80DD case  6 => 0x80D7 case  7 => 0x00D2
      case  8 => 0x00F0 case  9 => 0x80F5 case 10 => 0x80FF case 11 => 0x00FA
      case 12 => 0x80EB case 13 => 0x00EE case 14 => 0x00E4 case _ => 0x80E1)
    case 3 => (match i & 15
      case  0 => 0x00A0 case  1 => 0x80A5 case  2 => 0x80AF case  3 => 0x00AA
      case  4 => 0x80BB case  5 => 0x00BE case  6 => 0x00B4 case  7 => 0x80B1
      case  8 => 0x8093 case  9 => 0x0096 case 10 => 0x009C case 11 => 0x8099
      case 12 => 0x0088 case 13 => 0x808D case 14 => 0x8087 case _ => 0x0082)
    case 4 => (match i & 15
      case  0 => 0x8183 case  1 => 0x0186 case  2 => 0x018C case  3 => 0x8189
      case  4 => 0x0198 case  5 => 0x819D case  6 => 0x8197 case  7 => 0x0192
      case  8 => 0x01B0 case  9 => 0x81B5 case 10 => 0x81BF case 11 => 0x01BA
      case 12 => 0x81AB case 13 => 0x01AE case 14 => 0x01A4 case _ => 0x81A1)
    case 5 => (match i & 15
      case  0 => 0x01E0 case  1 => 0x81E5 case  2 => 0x81EF case  3 => 0x01EA
      case  4 => 0x81FB case  5 => 0x01FE case  6 => 0x01F4 case  7 => 0x81F1
      case  8 => 0x81D3 case  9 => 0x01D6 case 10 => 0x01DC case 11 => 0x81D9
      case 12 => 0x01C8 case 13 => 0x81CD case 14 => 0x81C7 case _ => 0x01C2)
    case 6 => (match i & 15
      case  0 => 0x0140 case  1 => 0x8145 case  2 => 0x814F case  3 => 0x014A
      case  4 => 0x815B case  5 => 0x015E case  6 => 0x0154 case  7 => 0x8151
      case  8 => 0x8173 case  9 => 0x0176 case 10 => 0x017C case 11 => 0x8179
      case 12 => 0x0168 case 13 => 0x816D case 14 => 0x8167 case _ => 0x0162)
    case 7 => (match i & 15
      case  0 => 0x8123 case  1 => 0x0126 case  2 => 0x012C case  3 => 0x8129
      case  4 => 0x0138 case  5 => 0x813D case  6 => 0x8137 case  7 => 0x0132
      case  8 => 0x0110 case  9 => 0x8115 case 10 => 0x811F case 11 => 0x011A
      case 12 => 0x810B case 13 => 0x010E case 14 => 0x0104 case _ => 0x8101)
    case 8 => (match i & 15
      case  0 => 0x8303 case  1 => 0x0306 case  2 => 0x030C case  3 => 0x8309
      case  4 => 0x0318 case  5 => 0x831D case  6 => 0x8317 case  7 => 0x0312
      case  8 => 0x0330 case  9 => 0x8335 case 10 => 0x833F case 11 => 0x033A
      case 12 => 0x832B case 13 => 0x032E case 14 => 0x0324 case _ => 0x8321)
    case 9 => (match i & 15
      case  0 => 0x0360 case  1 => 0x8365 case  2 => 0x836F case  3 => 0x036A
      case  4 => 0x837B case  5 => 0x037E case  6 => 0x0374 case  7 => 0x8371
      case  8 => 0x8353 case  9 => 0x0356 case 10 => 0x035C case 11 => 0x8359
      case 12 => 0x0348 case 13 => 0x834D case 14 => 0x8347 case _ => 0x0342)
    case 10 => (match i & 15
      case  0 => 0x03C0 case  1 => 0x83C5 case  2 => 0x83CF case  3 => 0x03CA
      case  4 => 0x83DB case  5 => 0x03DE case  6 => 0x03D4 case  7 => 0x83D1
      case  8 => 0x83F3 case  9 => 0x03F6 case 10 => 0x03FC case 11 => 0x83F9
      case 12 => 0x03E8 case 13 => 0x83ED case 14 => 0x83E7 case _ => 0x03E2)
    case 11 => (match i & 15
      case  0 => 0x83A3 case  1 => 0x03A6 case  2 => 0x03AC case  3 => 0x83A9
      case  4 => 0x03B8 case  5 => 0x83BD case  6 => 0x83B7 case  7 => 0x03B2
      case  8 => 0x0390 case  9 => 0x8395 case 10 => 0x839F case 11 => 0x039A
      case 12 => 0x838B case 13 => 0x038E case 14 => 0x0384 case _ => 0x8381)
    case 12 => (match i & 15
      case  0 => 0x0280 case  1 => 0x8285 case  2 => 0x828F case  3 => 0x028A
      case  4 => 0x829B case  5 => 0x029E case  6 => 0x0294 case  7 => 0x8291
      case  8 => 0x82B3 case  9 => 0x02B6 case 10 => 0x02BC case 11 => 0x82B9
      case 12 => 0x02A8 case 13 => 0x82AD case 14 => 0x82A7 case _ => 0x02A2)
    case 13 => (match i & 15
      case  0 => 0x82E3 case  1 => 0x02E6 case  2 => 0x02EC case  3 => 0x82E9
      case  4 => 0x02F8 case  5 => 0x82FD case  6 => 0x82F7 case  7 => 0x02F2
      case  8 => 0x02D0 case  9 => 0x82D5 case 10 => 0x82DF case 11 => 0x02DA
      case 12 => 0x82CB case 13 => 0x02CE case 14 => 0x02C4 case _ => 0x82C1)
    case 14 => (match i & 15
      case  0 => 0x8243 case  1 => 0x0246 case  2 => 0x024C case  3 => 0x8249
      case  4 => 0x0258 case  5 => 0x825D case  6 => 0x8257 case  7 => 0x0252
      case  8 => 0x0270 case  9 => 0x8275 case 10 => 0x827F case 11 => 0x027A
      case 12 => 0x826B case 13 => 0x026E case 14 => 0x0264 case _ => 0x8261)
    case _ => (match i & 15
      case  0 => 0x0220 case  1 => 0x8225 case  2 => 0x822F case  3 => 0x022A
      case  4 => 0x823B case  5 => 0x023E case  6 => 0x0234 case  7 => 0x8231
      case  8 => 0x8213 case  9 => 0x0216 case 10 => 0x021C case 11 => 0x8219
      case 12 => 0x0208 case 13 => 0x820D case 14 => 0x8207 case _ => 0x0202)
  }

  function Low(c: bv16): bv8 { (c & 0xFF) as bv8 }

  function High(c: bv16): bv8 { (c >> 8) as bv8 }

  /** The word lo + 256 * hi. */
  function Join(lo: bv8, hi: bv8): bv16 { (lo as bv16) + ((hi as bv16) << 8) }

  lemma ReflectedTableZero()
    ensures ReflectedTable(0) == ReflectedByte(0, 0)
  {
  }

  lemma ReflectedTableNonzero(i: bv8)
    requires i != 0
    ensures ReflectedTable(i) == ReflectedByte(0, i)
  {
  }

  /** Every entry of the reflected table stands for eight steps of the register. */
  lemma ReflectedTableEntry(i: bv8)
    ensures ReflectedTable(i) == ReflectedByte(0, i)
  {
    hide ReflectedTable, ReflectedByte;
    if i == 0 {
      ReflectedTableZero();
    } else {
      ReflectedTableNonzero(i);
    }
  }

  lemma ForwardTableZero()
    ensures ForwardTable(0) == ForwardByte(0, 0)
  {
  }

  lemma ForwardTableNonzero(i: bv8)
    requires i != 0
    ensures ForwardTable(i) == ForwardByte(0, i)
  {
  }

  /** Every entry of the forward table stands for eight steps of the register. */
  lemma ForwardTableEntry(i: bv8)
    ensures ForwardTable(i) == ForwardByte(0, i)
  {
    hide ForwardTable, ForwardByte;
    if i == 0 {
      ForwardTableZero();
    } else {
      ForwardTableNonzero(i);
    }
  }

  lemma ReflectedHalves(l: bv8, h: bv8)
    ensures ReflectedByte(Join(0, h), 0) == Join(h, 0)
    ensures ReflectedByte(Join(l, 0), l) == 0
  {
  }

  lemma ForwardHalves(l: bv8, h: bv8)
    ensures ForwardByte(Join(l, 0), 0) == Join(0, l)
    ensures ForwardByte(Join(0, h), h) == 0
  {
  }

  /** How a word is made of its two bytes, and the laws of exclusive or that are used below. */
  lemma JoinFacts(c: bv16, b: bv8)
    ensures c == Join(Low(c), High(c))
    ensures Xor(Join(0, High(c)), Join(Low(c), 0)) == c && Xor(Join(Low(c), 0), Join(0, High(c))) == c
    ensures Join(High(c), 0) == c >> 8 && Join(0, Low(c)) == c << 8
    ensures Xor(c, 0) == c && Xor(0, c) == c
    ensures XorByte(0, b) == b && XorByte(b, 0) == b
  {
  }

  lemma ByteCancel(a: bv8, b: bv8)
    ensures XorByte(XorByte(b, a), a) == b && XorByte(a, XorByte(a, b)) == b
    ensures XorByte(a, b) == 0 <==> a == b
  {
  }

  /** Shifting by a byte and adding one table entry is eight steps of the register. */
  lemma ReflectedTableStep(c: bv16, b: bv8)
    ensures ReflectedByte(c, b) == Xor(Join(High(c), 0), ReflectedTable(XorByte(b, Low(c))))
  {
    hide ReflectedByte, ReflectedTable, Xor, XorByte, Low, High, Join;
    var l, h := Low(c), High(c);
    JoinFacts(c, b);
    JoinFacts(Join(l, 0), b);
    ReflectedHalves(l, h);
    ReflectedByteLinear(Join(0, h), Join(l, 0), 0, b);
    ByteCancel(l, b);
    ReflectedByteLinear(0, Join(l, 0), XorByte(b, l), l);
    JoinFacts(ReflectedByte(0, XorByte(b, l)), b);
    ReflectedTableEntry(XorByte(b, l));
  }

  lemma ForwardTableStep(c: bv16, b: bv8)
    ensures ForwardByte(c, b) == Xor(Join(0, Low(c)), ForwardTable(XorByte(b, High(c))))
  {
    hide ForwardByte, ForwardTable, Xor, XorByte, Low, High, Join;
    var l, h := Low(c), High(c);
    JoinFacts(c, b);
    JoinFacts(Join(0, h), b);
    ForwardHalves(l, h);
    ForwardByteLinear(Join(l, 0), Join(0, h), 0, b);
    ByteCancel(h, b);
    ForwardByteLinear(0, Join(0, h), XorByte(b, h), h);
    JoinFacts(ForwardByte(0, XorByte(b, h)), b);
    ForwardTableEntry(XorByte(b, h));
  }

  // ---------------------------------------------------------------------------
  // The loops of the gateway
  // ---------------------------------------------------------------------------

  lemma {:induction false} ReflectedAppend(c: bv16, s: seq<bv8>, t: seq<bv8>)
    ensures ReflectedCrc(c, s + t) == ReflectedCrc(ReflectedCrc(c, s), t)
    decreases |s|
  {
    hide ReflectedByte;
    if s == [] {
      assert s + t == t;
    } else {
      assert (s + t)[1..] == s[1..] + t;
      ReflectedAppend(ReflectedByte(c, s[0]), s[1..], t);
    }
  }

  lemma {:induction false} ForwardAppend(c: bv16, s: seq<bv8>, t: seq<bv8>)
    ensures ForwardCrc(c, s + t) == ForwardCrc(ForwardCrc(c, s), t)
    decreases |s|
  {
    hide ForwardByte;
    if s == [] {
      assert s + t == t;
    } else {
      assert (s + t)[1..] == s[1..] + t;
      ForwardAppend(ForwardByte(c, s[0]), s[1..], t);
    }
  }

  lemma ReflectedSnoc(c: bv16, s: seq<bv8>, b: bv8)
    ensures ReflectedCrc(c, s + [b]) == ReflectedByte(ReflectedCrc(c, s), b)
  {
    hide ReflectedByte;
    ReflectedAppend(c, s, [b]);
    assert [b][1..] == [];
  }

  lemma ForwardSnoc(c: bv16, s: seq<bv8>, b: bv8)
    ensures ForwardCrc(c, s + [b]) == ForwardByte(ForwardCrc(c, s), b)
  {
    hide ForwardByte;
    ForwardAppend(c, s, [b]);
    assert [b][1..] == [];
  }

  /** One turn of the reflected table loop. */
  lemma ReflectedTurn(s: seq<bv8>, i: nat)
    requires i < |s|
    ensures var crc := ReflectedCrc(0xFFFF, s[..i]);
            ReflectedCrc(0xFFFF, s[..i + 1]) == Xor(crc >> 8, ReflectedTable(XorByte(s[i], Low(crc))))
  {
    hide ReflectedByte, ReflectedTable, ReflectedCrc, Low, Xor, XorByte, Join;
    assert s[..i + 1] == s[..i] + [s[i]];
    ReflectedSnoc(0xFFFF, s[..i], s[i]);
    ReflectedTableStep(ReflectedCrc(0xFFFF, s[..i]), s[i]);
    JoinFacts(ReflectedCrc(0xFFFF, s[..i]), s[i]);
  }

  /** One turn of the forward table loop. */
  lemma ForwardTurn(s: seq<bv8>, i: nat)
    requires i < |s|
    ensures var crc := ForwardCrc(0, s[..i]);
            ForwardCrc(0, s[..i + 1]) == Xor(crc << 8, ForwardTable(XorByte(s[i], High(crc))))
  {
    hide ForwardByte, ForwardTable, ForwardCrc, High, Xor, XorByte, Join;
    assert s[..i + 1] == s[..i] + [s[i]];
    ForwardSnoc(0, s[..i], s[i]);
    ForwardTableStep(ForwardCrc(0, s[..i]), s[i]);
    JoinFacts(ForwardCrc(0, s[..i]), s[i]);
  }

  /** `modbus::crc16` */
  method Crc16(data: array<bv8>, len: nat) returns (crc: bv16)
    requires len <= data.Length
    ensures crc == ReflectedCrc(0xFFFF, data[..len])
  {
    hide ReflectedByte, ReflectedTable, Low, Xor, XorByte;
    crc := 0xFFFF;
    for i := 0 to len
      invariant crc == ReflectedCrc(0xFFFF, data[..i])
    {
      ReflectedTurn(data[..], i);
      assert data[..][..i] == data[..i] && data[..][..i + 1] == data[..i + 1];
      var temp := XorByte(data[i], Low(crc));
      crc := crc >> 8;
      crc := Xor(crc, ReflectedTable(temp));
    }
  }

  /** The second copy of the same generator, whose length and loop counter are 16-bit words. */
  method Crc16ShortCounter(data: array<bv8>, len: nat) returns (crc: bv16)
    requires len <= data.Length && len < 0x1_0000
    ensures crc == ReflectedCrc(0xFFFF, data[..len])
  {
    hide ReflectedByte, ReflectedTable, Low, Xor, XorByte;
    crc := 0xFFFF;
    var i := 0;
    while i < len
      invariant 0 <= i <= len
      invariant crc == ReflectedCrc(0xFFFF, data[..i])
    {
      ReflectedTurn(data[..], i);
      assert data[..][..i] == data[..i] && data[..][..i + 1] == data[..i + 1];
      var temp := XorByte(data[i], Low(crc));
      crc := crc >> 8;
      crc := Xor(crc, ReflectedTable(temp));
      i := (i + 1) % 0x1_0000;
    }
  }

  /** `Compute_CRC16` */
  method ComputeCrc16(data: array<bv8>, len: nat) returns (crc: bv16)
    requires len <= data.Length
    ensures crc == ForwardCrc(0, data[..len])
  {
    hide ForwardByte, ForwardTable, High, Xor, XorByte;
    crc := 0;
    for i := 0 to len
      invariant crc == ForwardCrc(0, data[..i])
    {
      ForwardTurn(data[..], i);
      assert data[..][..i] == data[..i] && data[..][..i + 1] == data[..i + 1];
      var pos := XorByte(data[i], High(crc));
      crc := Xor(crc << 8, ForwardTable(pos));
    }
  }

  // ---------------------------------------------------------------------------
  // Residue: a message followed by its CRC divides evenly, and by nothing else
  // ---------------------------------------------------------------------------

  lemma ByteZero(c: bv16)
    ensures ReflectedByte(c, 0) == 0 <==> c == 0
    ensures ForwardByte(c, 0) == 0 <==> c == 0
  {
  }

  lemma XorFacts(c: bv16, d: bv16)
    ensures Xor(c, 0) == c && Xor(0, c) == c
    ensures Xor(d, Xor(c, d)) == c
    ensures Xor(c, d) == 0 <==> c == d
  {
    hide Xor;
    XorZero(c);
    XorZero(d);
    XorSelf(c);
    XorBack(c, d);
  }

  lemma XorZero(c: bv16)
    ensures Xor(c, 0) == c && Xor(0, c) == c
  {
  }

  lemma XorSelf(c: bv16)
    ensures Xor(c, c) == 0
  {
  }

  lemma XorBack(c: bv16, d: bv16)
    ensures Xor(d, Xor(c, d)) == c
  {
  }

  lemma JoinBytes(lo: bv8, hi: bv8)
    ensures Low(Join(lo, hi)) == lo && High(Join(lo, hi)) == hi
    ensures XorByte(lo, lo) == 0 && XorByte(hi, hi) == 0
  {
  }

  /** The right CRC byte feeds nothing back, so it moves the register down by one byte. */
  lemma ReflectedResidueStep(c: bv16, lo: bv8, hi: bv8)
    ensures ReflectedByte(ReflectedByte(c, lo), hi) == 0 <==> c == Join(lo, hi)
  {
    hide ReflectedByte, ForwardByte, Xor, XorByte, Join, Low, High, ReflectedTable;
    var w := Join(lo, hi);
    var d := Xor(c, w);
    JoinBytes(lo, hi);
    ReflectedTableStep(w, lo);
    ReflectedTableEntry(0);
    ByteZero(0);
    XorFacts(Join(hi, 0), 0);
    ReflectedHalves(hi, hi);
    XorFacts(c, w);
    JoinFacts(w, lo);
    ReflectedByteLinear(w, d, lo, 0);
    JoinFacts(w, hi);
    ReflectedByteLinear(Join(hi, 0), ReflectedByte(d, 0), hi, 0);
    XorFacts(ReflectedByte(ReflectedByte(d, 0), 0), 0);
    ByteZero(d);
    ByteZero(ReflectedByte(d, 0));
  }

  lemma ForwardResidueStep(c: bv16, hi: bv8, lo: bv8)
    ensures ForwardByte(ForwardByte(c, hi), lo) == 0 <==> c == Join(lo, hi)
  {
    hide ReflectedByte, ForwardByte, Xor, XorByte, Join, Low, High, ForwardTable;
    var w := Join(lo, hi);
    var d := Xor(c, w);
    JoinBytes(lo, hi);
    JoinBytes(hi, lo);
    ForwardTableStep(w, hi);
    ForwardTableEntry(0);
    ByteZero(0);
    XorFacts(Join(0, lo), 0);
    ForwardHalves(lo, lo);
    XorFacts(c, w);
    JoinFacts(w, hi);
    ForwardByteLinear(w, d, hi, 0);
    JoinFacts(w, lo);
    ForwardByteLinear(Join(0, lo), ForwardByte(d, 0), lo, 0);
    XorFacts(ForwardByte(ForwardByte(d, 0), 0), 0);
    ByteZero(d);
    ByteZero(ForwardByte(d, 0));
  }

  /** The frame check of the Modbus line (low byte first): residue zero exactly for the right CRC. */
  lemma ReflectedResidue(s: seq<bv8>, lo: bv8, hi: bv8)
    ensures ReflectedCrc(0xFFFF, s + [lo, hi]) == 0 <==> ReflectedCrc(0xFFFF, s) == Join(lo, hi)
  {
    hide ReflectedByte, ForwardByte, ReflectedCrc, Join;
    assert s + [lo, hi] == s + [lo] + [hi];
    ReflectedSnoc(0xFFFF, s, lo);
    ReflectedSnoc(0xFFFF, s + [lo], hi);
    ReflectedResidueStep(ReflectedCrc(0xFFFF, s), lo, hi);
  }

  /** The same for the forward generator, high byte first. */
  lemma ForwardResidue(s: seq<bv8>, hi: bv8, lo: bv8)
    ensures ForwardCrc(0, s + [hi, lo]) == 0 <==> ForwardCrc(0, s) == Join(lo, hi)
  {
    hide ReflectedByte, ForwardByte, ForwardCrc, Join;
    assert s + [hi, lo] == s + [hi] + [lo];
    ForwardSnoc(0, s, hi);
    ForwardSnoc(0, s + [hi], lo);
    ForwardResidueStep(ForwardCrc(0, s), hi, lo);
  }

  // ---------------------------------------------------------------------------
  // Burst detection (reflected generator)
  // ---------------------------------------------------------------------------

  /** s received with the error pattern t. */
  function Corrupt(s: seq<bv8>, t: seq<bv8>): (r: seq<bv8>)
    requires |s| == |t|
    ensures |r| == |s|
    ensures forall i :: 0 <= i < |s| ==> r[i] == XorByte(s[i], t[i])
  {
    if s == [] then [] else [XorByte(s[0], t[0])] + Corrupt(s[1..], t[1..])
  }

  /** The error pattern contributes its own remainder. */
  lemma {:induction false} ReflectedLinear(c: bv16, d: bv16, s: seq<bv8>, t: seq<bv8>)
    requires |s| == |t|
    ensures ReflectedCrc(Xor(c, d), Corrupt(s, t)) == Xor(ReflectedCrc(c, s), ReflectedCrc(d, t))
    decreases |s|
  {
    hide ReflectedByte, Xor, XorByte;
    if s != [] {
      ReflectedByteLinear(c, d, s[0], t[0]);
      ReflectedLinear(ReflectedByte(c, s[0]), ReflectedByte(d, t[0]), s[1..], t[1..]);
      assert Corrupt(s, t)[1..] == Corrupt(s[1..], t[1..]);
    }
  }

  /** Zero bytes in the error pattern neither create nor destroy a remainder. */
  lemma {:induction false} ReflectedZeros(c: bv16, n: nat)
    ensures ReflectedCrc(c, ZeroBytes(n)) == 0 <==> c == 0
    decreases n
  {
    hide ReflectedByte, ForwardByte;
    if n > 0 {
      ByteZero(c);
      assert ZeroBytes(n)[1..] == ZeroBytes(n - 1);
      ReflectedZeros(ReflectedByte(c, 0), n - 1);
    }
  }

  /** Three bytes in transmission order, low bit first. */
  function Window(e0: bv8, e1: bv8, e2: bv8): bv24 {
    (e0 as bv24) | ((e1 as bv24) << 8) | ((e2 as bv24) << 16)
  }

  /** A nonzero error confined to sixteen consecutive bits of a three-byte window. */
  predicate IsBurst(e0: bv8, e1: bv8, e2: bv8) {
    var e := Window(e0, e1, e2);
    && e != 0
    && (|| e & 0xFF0000 == 0 || e & 0xFE0001 == 0 || e & 0xFC0003 == 0
        || e & 0xF80007 == 0 || e & 0xF0000F == 0 || e & 0xE0001F == 0
        || e & 0xC0003F == 0 || e & 0x80007F == 0 || e & 0x0000FF == 0)
  }

  lemma BurstLeavesRemainder(e0: bv8, e1: bv8, e2: bv8)
    requires IsBurst(e0, e1, e2)
    ensures ReflectedByte(ReflectedByte(ReflectedByte(0, e0), e1), e2) != 0
  {
  }

  /** The error pattern of one burst: zero everywhere but in three consecutive bytes. */
  function BurstPattern(before: nat, e0: bv8, e1: bv8, e2: bv8, after: nat): (e: seq<bv8>)
    ensures |e| == before + 3 + after
    ensures forall i :: 0 <= i < |e| && !(before <= i < before + 3) ==> e[i] == 0
  {
    ZeroBytes(before) + [e0, e1, e2] + ZeroBytes(after)
  }

  lemma ThreeBytes(c: bv16, e0: bv8, e1: bv8, e2: bv8)
    ensures ReflectedCrc(c, [e0, e1, e2]) == ReflectedByte(ReflectedByte(ReflectedByte(c, e0), e1), e2)
  {
    hide ReflectedByte;
    assert [e0, e1, e2] == [e0] + [e1] + [e2];
    ReflectedSnoc(c, [e0] + [e1], e2);
    ReflectedSnoc(c, [e0], e1);
    ReflectedSnoc(c, [], e0);
    assert [] + [e0] == [e0];
  }

  lemma PatternRemainder(before: nat, e0: bv8, e1: bv8, e2: bv8, after: nat)
    requires IsBurst(e0, e1, e2)
    ensures ReflectedCrc(0, BurstPattern(before, e0, e1, e2, after)) != 0
  {
    hide ReflectedByte, ReflectedCrc, IsBurst, ZeroBytes;
    ReflectedZeros(0, before);
    ReflectedAppend(0, ZeroBytes(before) + [e0, e1, e2], ZeroBytes(after));
    ReflectedAppend(0, ZeroBytes(before), [e0, e1, e2]);
    ThreeBytes(0, e0, e1, e2);
    BurstLeavesRemainder(e0, e1, e2);
    ReflectedZeros(ReflectedCrc(0, [e0, e1, e2]), after);
  }

  lemma XorChanges(c: bv16, d: bv16)
    ensures Xor(c, 0) == c
    ensures d != 0 ==> Xor(c, d) != c
  {
  }

  /** A burst of up to sixteen bits, anywhere in a message of any length, changes its remainder. */
  lemma BurstChangesCrc(s: seq<bv8>, before: nat, e0: bv8, e1: bv8, e2: bv8, after: nat)
    requires |s| == before + 3 + after
    requires IsBurst(e0, e1, e2)
    ensures ReflectedCrc(0xFFFF, Corrupt(s, BurstPattern(before, e0, e1, e2, after))) != ReflectedCrc(0xFFFF, s)
  {
    hide ReflectedByte, ReflectedCrc, IsBurst, BurstPattern, Corrupt, Xor;
    var e := BurstPattern(before, e0, e1, e2, after);
    PatternRemainder(before, e0, e1, e2, after);
    ReflectedLinear(0xFFFF, 0, s, e);
    XorChanges(0xFFFF, 0);
    XorChanges(ReflectedCrc(0xFFFF, s), ReflectedCrc(0, e));
  }

  // ---------------------------------------------------------------------------
  // Errors of an odd number of bits
  // ---------------------------------------------------------------------------

  function Fold8(c: bv16): bv16 { c ^ (c >> 8) }

  function Fold4(c: bv16): bv16 { c ^ (c >> 4) }

  function Fold2(c: bv16): bv16 { c ^ (c >> 2) }

  function Fold1(c: bv16): bv16 { (c ^ (c >> 1)) & 1 }

  /** The exclusive or of all bits of the register. */
  function Parity(c: bv16): bv16 { Fold1(Fold2(Fold4(Fold8(c)))) }

  predicate Odd(c: bv16) { Parity(c) == 1 }

  predicate IsOne(bit: bv16) { bit & 1 == 1 }

  lemma OddShift(c: bv16)
    ensures Odd(c >> 1) <==> Odd(c) != IsOne(c)
  {
  }

  lemma OddFlip(d: bv16)
    ensures Odd(Xor(d, 0xA001)) <==> !Odd(d)
    ensures !Odd(0) && Xor(d, 0) == d
  {
  }

  lemma OneXor(c: bv16, bit: bv16)
    ensures (c ^ bit) & 1 == 1 <==> IsOne(c) != IsOne(bit)
  {
  }

  /** The polynomial has an even number of terms: a message bit passes its parity on to the register. */
  lemma BitParity(c: bv16, bit: bv16)
    ensures Odd(ReflectedBit(c, bit)) <==> Odd(c) != IsOne(bit)
  {
    hide ReflectedBit, Odd, Xor, IsOne;
    ReflectedTaps(c, bit);
    OddShift(c);
    OddFlip(c >> 1);
    OneXor(c, bit);
  }

  /** How many of the lowest n bits of a byte are one. */
  function OnesBelow(b: bv8, n: nat): nat
    requires n <= 8
  {
    if n == 0 then 0 else OnesBelow(b, n - 1) + if IsOne(Tap(b, n - 1)) then 1 else 0
  }

  /** How many bits of an error pattern are one. */
  function Flips(e: seq<bv8>): nat {
    if e == [] then 0 else OnesBelow(e[0], 8) + Flips(e[1..])
  }

  lemma OnesStep(b: bv8, n: nat)
    requires n < 8
    ensures OnesBelow(b, 0) == 0
    ensures OnesBelow(b, n + 1) % 2 == 1 <==> (OnesBelow(b, n) % 2 == 1) != IsOne(Tap(b, n))
  {
    hide IsOne, Tap;
  }

  lemma ByteParity(c: bv16, b: bv8)
    ensures Odd(ReflectedByte(c, b)) <==> Odd(c) != (OnesBelow(b, 8) % 2 == 1)
  {
    hide ReflectedBit, Odd, IsOne, Tap, OnesBelow;
    var c0 := c;
    BitParity(c0, Tap(b, 0));
    OnesStep(b, 0);
    var c1 := ReflectedBit(c0, Tap(b, 0));
    BitParity(c1, Tap(b, 1));
    OnesStep(b, 1);
    var c2 := ReflectedBit(c1, Tap(b, 1));
    BitParity(c2, Tap(b, 2));
    OnesStep(b, 2);
    var c3 := ReflectedBit(c2, Tap(b, 2));
    BitParity(c3, Tap(b, 3));
    OnesStep(b, 3);
    var c4 := ReflectedBit(c3, Tap(b, 3));
    BitParity(c4, Tap(b, 4));
    OnesStep(b, 4);
    var c5 := ReflectedBit(c4, Tap(b, 4));
    BitParity(c5, Tap(b, 5));
    OnesStep(b, 5);
    var c6 := ReflectedBit(c5, Tap(b, 5));
    BitParity(c6, Tap(b, 6));
    OnesStep(b, 6);
    var c7 := ReflectedBit(c6, Tap(b, 6));
    BitParity(c7, Tap(b, 7));
    OnesStep(b, 7);
    var c8 := ReflectedBit(c7, Tap(b, 7));
  }

  lemma {:induction false} CrcParity(c: bv16, e: seq<bv8>)
    ensures Odd(ReflectedCrc(c, e)) <==> Odd(c) != (Flips(e) % 2 == 1)
    decreases |e|
  {
    hide Odd, ReflectedByte, OnesBelow;
    if e != [] {
      ByteParity(c, e[0]);
      CrcParity(ReflectedByte(c, e[0]), e[1..]);
    }
  }

  /** An odd number of flipped bits, anywhere in a message of any length, changes its remainder. */
  lemma OddChangesCrc(s: seq<bv8>, e: seq<bv8>)
    requires |s| == |e| && Flips(e) % 2 == 1
    ensures ReflectedCrc(0xFFFF, Corrupt(s, e)) != ReflectedCrc(0xFFFF, s)
  {
    hide ReflectedByte, ReflectedCrc, Corrupt, Xor, Flips, Odd;
    OddFlip(0);
    CrcParity(0, e);
    assert ReflectedCrc(0, e) != 0;
    ReflectedLinear(0xFFFF, 0, s, e);
    XorChanges(0xFFFF, 0);
    XorChanges(ReflectedCrc(0xFFFF, s), ReflectedCrc(0, e));
  }

  // ---------------------------------------------------------------------------
  // The customary check values
  // ---------------------------------------------------------------------------

  /** The digits from one to nine. */
  const DIGITS: seq<bv8> := [0x31, 0x32, 0x33, 0x34, 0x35, 0x36, 0x37, 0x38, 0x39]

  lemma ReflectedDigits()
    ensures ReflectedByte(0xFFFF, 0x31) == 0x947E
    ensures ReflectedByte(0x947E, 0x32) == 0xF595
    ensures ReflectedByte(0xF595, 0x33) == 0x7A75
    ensures ReflectedByte(0x7A75, 0x34) == 0x30BA
    ensures ReflectedByte(0x30BA, 0x35) == 0xA471
    ensures ReflectedByte(0xA471, 0x36) == 0x32E4
    ensures ReflectedByte(0x32E4, 0x37) == 0x9D73
    ensures ReflectedByte(0x9D73, 0x38) == 0x37DD
    ensures ReflectedByte(0x37DD, 0x39) == 0x4B37
  {
  }

  lemma ForwardDigits()
    ensures ForwardByte(0x0000, 0x31) == 0x80A5
    ensures ForwardByte(0x80A5, 0x32) == 0xA6AC
    ensures ForwardByte(0xA6AC, 0x33) == 0xAF7E
    ensures ForwardByte(0xAF7E, 0x34) == 0xFD59
    ensures ForwardByte(0xFD59, 0x35) == 0xDBB3
    ensures ForwardByte(0xDBB3, 0x36) == 0xB16E
    ensures ForwardByte(0xB16E, 0x37) == 0xED17
    ensures ForwardByte(0xED17, 0x38) == 0x95FD
    ensures ForwardByte(0x95FD, 0x39) == 0xFEE8
  {
  }

  lemma CrcUpTo(n: nat)
    requires n < 9
    ensures ReflectedCrc(0xFFFF, DIGITS[..n + 1]) == ReflectedByte(ReflectedCrc(0xFFFF, DIGITS[..n]), DIGITS[n])
    ensures ForwardCrc(0, DIGITS[..n + 1]) == ForwardByte(ForwardCrc(0, DIGITS[..n]), DIGITS[n])
  {
    hide ReflectedByte, ForwardByte, ReflectedCrc, ForwardCrc;
    assert DIGITS[..n + 1] == DIGITS[..n] + [DIGITS[n]];
    ReflectedSnoc(0xFFFF, DIGITS[..n], DIGITS[n]);
    ForwardSnoc(0, DIGITS[..n], DIGITS[n]);
  }

  lemma CrcOfNothing()
    ensures ReflectedCrc(0xFFFF, []) == 0xFFFF && ForwardCrc(0, []) == 0
  {
  }

  /** The check values by which these two generators are known. */
  lemma CrcOfDigits()
    ensures ReflectedCrc(0xFFFF, DIGITS) == 0x4B37
    ensures ForwardCrc(0, DIGITS) == 0xFEE8
  {
    hide ReflectedByte, ForwardByte, ReflectedCrc, ForwardCrc;
    CrcOfNothing();
    ReflectedDigits();
    ForwardDigits();
    CrcUpTo(0);
    CrcUpTo(1);
    CrcUpTo(2);
    CrcUpTo(3);
    CrcUpTo(4);
    CrcUpTo(5);
    CrcUpTo(6);
    CrcUpTo(7);
    CrcUpTo(8);
    assert DIGITS[..0] == [] && DIGITS[..9] == DIGITS;
  }
}
