/**
Errors of up to three bits. Two flipped bits go undetected if and only if their
distance is a multiple of the order of the register, which is 32767; frames
are far shorter.
*/
module CrcErrors {
  import opened Arithmetic
  import opened Bytes
  import opened Crc

  // ---------------------------------------------------------------------------
  // The register without input
  // ---------------------------------------------------------------------------

  /** One step of the register when a zero bit enters. */
  function Turn(c: bv16): bv16 {
    ReflectedBit(c, 0)
  }

  /** The step undone. */
  function Back(c: bv16): bv16 {
    if c & 0x8000 != 0 then ((c ^ 0xA001) << 1) | 1 else c << 1
  }

  lemma TurnBack(c: bv16)
    ensures Turn(Back(c)) == c && Back(Turn(c)) == c
  {
  }

  lemma TurnZero()
    ensures Turn(0) == 0 && Back(0) == 0
  {
  }

  lemma TurnXor(a: bv16, b: bv16)
    ensures Turn(Xor(a, b)) == Xor(Turn(a), Turn(b))
  {
    hide ReflectedBit, Xor;
    XorZero(0);
    ReflectedBitLinear(a, b, 0, 0);
  }

  lemma BackXor(a: bv16, b: bv16)
    ensures Back(Xor(a, b)) == Xor(Back(a), Back(b))
  {
    hide Turn, Back, Xor;
    TurnXor(Back(a), Back(b));
    TurnBack(a);
    TurnBack(b);
    TurnBack(Xor(Back(a), Back(b)));
  }

  lemma TurnNonzero(c: bv16)
    ensures c != 0 ==> Turn(c) != 0
  {
    hide Turn, Back;
    TurnBack(c);
    TurnZero();
  }

  /** The register after n steps from one: the powers of x modulo the polynomial. */
  function Power(n: nat): bv16 {
    if n == 0 then 1 else Turn(Power(n - 1))
  }

  // ---------------------------------------------------------------------------
  // Squaring
  // ---------------------------------------------------------------------------

  function LowBit(c: bv16): bv16 { c & 1 }

  /** The n lowest bits of the register, spread out to twice their distance. */
  function Spread(c: bv16, n: nat): bv16 {
    if n == 0 then 0 else Xor(LowBit(c), Back(Back(Spread(Half(c), n - 1))))
  }

  function Square(c: bv16): bv16 {
    Spread(c, 16)
  }

  lemma LowBitXor(a: bv16, b: bv16)
    ensures LowBit(Xor(a, b)) == Xor(LowBit(a), LowBit(b))
  {
  }

  lemma XorAssoc(a: bv16, b: bv16, c: bv16)
    ensures Xor(Xor(a, b), c) == Xor(a, Xor(b, c))
  {
  }

  lemma XorSwap(a: bv16, b: bv16)
    ensures Xor(a, b) == Xor(b, a)
  {
  }

  lemma Exchange(p: bv16, q: bv16, r: bv16, s: bv16)
    ensures Xor(Xor(p, q), Xor(r, s)) == Xor(Xor(p, r), Xor(q, s))
  {
    hide Xor;
    XorAssoc(p, q, Xor(r, s));
    XorAssoc(q, r, s);
    XorSwap(q, r);
    XorAssoc(r, q, s);
    XorAssoc(p, r, Xor(q, s));
  }

  lemma {:induction false} SpreadXor(a: bv16, b: bv16, n: nat)
    ensures Spread(Xor(a, b), n) == Xor(Spread(a, n), Spread(b, n))
    decreases n
  {
    hide Xor, LowBit, Half, Back;
    if n == 0 {
      XorZero(0);
    } else {
      var p, q := Spread(Half(a), n - 1), Spread(Half(b), n - 1);
      LowBitXor(a, b);
      HalfXor(a, b);
      SpreadXor(Half(a), Half(b), n - 1);
      BackXor(p, q);
      BackXor(Back(p), Back(q));
      Exchange(LowBit(a), LowBit(b), Back(Back(p)), Back(Back(q)));
    }
  }

  function Halves(c: bv16, n: nat): bv16 {
    if n == 0 then c else Halves(Half(c), n - 1)
  }

  lemma NoBits()
    ensures LowBit(0) == 0 && Half(0) == 0 && Back(Back(0)) == 0
  {
  }

  /** Spreading may stop when no bits are left. */
  lemma {:induction false} SpreadStops(c: bv16, n: nat)
    requires Halves(c, n) == 0
    ensures Spread(c, n + 1) == Spread(c, n)
    decreases n
  {
    hide Xor, LowBit, Half, Back;
    NoBits();
    XorZero(0);
    if n == 0 {
      assert Spread(Half(0), 0) == 0;
    } else {
      SpreadStops(Half(c), n - 1);
    }
  }

  lemma FourHalves(c: bv16, n: nat)
    ensures Halves(c, n + 4) == Halves(c >> 4, n)
  {
    hide Half;
    FourSteps(c);
    assert Halves(c, n + 4) == Halves(Half(c), n + 3) == Halves(Half(Half(c)), n + 2);
    assert Halves(Half(Half(c)), n + 2) == Halves(Half(Half(Half(c))), n + 1);
  }

  lemma SixteenHalves(c: bv16)
    ensures Halves(c, 16) == 0
  {
    hide Halves;
    FourHalves(c, 12);
    FourHalves(c >> 4, 8);
    FourHalves(c >> 4 >> 4, 4);
    FourHalves(c >> 4 >> 4 >> 4, 0);
    assert c >> 4 >> 4 >> 4 >> 4 == 0;
    NoHalves(c >> 4 >> 4 >> 4 >> 4);
  }

  lemma NoHalves(c: bv16)
    ensures Halves(c, 0) == c
  {
  }

  /** The square of a register is that of its upper bits, two steps back, with the lowest bit. */
  lemma SquareOfHalf(c: bv16)
    ensures Square(c) == Xor(LowBit(c), Back(Back(Square(Half(c)))))
  {
    hide Xor, LowBit, Half, Back;
    SixteenHalves(c);
    assert Halves(Half(c), 15) == 0;
    SpreadStops(Half(c), 15);
    assert Spread(c, 16) == Xor(LowBit(c), Back(Back(Spread(Half(c), 15))));
  }

  lemma TurnIs(c: bv16)
    ensures Turn(c) == Xor(Half(c), if LowBit(c) == 1 then 0xA001 else 0)
    ensures LowBit(c) == 0 || LowBit(c) == 1
  {
  }

  lemma SquareConstants()
    ensures Square(0xA001) == Turn(Turn(1)) && Square(0) == 0 && Square(1) == 1
  {
    SquareIs(0xA001);
    SquareIs(0);
    SquareIs(1);
    hide Square;
  }

  /** A step is two steps of the square. */
  lemma SquareTurn(c: bv16)
    ensures Square(Turn(c)) == Turn(Turn(Square(c)))
  {
    hide Xor, LowBit, Half, Back, Turn, Square;
    var b, s := LowBit(c), Square(Half(c));
    TurnIs(c);
    SquareConstants();
    SquareXor(Half(c), if b == 1 then 0xA001 else 0);
    SquareOfHalf(c);
    TurnXor(b, Back(Back(s)));
    TurnXor(Turn(b), Turn(Back(Back(s))));
    TurnBack(Back(s));
    TurnBack(s);
    TurnZero();
    XorSwap(Turn(Turn(b)), s);
  }

  lemma SquareXor(a: bv16, b: bv16)
    ensures Square(Xor(a, b)) == Xor(Square(a), Square(b))
  {
    hide Xor, Spread;
    SpreadXor(a, b, 16);
  }

  /** Four bits of a square. */
  function Square4(c: bv16, upper: bv16): bv16 {
    Step(c, Step(Half(c), Step(Half(Half(c)), Step(Half(Half(Half(c))), upper))))
  }

  function Step(c: bv16, upper: bv16): bv16 {
    Xor(LowBit(c), Back(Back(upper)))
  }

  function SquareNow(c: bv16): bv16 {
    Square4(c, Square4(c >> 4, Square4(c >> 4 >> 4, Square4(c >> 4 >> 4 >> 4, 0))))
  }

  lemma FourSteps(c: bv16)
    ensures Half(Half(Half(Half(c)))) == c >> 4
  {
  }

  lemma SpreadNext(c: bv16, n: nat)
    ensures Spread(c, n + 1) == Step(c, Spread(Half(c), n))
  {
    hide Xor, LowBit, Half, Back;
  }

  lemma SpreadFour(c: bv16, n: nat)
    ensures Spread(c, n + 4) == Square4(c, Spread(c >> 4, n))
  {
    hide Spread, Step, Half;
    FourSteps(c);
    SpreadNext(c, n + 3);
    SpreadNext(Half(c), n + 2);
    SpreadNext(Half(Half(c)), n + 1);
    SpreadNext(Half(Half(Half(c))), n);
  }

  lemma SquareIs(c: bv16)
    ensures Square(c) == SquareNow(c)
  {
    hide Square4, Spread;
    SpreadFour(c, 12);
    SpreadFour(c >> 4, 8);
    SpreadFour(c >> 4 >> 4, 4);
    SpreadFour(c >> 4 >> 4 >> 4, 0);
    SpreadNothing(c >> 4 >> 4 >> 4 >> 4);
  }

  lemma SpreadNothing(c: bv16)
    ensures Spread(c, 0) == 0
  {
  }

  // ---------------------------------------------------------------------------
  // The order of the register
  // ---------------------------------------------------------------------------

  lemma PowerNext(n: nat)
    ensures Power(n + 1) == Turn(Power(n)) && Power(0) == 1
  {
    hide Turn;
  }

  lemma {:induction false} PowerDouble(n: nat)
    ensures Power(2 * n) == Square(Power(n))
  {
    hide Turn, Square;
    SquareConstants();
    if n > 0 {
      PowerDouble(n - 1);
      SquareTurn(Power(n - 1));
      assert Power(2 * n) == Turn(Power(2 * n - 1)) == Turn(Turn(Power(2 * n - 2)));
    }
  }

  lemma Doubled(n: nat, c: bv16, d: bv16)
    requires Power(n) == c && SquareNow(c) == d
    ensures Power(2 * n) == d
  {
    hide Square, SquareNow, Power;
    PowerDouble(n);
    SquareIs(c);
  }

  lemma Power217()
    ensures Power(217) == 0x417F
  {
    hide Power;
    PowerNext(0);
    Doubled(1, 0xA001, 0xF001);
    PowerNext(2);
    Doubled(3, 0xD801, 0xC301);
    Doubled(6, 0xC301, 0xC00D);
    PowerNext(12);
    Doubled(13, 0xC007, 0xC015);
    PowerNext(26);
    Doubled(27, 0xC00B, 0xC045);
    Doubled(54, 0xC045, 0xD011);
    Doubled(108, 0xD011, 0x82FE);
    PowerNext(216);
  }

  lemma Power1057()
    ensures Power(1057) == 0xC961
  {
    hide Power;
    PowerNext(0);
    Doubled(1, 0xA001, 0xF001);
    Doubled(2, 0xF001, 0xCC01);
    Doubled(4, 0xCC01, 0xC0C1);
    Doubled(8, 0xC0C1, 0x9001);
    Doubled(16, 0x9001, 0xFC01);
    PowerNext(32);
    Doubled(33, 0xDE01, 0xC331);
    Doubled(66, 0xC331, 0xC50D);
    Doubled(132, 0xC50D, 0xC06D);
    Doubled(264, 0xC06D, 0xD451);
    Doubled(528, 0xD451, 0xD2C1);
    PowerNext(1056);
  }

  lemma Power4681()
    ensures Power(4681) == 0xAA5D
  {
    hide Power;
    PowerNext(0);
    Doubled(1, 0xA001, 0xF001);
    Doubled(2, 0xF001, 0xCC01);
    Doubled(4, 0xCC01, 0xC0C1);
    PowerNext(8);
    Doubled(9, 0xC061, 0xD401);
    Doubled(18, 0xD401, 0xC3C1);
    Doubled(36, 0xC3C1, 0x900D);
    PowerNext(72);
    Doubled(73, 0xE807, 0xCF15);
    Doubled(146, 0xCF15, 0xC1DD);
    Doubled(292, 0xC1DD, 0xD152);
    PowerNext(584);
    Doubled(585, 0x68A9, 0x34BE);
    Doubled(1170, 0x34BE, 0x096B);
    Doubled(2340, 0x096B, 0x14B9);
    PowerNext(4680);
  }

  lemma Power32768()
    ensures Power(32768) == 0xA001
  {
    hide Power;
    PowerNext(0);
    Doubled(1, 0xA001, 0xF001);
    Doubled(2, 0xF001, 0xCC01);
    Doubled(4, 0xCC01, 0xC0C1);
    Doubled(8, 0xC0C1, 0x9001);
    Doubled(16, 0x9001, 0xFC01);
    Doubled(32, 0xFC01, 0xCCC1);
    Doubled(64, 0xCCC1, 0x90C1);
    Doubled(128, 0x90C1, 0xAC01);
    Doubled(256, 0xAC01, 0xF0C1);
    Doubled(512, 0xF0C1, 0x9C01);
    Doubled(1024, 0x9C01, 0xFCC1);
    Doubled(2048, 0xFCC1, 0x9CC1);
    Doubled(4096, 0x9CC1, 0xACC1);
    Doubled(8192, 0xACC1, 0xA0C1);
    Doubled(16384, 0xA0C1, 0xA001);
  }

  /** The register returns to one after 32767 steps. */
  lemma Period32767()
    ensures Power(32767) == 1
  {
    hide Power, Back;
    Power32768();
    PowerNext(32767);
    TurnBack(Power(32767));
    TurnBack(1);
    assert Turn(1) == 0xA001;
  }

  function Turns(c: bv16, n: nat): bv16 {
    if n == 0 then c else Turn(Turns(c, n - 1))
  }

  lemma {:induction false} TurnsPower(n: nat, k: nat)
    ensures Turns(Power(n), k) == Power(n + k) && Turns(1, k) == Power(k)
    decreases k
  {
    hide Turn;
    if k > 0 {
      TurnsPower(n, k - 1);
      PowerNext(n + k - 1);
    }
  }

  /** Periods add up and may be taken away. */
  lemma PeriodsAdd(a: nat, b: nat)
    requires Power(a) == 1
    ensures Power(a + b) == Power(b)
  {
    hide Turn;
    TurnsPower(a, b);
  }

  lemma {:induction false} PeriodsMultiply(a: nat, k: nat)
    requires Power(a) == 1
    ensures Power(a * k) == 1
    decreases k
  {
    hide Turn, Power;
    PowerNext(0);
    if k > 0 {
      PeriodsMultiply(a, k - 1);
      PeriodsAdd(a, a * (k - 1));
      assert a * k == a + a * (k - 1);
    }
  }

  /** Two periods have a common divisor that is a period. */
  lemma {:induction false} CommonPeriod(a: nat, b: nat) returns (d: nat)
    requires b > 0 && Power(a) == 1 && Power(b) == 1
    ensures d > 0 && Power(d) == 1 && a % d == 0 && b % d == 0
    decreases b
  {
    hide Turn, Power;
    var r, q := a % b, a / b;
    assert a == b * q + r;
    PeriodsMultiply(b, q);
    PeriodsAdd(b * q, r);
    if r == 0 {
      d := b;
      MultipleMod(1, b);
    } else {
      d := CommonPeriod(b, r);
      DividesSum(b, q, r, d);
    }
  }

  lemma DividesSum(b: nat, q: nat, r: nat, d: nat)
    requires d > 0 && b % d == 0 && r % d == 0
    ensures (b * q + r) % d == 0
  {
    var m, n := b / d, r / d;
    assert b * q + r == (m * q + n) * d;
    MultipleMod(m * q + n, d);
  }

  lemma SmallFactor(d: nat, q: nat)
    requires d * q == 32767 && 0 < d <= 181
    ensures d == 1 || d == 7 || d == 31 || d == 151
  {
  }

  /** 32767 is 7 times 31 times 151: each smaller divisor divides one of three. */
  lemma Divisor(d: nat)
    requires 0 < d < 32767 && 32767 % d == 0
    ensures 217 % d == 0 || 1057 % d == 0 || 4681 % d == 0
  {
    var q := 32767 / d;
    assert d * q == 32767;
    if d <= 181 {
      SmallFactor(d, q);
    } else {
      assert q <= 181 by { FactorBound(d, q); }
      SmallFactor(q, d);
    }
  }

  lemma FactorBound(d: nat, q: nat)
    requires d * q == 32767 && d > 181
    ensures 0 < q <= 181
  {
    if q > 181 {
      MulMonotone(182, d, q);
    }
  }

  lemma PeriodOfMultiple(d: nat, n: nat)
    requires d > 0 && n % d == 0 && Power(d) == 1
    ensures Power(n) == 1
  {
    hide Power;
    PeriodsMultiply(d, n / d);
    assert d * (n / d) == n;
  }

  lemma PeriodDivides(d: nat)
    requires 0 < d < 32767 && 32767 % d == 0 && Power(d) == 1
    ensures Power(217) == 1 || Power(1057) == 1 || Power(4681) == 1
  {
    hide Power;
    Divisor(d);
    if 217 % d == 0 {
      PeriodOfMultiple(d, 217);
    } else if 1057 % d == 0 {
      PeriodOfMultiple(d, 1057);
    } else {
      PeriodOfMultiple(d, 4681);
    }
  }

  lemma ShortPeriod(k: nat)
    requires 0 < k < 32767
    ensures Power(k) == 1 ==> Power(217) == 1 || Power(1057) == 1 || Power(4681) == 1
  {
    hide Power;
    if Power(k) == 1 {
      Period32767();
      var d := CommonPeriod(32767, k);
      DivisorBound(k, d);
      PeriodDivides(d);
    }
  }

  lemma DivisorBound(k: nat, d: nat)
    requires k > 0 && d > 0 && k % d == 0
    ensures d <= k
  {
  }

  lemma NoShortPeriod(k: nat)
    requires 0 < k < 32767
    ensures Power(k) != 1
  {
    hide Power;
    ShortPeriod(k);
    Power217();
    Power1057();
    Power4681();
  }

  /** The order of the register: without input it is back at one after 32767 steps and not before. */
  lemma PeriodIff(k: nat)
    ensures Power(k) == 1 <==> k % 32767 == 0
  {
    hide Power;
    var q, r := k / 32767, k % 32767;
    Period32767();
    PeriodsMultiply(32767, q);
    PeriodsAdd(32767 * q, r);
    if r == 0 {
      PowerNext(0);
    } else {
      NoShortPeriod(r);
    }
  }

  // ---------------------------------------------------------------------------
  // Messages as bits
  // ---------------------------------------------------------------------------

  function BitOf(one: bool): bv16 {
    if one then 1 else 0
  }

  function Feed(c: bv16, bits: seq<bool>): bv16
    decreases |bits|
  {
    if bits == [] then c else Feed(ReflectedBit(c, BitOf(bits[0])), bits[1..])
  }

  function ByteBits(b: bv8, n: nat): (bits: seq<bool>)
    requires n <= 8
    ensures |bits| == n
  {
    if n == 0 then [] else ByteBits(b, n - 1) + [IsOne(Tap(b, n - 1))]
  }

  function Bits(e: seq<bv8>): (bits: seq<bool>)
    ensures |bits| == 8 * |e|
  {
    if e == [] then [] else ByteBits(e[0], 8) + Bits(e[1..])
  }

  function Ones(bits: seq<bool>): nat {
    if bits == [] then 0 else (if bits[0] then 1 else 0) + Ones(bits[1..])
  }

  lemma {:induction false} FeedAppend(c: bv16, a: seq<bool>, b: seq<bool>)
    ensures Feed(c, a + b) == Feed(Feed(c, a), b)
    decreases |a|
  {
    hide ReflectedBit, BitOf;
    if a == [] {
      assert a + b == b;
    } else {
      assert (a + b)[1..] == a[1..] + b;
      FeedAppend(ReflectedBit(c, BitOf(a[0])), a[1..], b);
    }
  }

  lemma {:induction false} OnesAppend(a: seq<bool>, b: seq<bool>)
    ensures Ones(a + b) == Ones(a) + Ones(b)
  {
    if a == [] {
      assert a + b == b;
    } else {
      assert (a + b)[1..] == a[1..] + b;
      OnesAppend(a[1..], b);
    }
  }

  /** Only the lowest position of a bit matters. */
  lemma OnlyLowest(c: bv16, bit: bv16)
    ensures ReflectedBit(c, bit) == ReflectedBit(c, BitOf(IsOne(bit)))
  {
    hide Xor, ReflectedBit;
    ReflectedTaps(c, bit);
    ReflectedTaps(c, BitOf(IsOne(bit)));
    SameLowest(c, bit);
  }

  lemma SameLowest(c: bv16, bit: bv16)
    ensures (c ^ bit) & 1 == (c ^ BitOf(IsOne(bit))) & 1
  {
  }

  lemma FeedOne(c: bv16, bit: bv16)
    ensures Feed(c, [IsOne(bit)]) == ReflectedBit(c, bit)
  {
    hide ReflectedBit, BitOf, IsOne;
    OnlyLowest(c, bit);
    assert Feed(ReflectedBit(c, BitOf(IsOne(bit))), [IsOne(bit)][1..]) == ReflectedBit(c, BitOf(IsOne(bit)));
  }

  lemma FeedNext(c: bv16, b: bv8, n: nat)
    requires n < 8
    ensures Feed(c, ByteBits(b, n + 1)) == ReflectedBit(Feed(c, ByteBits(b, n)), Tap(b, n))
    ensures Feed(c, ByteBits(b, 0)) == c
  {
    hide ReflectedBit, Tap, IsOne;
    FeedAppend(c, ByteBits(b, n), [IsOne(Tap(b, n))]);
    FeedOne(Feed(c, ByteBits(b, n)), Tap(b, n));
  }

  lemma FeedByte(c: bv16, b: bv8)
    ensures Feed(c, ByteBits(b, 8)) == ReflectedByte(c, b)
  {
    hide ReflectedBit, Tap, IsOne, Feed, ByteBits;
    FeedNext(c, b, 0);
    FeedNext(c, b, 1);
    FeedNext(c, b, 2);
    FeedNext(c, b, 3);
    FeedNext(c, b, 4);
    FeedNext(c, b, 5);
    FeedNext(c, b, 6);
    FeedNext(c, b, 7);
  }

  lemma {:induction false} FeedBytes(c: bv16, e: seq<bv8>)
    ensures Feed(c, Bits(e)) == ReflectedCrc(c, e)
    decreases |e|
  {
    hide ReflectedByte, ByteBits;
    if e != [] {
      FeedAppend(c, ByteBits(e[0], 8), Bits(e[1..]));
      FeedByte(c, e[0]);
      FeedBytes(ReflectedByte(c, e[0]), e[1..]);
    }
  }

  lemma {:induction false} OnesOfByte(b: bv8, n: nat)
    requires n <= 8
    ensures Ones(ByteBits(b, n)) == OnesBelow(b, n)
    decreases n
  {
    hide Tap, IsOne;
    if n > 0 {
      OnesOfByte(b, n - 1);
      OnesAppend(ByteBits(b, n - 1), [IsOne(Tap(b, n - 1))]);
      assert Ones([IsOne(Tap(b, n - 1))][1..]) == 0;
    }
  }

  lemma {:induction false} OnesAreFlips(e: seq<bv8>)
    ensures Ones(Bits(e)) == Flips(e)
  {
    hide ByteBits, OnesBelow;
    if e != [] {
      OnesAppend(ByteBits(e[0], 8), Bits(e[1..]));
      OnesOfByte(e[0], 8);
      OnesAreFlips(e[1..]);
    }
  }

  // ---------------------------------------------------------------------------
  // Two flipped bits
  // ---------------------------------------------------------------------------

  lemma {:induction false} FeedZeros(c: bv16, bits: seq<bool>)
    requires Ones(bits) == 0
    ensures Feed(c, bits) == 0 <==> c == 0
    decreases |bits|
  {
    hide ReflectedBit;
    if bits != [] {
      TurnNonzero(c);
      TurnZeroIs();
      FeedZeros(Turn(c), bits[1..]);
    }
  }

  /** A one that enters is added before the step. */
  lemma OneEnters(c: bv16)
    ensures ReflectedBit(c, 1) == Turn(Xor(c, 1))
  {
    hide ReflectedBit, Xor;
    XorZero(c);
    XorZero(1);
    ReflectedBitLinear(c, 1, 0, 0);
    ReflectedBitLinear(c, 0, 0, 1);
    OneAlone();
    XorZero(0);
  }

  lemma OneAlone()
    ensures ReflectedBit(0, 1) == Turn(1)
  {
  }

  function FirstOne(bits: seq<bool>): (n: nat)
    requires Ones(bits) > 0
    ensures n < |bits|
  {
    if bits[0] then 0 else 1 + FirstOne(bits[1..])
  }

  /** How far apart two ones are. */
  function Distance(bits: seq<bool>): (n: nat)
    requires Ones(bits) == 2
    ensures 0 < n < |bits|
  {
    if bits[0] then 1 + FirstOne(bits[1..]) else Distance(bits[1..])
  }

  /** The second of two flipped bits cancels the first exactly when the register is back at one. */
  lemma {:induction false} SecondOne(n: nat, bits: seq<bool>)
    requires Ones(bits) == 1
    ensures Feed(Power(n), bits) == 0 <==> (n + FirstOne(bits)) % 32767 == 0
    decreases |bits|
  {
    hide ReflectedBit, Power, Xor;
    PowerNext(n);
    if bits[0] {
      PeriodIff(n);
      XorFacts(Power(n), 1);
      OneEnters(Power(n));
      TurnNonzero(Xor(Power(n), 1));
      TurnZeroIs();
      FeedZeros(Turn(Xor(Power(n), 1)), bits[1..]);
    } else {
      SecondOne(n + 1, bits[1..]);
    }
  }

  lemma {:induction false} TwoOnes(bits: seq<bool>)
    requires Ones(bits) == 2
    ensures Feed(0, bits) == 0 <==> Distance(bits) % 32767 == 0
  {
    hide ReflectedBit, Power, Turn;
    PowerNext(0);
    OneAlone();
    if bits[0] {
      SecondOne(1, bits[1..]);
    } else {
      assert ReflectedBit(0, 0) == 0 by { TurnZeroIs(); }
      TwoOnes(bits[1..]);
    }
  }

  lemma TurnZeroIs()
    ensures ReflectedBit(0, 0) == 0
  {
    hide ReflectedBit;
    TurnZero();
  }

  /** How far apart two flipped bits of a message are, in bits as they enter the register. */
  function FlipDistance(e: seq<bv8>): (n: nat)
    requires Flips(e) == 2
    ensures 0 < n < 8 * |e|
  {
    OnesAreFlips(e);
    Distance(Bits(e))
  }

  /** Two flipped bits of any message leave its remainder as it is if and only if their distance is a multiple of the
      order of the register. */
  lemma TwoFlipsHiddenIff(s: seq<bv8>, e: seq<bv8>)
    requires |s| == |e| && Flips(e) == 2
    ensures ReflectedCrc(0xFFFF, Corrupt(s, e)) == ReflectedCrc(0xFFFF, s) <==> FlipDistance(e) % 32767 == 0
  {
    hide ReflectedByte, ReflectedCrc, Corrupt, Xor, Flips, Bits, Feed, Ones, Distance;
    OnesAreFlips(e);
    TwoOnes(Bits(e));
    FeedBytes(0, e);
    ReflectedLinear(0xFFFF, 0, s, e);
    XorChanges(0xFFFF, 0);
    XorFacts(ReflectedCrc(0xFFFF, s), 0);
    XorChanges(ReflectedCrc(0xFFFF, s), ReflectedCrc(0, e));
  }

  /** Any one, two or three flipped bits of a message of less than 4096 bytes change its remainder. */
  lemma FewFlipsChangeCrc(s: seq<bv8>, e: seq<bv8>)
    requires |s| == |e| < 4096 && 1 <= Flips(e) <= 3
    ensures ReflectedCrc(0xFFFF, Corrupt(s, e)) != ReflectedCrc(0xFFFF, s)
  {
    hide ReflectedByte, ReflectedCrc, Corrupt, Xor, Flips, FlipDistance;
    if Flips(e) == 2 {
      TwoFlipsHiddenIff(s, e);
    } else {
      OddChangesCrc(s, e);
    }
  }

  /** Four flipped bits may cancel each other, as the four of the polynomial do in every message. */
  lemma FourFlipsHidden(s: seq<bv8>, before: nat, after: nat)
    requires |s| == before + 3 + after
    ensures Flips([0x03, 0x40, 0x01]) == 4
    ensures ReflectedCrc(0xFFFF, Corrupt(s, BurstPattern(before, 0x03, 0x40, 0x01, after))) == ReflectedCrc(0xFFFF, s)
  {
    hide ReflectedByte, ReflectedCrc, Corrupt, Xor, ZeroBytes;
    var e := BurstPattern(before, 0x03, 0x40, 0x01, after);
    PolynomialVanishes();
    ReflectedZeros(0, before);
    ReflectedAppend(0, ZeroBytes(before) + [0x03, 0x40, 0x01], ZeroBytes(after));
    ReflectedAppend(0, ZeroBytes(before), [0x03, 0x40, 0x01]);
    ThreeBytes(0, 0x03, 0x40, 0x01);
    ReflectedZeros(0, after);
    ReflectedLinear(0xFFFF, 0, s, e);
    XorFacts(0xFFFF, 0);
    XorFacts(ReflectedCrc(0xFFFF, s), 0);
    FourFlips();
  }

  lemma PolynomialVanishes()
    ensures ReflectedByte(ReflectedByte(ReflectedByte(0, 0x03), 0x40), 0x01) == 0
  {
  }

  lemma FourFlips()
    ensures Flips([0x03, 0x40, 0x01]) == 4
  {
  }
}
