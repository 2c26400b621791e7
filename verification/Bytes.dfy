/**
Bytes and the integers they encode. Bytes are 8-bit vectors, so that checksums
and digests can work on their bits; lengths and counters are integers.
*/
module Bytes {

  const TWO_8 := 0x100
  const TWO_16 := 0x1_0000
  const TWO_24 := 0x100_0000
  const TWO_32 := 0x1_0000_0000
  const TWO_64 := 0x1_0000_0000_0000_0000

  /** The number in a byte. */
  function Value(b: bv8): (n: nat)
    ensures n < TWO_8
  {
    b as int
  }

  lemma NextValue(b: bv8)
    requires Value(b) < 0xFF
    ensures Value(b + 1) == Value(b) + 1
  {
  }

  /** The byte for a number. */
  function ToByte(n: nat): (b: bv8)
    requires n < TWO_8
    ensures Value(b) == n
  {
    if n == 0 then 0 else
      var b := ToByte(n - 1);
      NextValue(b);
      b + 1
  }

  lemma ValueInjective(a: bv8, b: bv8)
    requires Value(a) == Value(b)
    ensures a == b
  {
  }

  function ZeroBytes(n: nat): (z: seq<bv8>)
    ensures |z| == n && forall i :: 0 <= i < n ==> z[i] == 0
  {
    seq(n, _ => 0 as bv8)
  }

  /** A 32-bit number in four bytes, most significant first. */
  function BigEndian32(n: nat): (b: seq<bv8>)
    requires n < TWO_32
    ensures |b| == 4
  {
    [ToByte(n / TWO_24), ToByte(n / TWO_16 % TWO_8), ToByte(n / TWO_8 % TWO_8), ToByte(n % TWO_8)]
  }

  /** A 32-bit number in four bytes, least significant first. */
  function LittleEndian32(n: nat): (b: seq<bv8>)
    requires n < TWO_32
    ensures |b| == 4
  {
    [ToByte(n % TWO_8), ToByte(n / TWO_8 % TWO_8), ToByte(n / TWO_16 % TWO_8), ToByte(n / TWO_24)]
  }

  function BigEndian64(n: nat): (b: seq<bv8>)
    requires n < TWO_64
    ensures |b| == 8
  {
    BigEndian32(n / TWO_32) + BigEndian32(n % TWO_32)
  }

  function LittleEndian64(n: nat): (b: seq<bv8>)
    requires n < TWO_64
    ensures |b| == 8
  {
    LittleEndian32(n % TWO_32) + LittleEndian32(n / TWO_32)
  }

  lemma BigEndianZero(n: nat)
    requires n < TWO_32
    ensures BigEndian32(n) == BigEndian32(0) <==> n == 0
  {
    hide Value, ToByte;
    if BigEndian32(n) == BigEndian32(0) {
      assert forall i :: 0 <= i < 4 ==> Value(BigEndian32(n)[i]) == Value(BigEndian32(0)[i]);
      assert Value(BigEndian32(n)[0]) == n / TWO_24 == 0;
      assert Value(BigEndian32(n)[1]) == n / TWO_16 % TWO_8 == 0;
      assert Value(BigEndian32(n)[2]) == n / TWO_8 % TWO_8 == 0;
      assert Value(BigEndian32(n)[3]) == n % TWO_8 == 0;
    }
  }

  /** The number that bytes spell, most significant first. */
  function Spelled(b: seq<bv8>): nat {
    if b == [] then 0 else Spelled(b[..|b| - 1]) * TWO_8 + Value(b[|b| - 1])
  }

  function Backwards(b: seq<bv8>): (r: seq<bv8>)
    ensures |r| == |b| && forall i :: 0 <= i < |b| ==> r[i] == b[|b| - 1 - i]
  {
    seq(|b|, i requires 0 <= i < |b| => b[|b| - 1 - i])
  }

  lemma SpelledNext(b: seq<bv8>, x: bv8)
    ensures Spelled(b + [x]) == Spelled(b) * TWO_8 + Value(x)
  {
    assert (b + [x])[..|b|] == b;
  }

  lemma SpelledFour(b: seq<bv8>, b0: bv8, b1: bv8, b2: bv8, b3: bv8)
    ensures Spelled(b + [b0, b1, b2, b3])
         == Spelled(b) * TWO_32 + Value(b0) * TWO_24 + Value(b1) * TWO_16 + Value(b2) * TWO_8 + Value(b3)
  {
    hide Spelled, Value;
    SpelledNext(b, b0);
    SpelledNext(b + [b0], b1);
    SpelledNext(b + [b0] + [b1], b2);
    SpelledNext(b + [b0] + [b1] + [b2], b3);
    assert b + [b0] + [b1] + [b2] + [b3] == b + [b0, b1, b2, b3];
  }

  lemma SpelledNothing()
    ensures Spelled([]) == 0
  {
  }

  lemma FourBytes(n: nat)
    requires n < TWO_32
    ensures n / TWO_24 * TWO_24 + n / TWO_16 % TWO_8 * TWO_16 + n / TWO_8 % TWO_8 * TWO_8 + n % TWO_8 == n
  {
  }

  /** Bytes after which a 32-bit number follows. */
  lemma SpelledMore(b: seq<bv8>, n: nat)
    requires n < TWO_32
    ensures Spelled(b + BigEndian32(n)) == Spelled(b) * TWO_32 + n
  {
    hide Spelled, Value, ToByte;
    FourBytes(n);
    SpelledFour(b, BigEndian32(n)[0], BigEndian32(n)[1], BigEndian32(n)[2], BigEndian32(n)[3]);
  }

  lemma BackwardsFour(n: nat)
    requires n < TWO_32
    ensures Backwards(LittleEndian32(n)) == BigEndian32(n)
  {
    hide ToByte;
  }

  lemma BackwardsSum(a: seq<bv8>, b: seq<bv8>)
    ensures Backwards(a + b) == Backwards(b) + Backwards(a)
  {
  }

  /** The bytes of a length field spell the length, in one order or the other. */
  lemma EndianSpelled(n: nat)
    requires n < TWO_64
    ensures Spelled(BigEndian64(n)) == n
    ensures Spelled(Backwards(LittleEndian64(n))) == n
  {
    hide Spelled, BigEndian32, LittleEndian32, Backwards;
    SpelledNothing();
    SpelledMore([], n / TWO_32);
    assert [] + BigEndian32(n / TWO_32) == BigEndian32(n / TWO_32);
    SpelledMore(BigEndian32(n / TWO_32), n % TWO_32);
    BackwardsSum(LittleEndian32(n % TWO_32), LittleEndian32(n / TWO_32));
    BackwardsFour(n % TWO_32);
    BackwardsFour(n / TWO_32);
  }

  // ---------------------------------------------------------------------------
  // 32-bit words
  // ---------------------------------------------------------------------------

  datatype Word = Word(bits: bv32)

  /** Addition modulo 2^32. */
  function Plus(x: bv32, y: bv32): bv32 { x + y }

  function Sum(x: Word, y: Word): Word { Word(Plus(x.bits, y.bits)) }

  /** Four bytes as a word, most significant first. */
  function Pack32(b0: bv8, b1: bv8, b2: bv8, b3: bv8): Word {
    Word((b3 as bv32) | ((b2 as bv32) << 8) | ((b1 as bv32) << 16) | ((b0 as bv32) << 24))
  }

  function Unpack32(w: Word): (b: seq<bv8>)
    ensures |b| == 4
  {
    [((w.bits >> 24) & 0xFF) as bv8, ((w.bits >> 16) & 0xFF) as bv8,
     ((w.bits >> 8) & 0xFF) as bv8, (w.bits & 0xFF) as bv8]
  }
}
