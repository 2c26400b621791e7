/**
SHA-1: the gateway's form (a rolling schedule of sixteen words kept in wider
machine words whose high bits hold junk, working variables renamed instead of
moved, a string buffer fed from a stream) against the one-shot definition of
FIPS 180-4 sections 5.1.1 and 6.1.2.
*/
module Sha1 {
  import opened Arithmetic
  import opened Bytes
  import opened Blocks

  type Hash = h: seq<Word> | |h| == 5 witness seq(5, _ => Word(0))

  type Words = w: seq<Word> | |w| == 16 witness seq(16, _ => Word(0))

  // ---------------------------------------------------------------------------
  // The standard
  // ---------------------------------------------------------------------------

  const INITIAL: Hash := [
    Word(0x67452301), Word(0xefcdab89), Word(0x98badcfe), Word(0x10325476), Word(0xc3d2e1f0)
  ]

  function Rol(x: bv32, n: bv5): bv32 { (x << n) | (x >> (32 - (n as bv6))) }

  function RotL(x: Word, n: bv5): Word { Word(Rol(x.bits, n)) }

  function Ch(x: Word, y: Word, z: Word): Word { Word((x.bits & y.bits) ^ (!x.bits & z.bits)) }

  function Parity(x: Word, y: Word, z: Word): Word { Word(x.bits ^ y.bits ^ z.bits) }

  function Maj(x: Word, y: Word, z: Word): Word { Word((x.bits & y.bits) ^ (x.bits & z.bits) ^ (y.bits & z.bits)) }

  /** The logical function and the constant of step t. */
  function F(t: nat, x: Word, y: Word, z: Word): Word {
    if t < 20 then Ch(x, y, z) else if t < 40 then Parity(x, y, z) else if t < 60 then Maj(x, y, z) else Parity(x, y, z)
  }

  function K(t: nat): Word {
    if t < 20 then Word(0x5a827999) else if t < 40 then Word(0x6ed9eba1)
    else if t < 60 then Word(0x8f1bbcdc) else Word(0xca62c1d6)
  }

  function Mix4(w3: Word, w8: Word, w14: Word, w16: Word): Word {
    RotL(Word(w3.bits ^ w8.bits ^ w14.bits ^ w16.bits), 1)
  }

  /** Word t of the eighty-word message schedule. */
  function W(words: Words, t: nat): Word {
    if t < 16 then words[t] else Mix4(W(words, t - 3), W(words, t - 8), W(words, t - 14), W(words, t - 16))
  }

  /** The new first working variable: a sum modulo 2^32, in which the order does not matter. */
  function Temp(a: Word, f: Word, e: Word, k: Word, w: Word): Word {
    Sum(e, Sum(Sum(Sum(f, w), k), RotL(a, 5)))
  }

  /** One step on the working variables a..e. */
  function Round(v: Hash, t: nat, w: Word): Hash {
    [Temp(v[0], F(t, v[1], v[2], v[3]), v[4], K(t), w), v[0], RotL(v[1], 30), v[2], v[3]]
  }

  function Rounds(v: Hash, words: Words, t: nat): Hash {
    if t == 0 then v else Round(Rounds(v, words, t - 1), t - 1, W(words, t - 1))
  }

  function AddHash(x: Hash, y: Hash): Hash {
    [Sum(x[0], y[0]), Sum(x[1], y[1]), Sum(x[2], y[2]), Sum(x[3], y[3]), Sum(x[4], y[4])]
  }

  function CompressWords(h: Hash, words: Words): Hash {
    AddHash(h, Rounds(h, words, 80))
  }

  function WordAt(block: Block, i: nat): Word
    requires i < 16
  {
    Pack32(block[4 * i], block[4 * i + 1], block[4 * i + 2], block[4 * i + 3])
  }

  function BlockWords(block: Block): (w: Words)
    ensures forall i :: 0 <= i < 16 ==> w[i] == WordAt(block, i)
  {
    seq(16, i requires 0 <= i < 16 => WordAt(block, i))
  }

  function Compress(h: Hash, block: Block): Hash {
    CompressWords(h, BlockWords(block))
  }

  function Absorbed(h: Hash, s: seq<bv8>): Hash {
    Fold<Hash>(Compress, h, s)
  }

  /** The length field counts bits modulo 2^64 (the standard asks for less than 2^64 of them). */
  function Padded(m: seq<bv8>): seq<bv8> {
    m + Padding(|m|, BigEndian64(8 * |m| % TWO_64))
  }

  /** The padded message: its last eight bytes spell the number of bits, most significant first. */
  lemma PaddedShape(m: seq<bv8>)
    ensures var p := Padded(m);
      && |p| % BLOCK_BYTES == 0 && |m| + 9 <= |p| < |m| + 9 + BLOCK_BYTES
      && p[..|m|] == m && p[|m|] == 0x80
      && (forall i :: |m| < i < |p| - 8 ==> p[i] == 0)
      && Spelled(p[|p| - 8..]) == 8 * |m| % TWO_64
  {
    hide Padding, Spelled, BigEndian64;
    PaddingShape(m, BigEndian64(8 * |m| % TWO_64));
    EndianSpelled(8 * |m| % TWO_64);
  }

  /** The digest of a whole message, as five words. */
  function Digest(m: seq<bv8>): Hash {
    Absorbed(INITIAL, Padded(m))
  }

  // ---------------------------------------------------------------------------
  // Wide machine words
  // ---------------------------------------------------------------------------

  /** An `unsigned long` of 64 bits, as its two halves. Only the low half is meaningful; junk in the
      high half is kept, carried into and shifted about, but never comes down. */
  datatype Wide = Wide(high: bv32, low: bv32)

  function Low(w: Wide): Word { Word(w.low) }

  function Lows(s: seq<Wide>): (r: seq<Word>)
    ensures |r| == |s| && forall i :: 0 <= i < |s| ==> r[i] == Low(s[i])
  {
    seq(|s|, i requires 0 <= i < |s| => Low(s[i]))
  }

  function Carry(x: bv32, y: bv32): bv32 { if x + y < x then 1 else 0 }

  function WideSum(x: Wide, y: Wide): Wide {
    Wide(x.high + y.high + Carry(x.low, y.low), Plus(x.low, y.low))
  }

  /** The rotation macro: the left shift carries bits into the high half and does not clear it. */
  function WideRol(x: Wide, n: bv5): Wide {
    Wide((x.high << n) | (x.low >> (32 - (n as bv6))), Rol(x.low, n))
  }

  function WideXor(x: Wide, y: Wide): Wide { Wide(x.high ^ y.high, x.low ^ y.low) }

  function WideAnd(x: Wide, y: Wide): Wide { Wide(x.high & y.high, x.low & y.low) }

  function WideOr(x: Wide, y: Wide): Wide { Wide(x.high | y.high, x.low | y.low) }

  function WideChoose(w: Wide, x: Wide, y: Wide): Wide { WideXor(WideAnd(w, WideXor(x, y)), y) }

  function WideParity(w: Wide, x: Wide, y: Wide): Wide { WideXor(WideXor(w, x), y) }

  function WideMajority(w: Wide, x: Wide, y: Wide): Wide { WideOr(WideAnd(WideOr(w, x), y), WideAnd(w, x)) }

  function WideMix(b13: Wide, b8: Wide, b2: Wide, b0: Wide): Wide {
    WideRol(WideXor(WideXor(WideXor(b13, b8), b2), b0), 1)
  }

  /** Four buffer bytes combined as a signed `int`: a set top bit fills the high half. */
  function WideOfBytes(b0: bv8, b1: bv8, b2: bv8, b3: bv8): Wide {
    var p := Pack32(b0, b1, b2, b3).bits;
    Wide(if p & 0x8000_0000 != 0 then 0xFFFF_FFFF else 0, p)
  }

  function WideOfWord(w: Word): Wide { Wide(0, w.bits) }

  function BigEndianWord(n: nat): Word
    requires n < TWO_32
  {
    var b := BigEndian32(n);
    Pack32(b[0], b[1], b[2], b[3])
  }

  /** A 64-bit integer as a machine word. */
  function WideOfNumber(n: nat): Wide
    requires n < TWO_64
  {
    Wide(BigEndianWord(n / TWO_32).bits, BigEndianWord(n % TWO_32).bits)
  }

  lemma LowRol(x: Wide, n: bv5)
    ensures Low(WideRol(x, n)) == RotL(Low(x), n)
  {
    hide Rol;
  }

  lemma LowSum(x: Wide, y: Wide)
    ensures Low(WideSum(x, y)) == Sum(Low(x), Low(y))
  {
    hide Plus, Carry;
  }

  lemma LowChoose(w: Wide, x: Wide, y: Wide)
    ensures Low(WideChoose(w, x, y)) == Ch(Low(w), Low(x), Low(y))
  {
  }

  lemma LowParity(w: Wide, x: Wide, y: Wide)
    ensures Low(WideParity(w, x, y)) == Parity(Low(w), Low(x), Low(y))
  {
  }

  lemma LowMajority(w: Wide, x: Wide, y: Wide)
    ensures Low(WideMajority(w, x, y)) == Maj(Low(w), Low(x), Low(y))
  {
  }

  lemma LowMix(b13: Wide, b8: Wide, b2: Wide, b0: Wide)
    ensures Low(WideMix(b13, b8, b2, b0)) == Mix4(Low(b13), Low(b8), Low(b2), Low(b0))
  {
  }

  lemma LowOfBytes(b0: bv8, b1: bv8, b2: bv8, b3: bv8)
    ensures Low(WideOfBytes(b0, b1, b2, b3)) == Pack32(b0, b1, b2, b3)
  {
  }

  lemma LowOfNumber(n: nat)
    requires n < TWO_64
    ensures Low(WideOfNumber(n)) == BigEndianWord(n % TWO_32)
    ensures Low(WideOfNumber(n / TWO_32)) == BigEndianWord(n / TWO_32)
  {
    hide BigEndianWord;
  }

  // ---------------------------------------------------------------------------
  // The rolling schedule and the renamed variables
  // ---------------------------------------------------------------------------

  /** The sixteen words that step t still needs, each in the place given by its number modulo 16. */
  ghost predicate Rolling(b: seq<Word>, words: Words, t: nat) {
    && |b| == 16
    && forall j :: (if t < 16 then 0 else t - 16) <= j < (if t < 16 then 16 else t) ==> b[j % 16] == W(words, j)
  }

  /** The five variables, in this order, are the working variables a..e before step t. */
  ghost predicate At(h: Hash, words: Words, t: nat, a: Wide, b: Wide, c: Wide, d: Wide, e: Wide) {
    Rounds(h, words, t) == [Low(a), Low(b), Low(c), Low(d), Low(e)]
  }

  lemma RollingStart(words: Words)
    ensures Rolling(words, words, 0)
  {
  }

  lemma RollingKeep(b: seq<Word>, words: Words, t: nat)
    requires t < 16 && Rolling(b, words, t)
    ensures b[t] == W(words, t)
    ensures Rolling(b, words, t + 1)
  {
    assert t % 16 == t;
  }

  lemma Places(t: nat)
    requires t >= 16
    ensures (t - 3) % 16 == (t + 13) % 16 && (t - 8) % 16 == (t + 8) % 16
    ensures (t - 14) % 16 == (t + 2) % 16 && (t - 16) % 16 == t % 16
    ensures forall j :: t - 16 < j < t ==> j % 16 != t % 16
  {
    ModMultiple(t - 3, 16, 1);
    ModMultiple(t - 8, 16, 1);
    ModMultiple(t - 14, 16, 1);
    ModMultiple(t - 16, 16, 1);
    forall j | t - 16 < j < t ensures j % 16 != t % 16 {
      ModDiffers(j, t, 16);
    }
  }

  lemma WNext(words: Words, t: nat)
    requires t >= 16
    ensures W(words, t) == Mix4(W(words, t - 3), W(words, t - 8), W(words, t - 14), W(words, t - 16))
  {
  }

  /** Word t replaces word t - 16, which no later step needs. */
  lemma RollingReplace(b: seq<Word>, words: Words, t: nat)
    requires t >= 16 && Rolling(b, words, t)
    ensures Mix4(b[(t + 13) % 16], b[(t + 8) % 16], b[(t + 2) % 16], b[t % 16]) == W(words, t)
    ensures Rolling(b[t % 16 := W(words, t)], words, t + 1)
  {
    hide Mix4, W;
    Places(t);
    WNext(words, t);
    assert b[(t - 3) % 16] == W(words, t - 3);
    assert b[(t - 8) % 16] == W(words, t - 8);
    assert b[(t - 14) % 16] == W(words, t - 14);
    assert b[(t - 16) % 16] == W(words, t - 16);
    forall j | t - 15 <= j < t + 1 ensures b[t % 16 := W(words, t)][j % 16] == W(words, j) {
      if j < t {
        assert b[j % 16] == W(words, j);
      }
    }
  }

  lemma LowF(t: nat, w: Wide, x: Wide, y: Wide)
    ensures Low(WideF(t, w, x, y)) == F(t, Low(w), Low(x), Low(y))
  {
    LowChoose(w, x, y);
    LowParity(w, x, y);
    LowMajority(w, x, y);
  }

  /** The logical function that the macros of step t apply. */
  function WideF(t: nat, w: Wide, x: Wide, y: Wide): Wide {
    if t < 20 then WideChoose(w, x, y)
    else if t < 40 then WideParity(w, x, y)
    else if t < 60 then WideMajority(w, x, y)
    else WideParity(w, x, y)
  }

  /** The value added up by a macro. */
  function WideTemp(v: Wide, f: Wide, z: Wide, k: Wide, blk: Wide): Wide {
    WideSum(z, WideSum(WideSum(WideSum(f, blk), k), WideRol(v, 5)))
  }

  lemma LowTemp(v: Wide, f: Wide, z: Wide, k: Wide, blk: Wide)
    ensures Low(WideTemp(v, f, z, k, blk)) == Temp(Low(v), Low(f), Low(z), Low(k), Low(blk))
  {
    hide WideSum, WideRol, Sum, RotL, Low;
    LowSum(f, blk);
    LowSum(WideSum(f, blk), k);
    LowRol(v, 5);
    LowSum(WideSum(WideSum(f, blk), k), WideRol(v, 5));
    LowSum(z, WideSum(WideSum(WideSum(f, blk), k), WideRol(v, 5)));
  }

  /** One macro moves the working variables on by one step. */
  lemma NextAt(h: Hash, words: Words, t: nat, v: Wide, w: Wide, x: Wide, y: Wide, z: Wide, blk: Wide)
    requires At(h, words, t, v, w, x, y, z) && Low(blk) == W(words, t)
    ensures At(h, words, t + 1, WideTemp(v, WideF(t, w, x, y), z, WideOfWord(K(t)), blk), v, WideRol(w, 30), x, y)
  {
    hide Low, WideTemp, Temp, WideF, F, WideRol, RotL, W, K, WideOfWord, Round, Rounds;
    LowF(t, w, x, y);
    LowRol(w, 30);
    LowTemp(v, WideF(t, w, x, y), z, WideOfWord(K(t)), blk);
    LowConstant(K(t));
    RoundsNext(h, words, t);
    RoundOf(Low(v), Low(w), Low(x), Low(y), Low(z), t, W(words, t));
  }

  lemma RoundsNext(h: Hash, words: Words, t: nat)
    ensures Rounds(h, words, t + 1) == Round(Rounds(h, words, t), t, W(words, t))
  {
    hide Round, W;
  }

  lemma RoundOf(a: Word, b: Word, c: Word, d: Word, e: Word, t: nat, w: Word)
    ensures Round([a, b, c, d, e], t, w) == [Temp(a, F(t, b, c, d), e, K(t), w), a, RotL(b, 30), c, d]
  {
    hide Temp, F, K, RotL;
  }

  lemma LowConstant(k: Word)
    ensures Low(WideOfWord(k)) == k
  {
  }

  /** One of the macros SHA1_R0 to SHA1_R4, chosen by the step number: adds to z, rotates w, and from
      step 16 on computes the next schedule word in place. */
  method Step(block: array<Wide>, t: nat, v: Wide, w: Wide, x: Wide, y: Wide, z: Wide,
              ghost h: Hash, ghost words: Words)
    returns (z': Wide, w': Wide)
    requires block.Length == 16 && t < 80
    requires Rolling(Lows(block[..]), words, t) && At(h, words, t, v, w, x, y, z)
    modifies block
    ensures Rolling(Lows(block[..]), words, t + 1) && At(h, words, t + 1, z', v, w', x, y)
  {
    hide Low, WideTemp, WideF, WideRol, W, K, WideOfWord, WideMix, Mix4, At, Rolling;
    ghost var b := Lows(block[..]);
    if t < 16 {
      RollingKeep(b, words, t);
      NextAt(h, words, t, v, w, x, y, z, block[t]);
      z' := WideTemp(v, WideF(t, w, x, y), z, WideOfWord(K(t)), block[t]);
    } else {
      RollingReplace(b, words, t);
      LowMix(block[(t + 13) % 16], block[(t + 8) % 16], block[(t + 2) % 16], block[t % 16]);
      block[t % 16] := WideMix(block[(t + 13) % 16], block[(t + 8) % 16], block[(t + 2) % 16], block[t % 16]);
      assert Lows(block[..]) == b[t % 16 := W(words, t)];
      NextAt(h, words, t, v, w, x, y, z, block[t % 16]);
      z' := WideTemp(v, WideF(t, w, x, y), z, WideOfWord(K(t)), block[t % 16]);
    }
    w' := WideRol(w, 30);
  }

  // ---------------------------------------------------------------------------
  // The digest object
  // ---------------------------------------------------------------------------

  class SHA1 {
    const digest: array<Wide>
    var buffer: seq<bv8>
    var transforms: nat
    /** Every byte taken in since the last reset. */
    ghost var message: seq<bv8>

    ghost predicate Valid()
      reads this, digest
    {
      && digest.Length == 5
      && buffer == Tail(message)
      && transforms == |message| / BLOCK_BYTES % TWO_64
      && Lows(digest[..]) == Absorbed(INITIAL, message)
    }

    constructor ()
      ensures Valid() && fresh(digest) && message == []
    {
      digest := new Wide[5];
      new;
      Reset();
    }

    method Reset()
      requires digest.Length == 5
      modifies this, digest
      ensures Valid() && message == []
    {
      hide Compress, INITIAL, Low, WideOfWord;
      forall i | 0 <= i < 5 { digest[i] := WideOfWord(INITIAL[i]); }
      forall i | 0 <= i < 5 ensures Low(digest[i]) == INITIAL[i] { LowConstant(INITIAL[i]); }
      assert Lows(digest[..]) == INITIAL;
      StreamEmpty<Hash>(Compress, INITIAL);
      transforms := 0;
      buffer := [];
      message := [];
    }

    /** One block: the eighty macro calls, five at a time, each with the variables renamed round by one. */
    method Transform(block: array<Wide>)
      requires digest.Length == 5 && block.Length == 16 && block != digest
      modifies this`transforms, digest, block
      ensures Lows(digest[..]) == CompressWords(Lows(old(digest[..])), Lows(old(block[..])))
      ensures transforms == (old(transforms) + 1) % TWO_64
    {
      hide At, Rolling, Low, Rounds, WideSum, Sum;
      ghost var h: Hash := Lows(digest[..]);
      ghost var words: Words := Lows(block[..]);
      var a, b, c, d, e := digest[0], digest[1], digest[2], digest[3], digest[4];
      RollingStart(words);
      AtStart(h, words, a, b, c, d, e);
      var t := 0;
      while t < 80
        invariant 0 <= t <= 80 && t % 5 == 0
        invariant digest[..] == old(digest[..]) && transforms == old(transforms)
        invariant Rolling(Lows(block[..]), words, t) && At(h, words, t, a, b, c, d, e)
      {
        e, b := Step(block, t, a, b, c, d, e, h, words);
        d, a := Step(block, t + 1, e, a, b, c, d, h, words);
        c, e := Step(block, t + 2, d, e, a, b, c, h, words);
        b, d := Step(block, t + 3, c, d, e, a, b, h, words);
        a, c := Step(block, t + 4, b, c, d, e, a, h, words);
        t := t + 5;
      }
      AtEnd(h, words, a, b, c, d, e);
      LowSum(digest[0], a);
      LowSum(digest[1], b);
      LowSum(digest[2], c);
      LowSum(digest[3], d);
      LowSum(digest[4], e);
      digest[0] := WideSum(digest[0], a);
      digest[1] := WideSum(digest[1], b);
      digest[2] := WideSum(digest[2], c);
      digest[3] := WideSum(digest[3], d);
      digest[4] := WideSum(digest[4], e);
      transforms := (transforms + 1) % TWO_64;
      assert Lows(digest[..]) == CompressWords(h, words);
    }

    /** The block as sixteen words; the buffer holds at least a block. */
    method BufferToBlock(bytes: seq<bv8>) returns (block: array<Wide>)
      requires |bytes| >= BLOCK_BYTES
      ensures fresh(block) && block.Length == 16
      ensures Lows(block[..]) == BlockWords(bytes[..BLOCK_BYTES])
    {
      hide Low, WideOfBytes, Pack32;
      block := new Wide[16];
      for i := 0 to 16
        invariant forall k :: 0 <= k < i ==> Low(block[k]) == WordAt(bytes[..BLOCK_BYTES], k)
      {
        LowOfBytes(bytes[4 * i], bytes[4 * i + 1], bytes[4 * i + 2], bytes[4 * i + 3]);
        block[i] := WideOfBytes(bytes[4 * i], bytes[4 * i + 1], bytes[4 * i + 2], bytes[4 * i + 3]);
      }
      assert Lows(block[..]) == BlockWords(bytes[..BLOCK_BYTES]);
    }

    /** Reads up to max bytes; the stream is good afterwards only if it had that many. */
    method Read(stream: seq<bv8>, pos: nat, max: nat) returns (s: seq<bv8>, next: nat, good: bool)
      requires pos <= |stream|
      ensures pos <= next <= |stream| && s == stream[pos..next]
      ensures good ==> next == pos + max
      ensures !good ==> next == |stream| && next < pos + max
    {
      good := pos + max <= |stream|;
      next := if good then pos + max else |stream|;
      s := stream[pos..next];
    }

    /** The full buffer is the next block. */
    method TakeBlock(ghost whole: seq<bv8>)
      requires digest.Length == 5 && |buffer| == BLOCK_BYTES && |whole| % BLOCK_BYTES == 0
      requires transforms == |whole| / BLOCK_BYTES % TWO_64 && Lows(digest[..]) == Absorbed(INITIAL, whole)
      modifies this`transforms, digest
      ensures |whole + buffer| % BLOCK_BYTES == 0
      ensures transforms == |whole + buffer| / BLOCK_BYTES % TWO_64
      ensures Lows(digest[..]) == Absorbed(INITIAL, whole + buffer)
    {
      hide CompressWords, BlockWords, INITIAL, Lows, Fold;
      var block := BufferToBlock(buffer);
      assert buffer[..BLOCK_BYTES] == buffer;
      AbsorbBlock(whole, buffer);
      Transform(block);
      BlockDone(|whole|);
    }

    /** Takes in one chunk: afterwards the object is where it would be after the concatenation. */
    method Update(stream: seq<bv8>)
      requires Valid()
      modifies this, digest
      ensures Valid() && message == old(message) + stream
    {
      hide CompressWords, BlockWords, INITIAL, Tail, Lows, Fold;
      ghost var before := message;
      ghost var whole := before[..Whole(|before|)];
      FoldWhole<Hash>(Compress, INITIAL, before);
      TailIs(before);
      var rest, pos, good := Read(stream, 0, BLOCK_BYTES - |buffer|);
      buffer := buffer + rest;
      assert before + stream[..pos] == whole + buffer;
      while good
        invariant digest.Length == 5
        invariant pos <= |stream|
        invariant |whole| % BLOCK_BYTES == 0 && whole + buffer == before + stream[..pos]
        invariant transforms == |whole| / BLOCK_BYTES % TWO_64
        invariant Lows(digest[..]) == Absorbed(INITIAL, whole)
        invariant good ==> |buffer| == BLOCK_BYTES
        invariant !good ==> |buffer| < BLOCK_BYTES && pos == |stream|
        decreases |stream| - pos, good
      {
        TakeBlock(whole);
        whole := whole + buffer;
        var next;
        buffer, next, good := Read(stream, pos, BLOCK_BYTES);
        assert before + stream[..next] == (before + stream[..pos]) + buffer;
        pos := next;
      }
      message := before + stream;
      assert stream[..pos] == stream;
      assert message == whole + buffer;
      AbsorbRest(whole, buffer);
    }

    /** Pads, produces the digest of everything taken in, and starts afresh. */
    method Final() returns (result: seq<Word>)
      requires Valid()
      modifies this, digest
      ensures result == Digest(old(message))
      ensures Valid() && message == []
    {
      hide Compress, INITIAL, Fold, Low, BigEndian64, Padding, Lows, BitCount, Tail;
      ghost var m := message;
      var totalBits := BitCount(transforms, |buffer|);
      TotalBits(|m|);
      StreamPadding<Hash>(Compress, INITIAL, m, BigEndian64(totalBits));
      Finish(totalBits, |m|);
      result := Output();
      Reset();
    }

    /** Compresses the buffer, the mark, the zeros and the length field: one block or two. */
    method Finish(totalBits: nat, ghost n: nat)
      requires digest.Length == 5 && |buffer| == n % BLOCK_BYTES && totalBits < TWO_64
      modifies this`buffer, this`transforms, digest
      ensures Lows(digest[..]) == Absorbed(Lows(old(digest[..])), old(buffer) + Padding(n, BigEndian64(totalBits)))
    {
      hide CompressWords, Low, WideOfNumber, BigEndianWord, BigEndian64, Padding, Absorbed, WordAt;
      ghost var h: Hash := Lows(digest[..]);
      ghost var end := buffer + Padding(n, BigEndian64(totalBits));
      ghost var tail := buffer;
      buffer := buffer + [0x80];
      var origSize := |buffer|;
      buffer := buffer + ZeroBytes(BLOCK_BYTES - |buffer|);
      assert buffer == tail + [0x80] + ZeroBytes(BLOCK_BYTES - |tail| - 1);
      assert buffer[..BLOCK_BYTES] == buffer;
      var block := BufferToBlock(buffer);
      if origSize > BLOCK_BYTES - 8 {
        TwoBlocks(tail, n, totalBits);
        Transform(block);
        LowZero();
        forall i | 0 <= i < 14 { block[i] := Wide(0, 0); }
        assert Lows(digest[..]) == CompressWords(h, BlockWords(end[..BLOCK_BYTES]));
      } else {
        OneBlock(tail, n, totalBits);
        assert end[0..] == end;
      }
      LastBlock(h, end);
      SetLength(block, end[|end| - BLOCK_BYTES..], totalBits);
      Transform(block);
      assert |end| == BLOCK_BYTES ==> Lows(digest[..]) == Compress(h, end[0..]);
      assert |end| != BLOCK_BYTES ==> Lows(digest[..]) == Compress(Compress(h, end[..BLOCK_BYTES]), end[BLOCK_BYTES..]);
    }

    /** Writes the bit count into the last two words. */
    method SetLength(block: array<Wide>, ghost last: Block, totalBits: nat)
      requires block.Length == 16 && totalBits < TWO_64
      requires forall i :: 0 <= i < 14 ==> Low(block[i]) == WordAt(last, i)
      requires WordAt(last, 14) == BigEndianWord(totalBits / TWO_32)
      requires WordAt(last, 15) == BigEndianWord(totalBits % TWO_32)
      modifies block
      ensures Lows(block[..]) == BlockWords(last)
    {
      hide Low, WideOfNumber, BigEndianWord, WordAt;
      LowOfNumber(totalBits);
      block[15] := WideOfNumber(totalBits);
      block[14] := WideOfNumber(totalBits / TWO_32);
      assert Lows(block[..]) == BlockWords(last);
    }

    /** The low halves of the five words, as the hexadecimal text shows them. */
    method Output() returns (result: seq<Word>)
      requires digest.Length == 5
      ensures result == Lows(digest[..])
    {
      result := [Low(digest[0]), Low(digest[1]), Low(digest[2]), Low(digest[3]), Low(digest[4])];
    }
  }

  lemma AbsorbBlock(whole: seq<bv8>, block: Block)
    requires |whole| % BLOCK_BYTES == 0
    ensures Absorbed(INITIAL, whole + block) == CompressWords(Absorbed(INITIAL, whole), BlockWords(block))
  {
    hide CompressWords, BlockWords, INITIAL, Fold;
    FoldAppend<Hash>(Compress, INITIAL, whole, block);
    FoldOne<Hash>(Compress, Absorbed(INITIAL, whole), block);
  }

  lemma AbsorbRest(whole: seq<bv8>, rest: seq<bv8>)
    requires |whole| % BLOCK_BYTES == 0 && |rest| < BLOCK_BYTES
    ensures Absorbed(INITIAL, whole + rest) == Absorbed(INITIAL, whole)
    ensures Tail(whole + rest) == rest
    ensures |whole + rest| / BLOCK_BYTES == |whole| / BLOCK_BYTES
  {
    hide Compress, INITIAL, Fold, Tail;
    FoldAppend<Hash>(Compress, INITIAL, whole, rest);
    FoldShort<Hash>(Compress, Absorbed(INITIAL, whole), rest);
    TailDrop(whole, rest);
    TailShort(rest);
  }

  lemma BlockDone(n: nat)
    requires n % BLOCK_BYTES == 0
    ensures (n / BLOCK_BYTES % TWO_64 + 1) % TWO_64 == (n + BLOCK_BYTES) / BLOCK_BYTES % TWO_64
  {
  }

  /** The number of bits, computed in 64-bit words from the blocks done and the bytes buffered. */
  function BitCount(transforms: nat, buffered: nat): (n: nat)
    ensures n < TWO_64
  {
    (transforms * BLOCK_BYTES + buffered) * 8 % TWO_64
  }

  /** The wrapped block counter still gives the bit count modulo 2^64. */
  lemma TotalBits(n: nat)
    ensures BitCount(n / BLOCK_BYTES % TWO_64, n % BLOCK_BYTES) == 8 * n % TWO_64
  {
    var q, r := n / BLOCK_BYTES, n % BLOCK_BYTES;
    var k := q / TWO_64;
    assert q == k * TWO_64 + q % TWO_64;
    assert 8 * n == (q % TWO_64 * BLOCK_BYTES + r) * 8 + 512 * k * TWO_64;
    ModMultiple((q % TWO_64 * BLOCK_BYTES + r) * 8, TWO_64, 512 * k);
  }

  lemma LowZero()
    ensures Low(Wide(0, 0)) == Pack32(0, 0, 0, 0)
  {
  }

  /** The words of the length field are its two halves. */
  lemma LengthWords(last: Block, bits: nat)
    requires bits < TWO_64 && last[56..] == BigEndian64(bits)
    ensures WordAt(last, 14) == BigEndianWord(bits / TWO_32) && WordAt(last, 15) == BigEndianWord(bits % TWO_32)
  {
    hide Pack32, BigEndian32;
    var hi, lo := BigEndian32(bits / TWO_32), BigEndian32(bits % TWO_32);
    assert last[56..] == hi + lo;
    assert forall i :: 0 <= i < 4 ==> last[56 + i] == last[56..][i] == hi[i];
    assert forall i :: 0 <= i < 4 ==> last[60 + i] == last[56..][4 + i] == lo[i];
  }

  /** A short tail: the mark, the zeros and the length fit behind it. */
  lemma OneBlock(tail: seq<bv8>, n: nat, bits: nat)
    requires |tail| == n % BLOCK_BYTES <= BLOCK_BYTES - 9 && bits < TWO_64
    ensures var end := tail + Padding(n, BigEndian64(bits));
            var filled := tail + [0x80] + ZeroBytes(BLOCK_BYTES - |tail| - 1);
            && |end| == BLOCK_BYTES
            && WordAt(end, 14) == BigEndianWord(bits / TWO_32) && WordAt(end, 15) == BigEndianWord(bits % TWO_32)
            && forall i :: 0 <= i < 14 ==> WordAt(filled, i) == WordAt(end, i)
  {
    hide BigEndian64, BigEndianWord, Pack32;
    var end := tail + Padding(n, BigEndian64(bits));
    var filled := tail + [0x80] + ZeroBytes(BLOCK_BYTES - |tail| - 1);
    assert end[56..] == BigEndian64(bits);
    LengthWords(end, bits);
    assert forall i :: 0 <= i < 56 ==> filled[i] == end[i];
  }

  /** A long tail: the mark and some zeros complete its block, the other zeros and the length make one more. */
  lemma TwoBlocks(tail: seq<bv8>, n: nat, bits: nat)
    requires BLOCK_BYTES - 9 < |tail| == n % BLOCK_BYTES && bits < TWO_64
    ensures var end := tail + Padding(n, BigEndian64(bits));
            var filled := tail + [0x80] + ZeroBytes(BLOCK_BYTES - |tail| - 1);
            && |end| == 2 * BLOCK_BYTES
            && end[..BLOCK_BYTES] == filled
            && WordAt(end[BLOCK_BYTES..], 14) == BigEndianWord(bits / TWO_32)
            && WordAt(end[BLOCK_BYTES..], 15) == BigEndianWord(bits % TWO_32)
            && forall i :: 0 <= i < 14 ==> WordAt(end[BLOCK_BYTES..], i) == Pack32(0, 0, 0, 0)
  {
    hide BigEndian64, BigEndianWord, Pack32;
    var end := tail + Padding(n, BigEndian64(bits));
    var last := end[BLOCK_BYTES..];
    assert last[56..] == BigEndian64(bits);
    LengthWords(last, bits);
    assert forall i :: 0 <= i < 56 ==> last[i] == 0;
  }

  /** Folding over the one or two blocks at the end. */
  lemma LastBlock(h: Hash, end: seq<bv8>)
    requires |end| == BLOCK_BYTES || |end| == 2 * BLOCK_BYTES
    ensures var last := end[|end| - BLOCK_BYTES..];
            Absorbed(h, end) == if |end| == BLOCK_BYTES then Compress(h, last)
                                else Compress(Compress(h, end[..BLOCK_BYTES]), last)
  {
    hide Compress;
    if |end| == BLOCK_BYTES {
      assert end[0..] == end;
      FoldOne<Hash>(Compress, h, end);
    } else {
      var first, last := end[..BLOCK_BYTES], end[BLOCK_BYTES..];
      assert end == first + last;
      FoldAppend<Hash>(Compress, h, first, last);
      FoldOne<Hash>(Compress, h, first);
      FoldOne<Hash>(Compress, Compress(h, first), last);
    }
  }

  lemma AtStart(h: Hash, words: Words, a: Wide, b: Wide, c: Wide, d: Wide, e: Wide)
    requires h == [Low(a), Low(b), Low(c), Low(d), Low(e)]
    ensures At(h, words, 0, a, b, c, d, e)
  {
  }

  lemma AtEnd(h: Hash, words: Words, a: Wide, b: Wide, c: Wide, d: Wide, e: Wide)
    requires At(h, words, 80, a, b, c, d, e)
    ensures CompressWords(h, words)
      == [Sum(h[0], Low(a)), Sum(h[1], Low(b)), Sum(h[2], Low(c)), Sum(h[3], Low(d)), Sum(h[4], Low(e))]
  {
    hide Low, Sum, Rounds;
  }
}
