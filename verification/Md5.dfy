/**
MD5: the gateway's buffered digest, with its two-word bit counter and renamed
variables, against the one-shot definition of RFC 1321 section 3.
*/
module Md5 {
  import opened Arithmetic
  import opened Bytes
  import opened Blocks

  type Hash = h: seq<Word> | |h| == 4 witness seq(4, _ => Word(0))

  // ---------------------------------------------------------------------------
  // The standard
  // ---------------------------------------------------------------------------

  const INITIAL: Hash := [Word(0x67452301), Word(0xefcdab89), Word(0x98badcfe), Word(0x10325476)]

  type WordIndex = n: nat | n < 16

  /** The block word that operation t uses. */
  function XAt(t: nat): WordIndex {
    match t
    case 0 => 0 case 1 => 1 case 2 => 2 case 3 => 3 case 4 => 4 case 5 => 5 case 6 => 6 case 7 => 7
    case 8 => 8 case 9 => 9 case 10 => 10 case 11 => 11 case 12 => 12 case 13 => 13 case 14 => 14 case 15 => 15
    case 16 => 1 case 17 => 6 case 18 => 11 case 19 => 0 case 20 => 5 case 21 => 10 case 22 => 15 case 23 => 4
    case 24 => 9 case 25 => 14 case 26 => 3 case 27 => 8 case 28 => 13 case 29 => 2 case 30 => 7 case 31 => 12
    case 32 => 5 case 33 => 8 case 34 => 11 case 35 => 14 case 36 => 1 case 37 => 4 case 38 => 7 case 39 => 10
    case 40 => 13 case 41 => 0 case 42 => 3 case 43 => 6 case 44 => 9 case 45 => 12 case 46 => 15 case 47 => 2
    case 48 => 0 case 49 => 7 case 50 => 14 case 51 => 5 case 52 => 12 case 53 => 3 case 54 => 10 case 55 => 1
    case 56 => 8 case 57 => 15 case 58 => 6 case 59 => 13 case 60 => 4 case 61 => 11 case 62 => 2 case _ => 9
  }

  /** The table of section 3.4. */
  function TAt(t: nat): Word {
    match t
    case 0 => Word(0xd76aa478) case 1 => Word(0xe8c7b756) case 2 => Word(0x242070db) case 3 => Word(0xc1bdceee)
    case 4 => Word(0xf57c0faf) case 5 => Word(0x4787c62a) case 6 => Word(0xa8304613) case 7 => Word(0xfd469501)
    case 8 => Word(0x698098d8) case 9 => Word(0x8b44f7af) case 10 => Word(0xffff5bb1) case 11 => Word(0x895cd7be)
    case 12 => Word(0x6b901122) case 13 => Word(0xfd987193) case 14 => Word(0xa679438e) case 15 => Word(0x49b40821)
    case 16 => Word(0xf61e2562) case 17 => Word(0xc040b340) case 18 => Word(0x265e5a51) case 19 => Word(0xe9b6c7aa)
    case 20 => Word(0xd62f105d) case 21 => Word(0x02441453) case 22 => Word(0xd8a1e681) case 23 => Word(0xe7d3fbc8)
    case 24 => Word(0x21e1cde6) case 25 => Word(0xc33707d6) case 26 => Word(0xf4d50d87) case 27 => Word(0x455a14ed)
    case 28 => Word(0xa9e3e905) case 29 => Word(0xfcefa3f8) case 30 => Word(0x676f02d9) case 31 => Word(0x8d2a4c8a)
    case 32 => Word(0xfffa3942) case 33 => Word(0x8771f681) case 34 => Word(0x6d9d6122) case 35 => Word(0xfde5380c)
    case 36 => Word(0xa4beea44) case 37 => Word(0x4bdecfa9) case 38 => Word(0xf6bb4b60) case 39 => Word(0xbebfbc70)
    case 40 => Word(0x289b7ec6) case 41 => Word(0xeaa127fa) case 42 => Word(0xd4ef3085) case 43 => Word(0x04881d05)
    case 44 => Word(0xd9d4d039) case 45 => Word(0xe6db99e5) case 46 => Word(0x1fa27cf8) case 47 => Word(0xc4ac5665)
    case 48 => Word(0xf4292244) case 49 => Word(0x432aff97) case 50 => Word(0xab9423a7) case 51 => Word(0xfc93a039)
    case 52 => Word(0x655b59c3) case 53 => Word(0x8f0ccc92) case 54 => Word(0xffeff47d) case 55 => Word(0x85845dd1)
    case 56 => Word(0x6fa87e4f) case 57 => Word(0xfe2ce6e0) case 58 => Word(0xa3014314) case 59 => Word(0x4e0811a1)
    case 60 => Word(0xf7537e82) case 61 => Word(0xbd3af235) case 62 => Word(0x2ad7d2bb) case _ => Word(0xeb86d391)
  }

  function F(x: Word, y: Word, z: Word): Word { Word((x.bits & y.bits) | (!x.bits & z.bits)) }

  function G(x: Word, y: Word, z: Word): Word { Word((x.bits & z.bits) | (y.bits & !z.bits)) }

  function H(x: Word, y: Word, z: Word): Word { Word(x.bits ^ y.bits ^ z.bits) }

  function I(x: Word, y: Word, z: Word): Word { Word(y.bits ^ (x.bits | !z.bits)) }

  /** The auxiliary function of operation t. */
  function Auxiliary(t: nat, x: Word, y: Word, z: Word): Word {
    if t < 16 then F(x, y, z) else if t < 32 then G(x, y, z) else if t < 48 then H(x, y, z) else I(x, y, z)
  }

  function Shift(t: nat): bv5 {
    if t < 16 then (match t % 4 case 0 => 7 case 1 => 12 case 2 => 17 case _ => 22)
    else if t < 32 then (match t % 4 case 0 => 5 case 1 => 9 case 2 => 14 case _ => 20)
    else if t < 48 then (match t % 4 case 0 => 4 case 1 => 11 case 2 => 16 case _ => 23)
    else (match t % 4 case 0 => 6 case 1 => 10 case 2 => 15 case _ => 21)
  }

  function RotateLeft(x: Word, n: bv5): Word {
    Word((x.bits << n) | (x.bits >> (32 - (n as bv6))))
  }

  /** a := b + ((a + f(b, c, d) + x + t) <<< s) */
  function Operation(a: Word, b: Word, f: Word, x: Word, s: bv5, ac: Word): Word {
    Sum(RotateLeft(Sum(Sum(Sum(a, f), x), ac), s), b)
  }

  /** Word i of a block, least significant byte first. */
  function WordAt(block: Block, i: nat): Word
    requires i < 16
  {
    Pack32(block[4 * i + 3], block[4 * i + 2], block[4 * i + 1], block[4 * i])
  }

  /** One operation on the registers [A, B, C, D], which then change places. */
  function Round(v: Hash, t: nat, x: Word): Hash
    requires t < 64
  {
    [v[3], Operation(v[0], v[1], Auxiliary(t, v[1], v[2], v[3]), x, Shift(t), TAt(t)), v[1], v[2]]
  }

  function Rounds(v: Hash, block: Block, t: nat): Hash
    requires t <= 64
  {
    if t == 0 then v else Round(Rounds(v, block, t - 1), t - 1, WordAt(block, XAt(t - 1)))
  }

  function AddHash(x: Hash, y: Hash): Hash {
    [Sum(x[0], y[0]), Sum(x[1], y[1]), Sum(x[2], y[2]), Sum(x[3], y[3])]
  }

  function Compress(h: Hash, block: Block): Hash {
    AddHash(h, Rounds(h, block, 64))
  }

  function Absorbed(h: Hash, s: seq<bv8>): Hash {
    Fold<Hash>(Compress, h, s)
  }

  /** Sections 3.1 and 3.2: the length field is the bit count modulo 2^64, low word first. */
  function Padded(m: seq<bv8>): seq<bv8> {
    m + Padding(|m|, LittleEndian64(8 * |m| % TWO_64))
  }

  /** The padded message: its last eight bytes spell the number of bits, least significant first. */
  lemma PaddedShape(m: seq<bv8>)
    ensures var p := Padded(m);
      && |p| % BLOCK_BYTES == 0 && |m| + 9 <= |p| < |m| + 9 + BLOCK_BYTES
      && p[..|m|] == m && p[|m|] == 0x80
      && (forall i :: |m| < i < |p| - 8 ==> p[i] == 0)
      && Spelled(Backwards(p[|p| - 8..])) == 8 * |m| % TWO_64
  {
    hide Padding, Spelled, LittleEndian64, Backwards;
    PaddingShape(m, LittleEndian64(8 * |m| % TWO_64));
    EndianSpelled(8 * |m| % TWO_64);
  }

  function Reversed4(b: seq<bv8>): (r: seq<bv8>)
    requires |b| == 4
    ensures |r| == 4
  {
    [b[3], b[2], b[1], b[0]]
  }

  function DigestBytes(h: Hash): (d: seq<bv8>)
    ensures |d| == 16
  {
    Reversed4(Unpack32(h[0])) + Reversed4(Unpack32(h[1])) + Reversed4(Unpack32(h[2])) + Reversed4(Unpack32(h[3]))
  }

  /** The digest of a whole message. */
  function Digest(m: seq<bv8>): seq<bv8> {
    DigestBytes(Absorbed(INITIAL, Padded(m)))
  }

  // ---------------------------------------------------------------------------
  // The bit counter
  // ---------------------------------------------------------------------------

  /** The low word after adding 8 * length: it wraps, and wrapping is seen by comparing. */
  function CountLow(low: nat, length: nat): nat {
    (low + 8 * length % TWO_32) % TWO_32
  }

  function CountHigh(low: nat, high: nat, length: nat): nat {
    var carried := if CountLow(low, length) < 8 * length % TWO_32 then (high + 1) % TWO_32 else high;
    (carried + length / 0x2000_0000) % TWO_32
  }

  /** The carry is propagated: the two words together count modulo 2^64. */
  lemma CounterAdds(low: nat, high: nat, length: nat)
    requires low < TWO_32 && high < TWO_32 && length < TWO_32
    ensures CountLow(low, length) < TWO_32 && CountHigh(low, high, length) < TWO_32
    ensures CountLow(low, length) + TWO_32 * CountHigh(low, high, length) == (low + TWO_32 * high + 8 * length) % TWO_64
  {
    hide CountLow, CountHigh;
    var add, top := 8 * length % TWO_32, length / 0x2000_0000;
    assert 8 * length == add + TWO_32 * top;
    LowStep(low, length);
    var low' := CountLow(low, length);
    var carry := if low' < add then 1 else 0;
    HighStep(high, carry, top);
    HighIs(low, high, length);
    var sum := high + carry + top;
    var k := sum / TWO_32;
    assert sum == TWO_32 * k + sum % TWO_32;
    Combine(low', sum % TWO_32, k, low + TWO_32 * high + 8 * length);
  }

  /** A number split into two words and what lies above them. */
  lemma Combine(low: nat, high: nat, above: nat, n: nat)
    requires low < TWO_32 && high < TWO_32 && n == low + TWO_32 * high + above * TWO_64
    ensures n % TWO_64 == low + TWO_32 * high
  {
    ModMultiple(low + TWO_32 * high, TWO_64, above);
  }

  lemma LowStep(low: nat, length: nat)
    requires low < TWO_32
    ensures var add, low' := 8 * length % TWO_32, CountLow(low, length);
            low' < TWO_32 && low + add == low' + TWO_32 * (if low' < add then 1 else 0)
  {
  }

  lemma HighStep(high: nat, carry: nat, top: nat)
    requires high < TWO_32 && carry <= 1
    ensures ((high + carry) % TWO_32 + top) % TWO_32 == (high + carry + top) % TWO_32
  {
    var q := (high + carry) / TWO_32;
    assert high + carry + top == ((high + carry) % TWO_32 + top) + q * TWO_32;
    ModMultiple((high + carry) % TWO_32 + top, TWO_32, q);
  }

  lemma HighIs(low: nat, high: nat, length: nat)
    requires high < TWO_32
    ensures var carry := if CountLow(low, length) < 8 * length % TWO_32 then 1 else 0;
            CountHigh(low, high, length) == ((high + carry) % TWO_32 + length / 0x2000_0000) % TWO_32
  {
    hide CountLow;
  }

  /** The counter after n bytes. */
  ghost predicate Counts(low: nat, high: nat, n: nat) {
    low < TWO_32 && high < TWO_32 && low + TWO_32 * high == 8 * n % TWO_64
  }

  lemma CountsAdd(low: nat, high: nat, n: nat, length: nat)
    requires Counts(low, high, n) && length < TWO_32
    ensures Counts(CountLow(low, length), CountHigh(low, high, length), n + length)
  {
    CounterAdds(low, high, length);
    var q := 8 * n / TWO_64;
    assert 8 * n == 8 * n % TWO_64 + q * TWO_64;
    ModMultiple(8 * n % TWO_64 + 8 * length, TWO_64, q);
  }

  /** The buffer index is taken from the counter, not kept beside it. */
  lemma CountsIndex(low: nat, high: nat, n: nat)
    requires Counts(low, high, n)
    ensures low / 8 % BLOCK_BYTES == n % BLOCK_BYTES
  {
    var q := 8 * n / TWO_64;
    assert 8 * n == low + TWO_32 * high + q * TWO_64;
    assert n == low / 8 + 0x2000_0000 * high + q * 0x2000_0000_0000_0000;
    ModMultiple(low / 8, BLOCK_BYTES, 0x80_0000 * high + q * 0x80_0000_0000_0000);
  }

  // ---------------------------------------------------------------------------
  // The loop guard
  // ---------------------------------------------------------------------------

  /** The 32-bit guard of the block loop. */
  predicate Guard(i: nat, length: nat) {
    (i + BLOCK_BYTES) % TWO_32 <= length
  }

  /** A chunk is short enough if the index past its last whole block does not wrap. */
  predicate ShortEnough(index: nat, length: nat)
    requires index < BLOCK_BYTES
  {
    var room := BLOCK_BYTES - index;
    length < room || room + Whole(length - room) + BLOCK_BYTES < TWO_32
  }

  /** The guard means "another whole block is left" at every index reached, exactly for such chunks. */
  lemma GuardIffShortEnough(index: nat, length: nat)
    requires index < BLOCK_BYTES && BLOCK_BYTES - index <= length < TWO_32
    ensures ShortEnough(index, length) <==>
      forall k: nat :: BLOCK_BYTES - index + BLOCK_BYTES * k <= length ==>
        (Guard(BLOCK_BYTES - index + BLOCK_BYTES * k, length)
         <==> BLOCK_BYTES - index + BLOCK_BYTES * k + BLOCK_BYTES <= length)
  {
    var room := BLOCK_BYTES - index;
    var last := (length - room) / BLOCK_BYTES;
    assert Whole(length - room) == BLOCK_BYTES * last;
    if ShortEnough(index, length) {
      forall k: nat | room + BLOCK_BYTES * k <= length
        ensures Guard(room + BLOCK_BYTES * k, length) <==> room + BLOCK_BYTES * k + BLOCK_BYTES <= length
      {
        assert k <= last;
      }
    } else {
      var i := room + BLOCK_BYTES * last;
      assert i + BLOCK_BYTES > length && i <= length;
      assert (i + BLOCK_BYTES) % TWO_32 == i + BLOCK_BYTES - TWO_32;
      assert Guard(room + BLOCK_BYTES * last, length);
    }
  }

  /** The loop never ends for any other chunk: whatever index it reaches, the guard holds. */
  lemma GuardNeverFails(index: nat, length: nat, k: nat)
    requires index < BLOCK_BYTES && BLOCK_BYTES - index <= length < TWO_32 && !ShortEnough(index, length)
    ensures Guard((BLOCK_BYTES - index + BLOCK_BYTES * k) % TWO_32, length)
  {
    var room := BLOCK_BYTES - index;
    var i, last := (room + BLOCK_BYTES * k) % TWO_32, room + Whole(length - room);
    var q, p := (room + BLOCK_BYTES * k) / TWO_32, (length - room) / BLOCK_BYTES;
    assert i == room + BLOCK_BYTES * (k - 0x400_0000 * q);
    assert last == room + BLOCK_BYTES * p;
    assert last + BLOCK_BYTES >= TWO_32 && i < TWO_32;
    assert k - 0x400_0000 * q <= p;
  }

  // ---------------------------------------------------------------------------
  // The renamed variables
  // ---------------------------------------------------------------------------

  /** The four variables, in this order, are the registers A..D before operation t. */
  ghost predicate At(h: Hash, block: Block, t: nat, a: Word, b: Word, c: Word, d: Word)
    requires t <= 64
  {
    Rounds(h, block, t) == [a, b, c, d]
  }

  /** One of the macros FF, GG, HH, II, chosen by the operation number. */
  method Apply(t: nat, a: Word, b: Word, c: Word, d: Word, x: seq<Word>, ghost h: Hash, ghost block: Block)
    returns (a': Word)
    requires t < 64 && |x| == 16 && forall i :: 0 <= i < 16 ==> x[i] == WordAt(block, i)
    requires At(h, block, t, a, b, c, d)
    ensures At(h, block, t + 1, d, a', b, c)
  {
    hide Auxiliary, Shift, XAt, TAt, WordAt, Operation;
    a' := Operation(a, b, Auxiliary(t, b, c, d), x[XAt(t)], Shift(t), TAt(t));
    ghost var v := Rounds(h, block, t);
    assert Rounds(h, block, t + 1) == Round(v, t, WordAt(block, XAt(t)));
  }

  // ---------------------------------------------------------------------------
  // The digest object
  // ---------------------------------------------------------------------------

  class MD5 {
    const state: array<Word>
    const buffer: array<bv8>
    var countLow: nat
    var countHigh: nat
    var digest: seq<bv8>
    var finalized: bool
    /** Every byte taken in so far. */
    ghost var message: seq<bv8>

    ghost predicate Valid()
      reads this, state, buffer
    {
      && state.Length == 4 && buffer.Length == BLOCK_BYTES
      && !finalized
      && Counts(countLow, countHigh, |message|)
      && buffer[..|Tail(message)|] == Tail(message)
      && state[..] == Absorbed(INITIAL, message)
    }

    constructor ()
      ensures Valid() && fresh(state) && fresh(buffer) && message == []
    {
      state := new Word[4];
      buffer := new bv8[BLOCK_BYTES];
      countLow, countHigh := 0, 0;
      digest := [];
      finalized := false;
      message := [];
      new;
      hide INITIAL, Compress;
      forall i | 0 <= i < 4 { state[i] := INITIAL[i]; }
      assert state[..] == INITIAL;
      StreamEmpty<Hash>(Compress, INITIAL);
    }

    /** Takes in one chunk: afterwards the object is where it would be after the concatenation. */
    method Update(chunk: seq<bv8>)
      requires Valid() && |chunk| < TWO_32 && ShortEnough(|message| % BLOCK_BYTES, |chunk|)
      modifies this`countLow, this`countHigh, this`message, state, buffer
      ensures Valid() && message == old(message) + chunk
    {
      hide Compress, INITIAL, Fold, Tail, Counts, Whole, CountLow, CountHigh;
      CountsIndex(countLow, countHigh, |message|);
      var index := countLow / 8 % BLOCK_BYTES;
      CountsAdd(countLow, countHigh, |message|, |chunk|);
      countLow, countHigh := CountLow(countLow, |chunk|), CountHigh(countLow, countHigh, |chunk|);
      var firstPart := BLOCK_BYTES - index;
      ghost var before := message;
      message := message + chunk;
      if |chunk| >= firstPart {
        StreamLong<Hash>(Compress, INITIAL, before, chunk);
        Fill(index, chunk[..firstPart]);
        assert buffer[..BLOCK_BYTES] == buffer[..];
        Transform(buffer[..]);
        TransformRest(chunk, firstPart);
      } else {
        StreamShort<Hash>(Compress, INITIAL, before, chunk);
        Fill(index, chunk);
      }
    }

    /** The whole blocks of a chunk after its first part, and the rest of it into the buffer. */
    method TransformRest(chunk: seq<bv8>, firstPart: nat)
      requires state.Length == 4 && buffer.Length == BLOCK_BYTES
      requires 0 < firstPart <= BLOCK_BYTES && firstPart <= |chunk| < TWO_32
      requires ShortEnough(BLOCK_BYTES - firstPart, |chunk|)
      modifies state, buffer
      ensures var shifted := chunk[firstPart..];
              && state[..] == Absorbed(old(state[..]), shifted[..Whole(|shifted|)])
              && buffer[..|shifted| - Whole(|shifted|)] == shifted[Whole(|shifted|)..]
    {
      hide Compress, Fold, Guard, Whole, ShortEnough;
      ghost var h: Hash := state[..];
      ghost var shifted := chunk[firstPart..];
      StreamEmpty<Hash>(Compress, h);
      var i := firstPart;
      ghost var done := 0;
      while Guard(i, |chunk|)
        invariant i == firstPart + done && i <= |chunk| && done % BLOCK_BYTES == 0
        invariant state[..] == Absorbed(h, shifted[..done])
        decreases |chunk| - i
      {
        GuardIsWhole(firstPart, done, |chunk|);
        FoldNext<Hash>(Compress, h, shifted, done);
        var sub: Block := chunk[i..i + BLOCK_BYTES];
        assert sub == shifted[done..done + BLOCK_BYTES];
        Transform(sub);
        i := i + BLOCK_BYTES;
        done := done + BLOCK_BYTES;
      }
      GuardIsWhole(firstPart, done, |chunk|);
      assert shifted[done..] == chunk[i..];
      Fill(0, chunk[i..]);
    }

    method Fill(k: nat, data: seq<bv8>)
      requires k + |data| <= buffer.Length
      modifies buffer
      ensures buffer[..k + |data|] == old(buffer[..k]) + data
    {
      forall i | 0 <= i < |data| { buffer[k + i] := data[i]; }
    }

    /** One block: the sixty-four macro calls, four at a time, each with the variables renamed round by one. */
    method Transform(block: seq<bv8>)
      requires state.Length == 4 && |block| == BLOCK_BYTES
      modifies state
      ensures state[..] == Compress(old(state[..]), block)
    {
      hide At, Rounds, WordAt, Sum;
      ghost var h: Hash := state[..];
      var x := seq(16, i requires 0 <= i < 16 => WordAt(block, i));
      var a, b, c, d := state[0], state[1], state[2], state[3];
      AtStart(h, block, a, b, c, d);
      var t := 0;
      while t < 64
        invariant 0 <= t <= 64 && t % 4 == 0
        invariant state[..] == h
        invariant At(h, block, t, a, b, c, d)
      {
        a := Apply(t, a, b, c, d, x, h, block);
        d := Apply(t + 1, d, a, b, c, x, h, block);
        c := Apply(t + 2, c, d, a, b, x, h, block);
        b := Apply(t + 3, b, c, d, a, x, h, block);
        t := t + 4;
      }
      AtEnd(h, block, a, b, c, d);
      state[0] := Sum(state[0], a);
      state[1] := Sum(state[1], b);
      state[2] := Sum(state[2], c);
      state[3] := Sum(state[3], d);
      assert state[..] == Compress(h, block);
    }

    /** Ends the message. Once it has ended, further calls change nothing. */
    method Finalize()
      requires Valid() || finalized
      modifies this, state, buffer
      ensures finalized && digest == if old(finalized) then old(digest) else Digest(old(message))
      ensures old(finalized) ==> unchanged(this, state, buffer)
    {
      if !finalized {
        Finish();
      }
    }

    /** Pads through Update itself and stores the digest of everything taken in. */
    method Finish()
      requires Valid()
      modifies this, state, buffer
      ensures finalized && digest == Digest(old(message))
    {
      hide Compress, INITIAL, Fold, Tail, Counts, Absorbed, LittleEndian64, DigestBytes;
      ghost var m := message;
      var bits := CountBytes();
      CountsIndex(countLow, countHigh, |m|);
      var index := countLow / 8 % BLOCK_BYTES;
      var padLen := if index < 56 then 56 - index else 120 - index;
      var padding := [0x80] + ZeroBytes(BLOCK_BYTES - 1);
      Update(padding[..padLen]);
      Update(bits);
      PaddingLength(|m|, padLen);
      assert message == m + Padding(|m|, bits) by {
        assert padding[..padLen] == [0x80] + ZeroBytes(Gap(|m|));
        assert m + padding[..padLen] + bits == m + (padding[..padLen] + bits);
      }
      digest := DigestBytes(state[..]);
      forall i | 0 <= i < BLOCK_BYTES { buffer[i] := 0; }
      countLow, countHigh := 0, 0;
      finalized := true;
    }

    /** The counter as it goes into the padding. */
    method CountBytes() returns (bits: seq<bv8>)
      requires Counts(countLow, countHigh, |message|)
      ensures bits == LittleEndian64(8 * |message| % TWO_64)
    {
      hide LittleEndian32;
      bits := LittleEndian32(countLow) + LittleEndian32(countHigh);
    }
  }

  lemma GuardIsWhole(room: nat, done: nat, length: nat)
    requires 0 < room <= BLOCK_BYTES && room + done <= length < TWO_32 && done % BLOCK_BYTES == 0
    requires ShortEnough(BLOCK_BYTES - room, length)
    ensures Guard(room + done, length) <==> room + done + BLOCK_BYTES <= length
    ensures !Guard(room + done, length) ==> done == Whole(length - room)
  {
  }

  lemma PaddingLength(n: nat, padLen: nat)
    requires padLen == if n % BLOCK_BYTES < 56 then 56 - n % BLOCK_BYTES else 120 - n % BLOCK_BYTES
    ensures padLen == 1 + Gap(n)
  {
  }

  lemma AtStart(h: Hash, block: Block, a: Word, b: Word, c: Word, d: Word)
    requires h == [a, b, c, d]
    ensures At(h, block, 0, a, b, c, d)
  {
  }

  lemma AtEnd(h: Hash, block: Block, a: Word, b: Word, c: Word, d: Word)
    requires At(h, block, 64, a, b, c, d)
    ensures Compress(h, block) == [Sum(h[0], a), Sum(h[1], b), Sum(h[2], c), Sum(h[3], d)]
  {
    hide Sum, Rounds;
  }

  /** One chunk and the end. */
  method DigestOf(text: seq<bv8>) returns (digest: seq<bv8>)
    requires |text| < TWO_32 && ShortEnough(0, |text|)
    ensures digest == Digest(text)
  {
    hide Digest, Compress, INITIAL;
    var md5 := new MD5();
    md5.Update(text);
    assert [] + text == text;
    md5.Finalize();
    digest := md5.digest;
  }

  /** The whole-string helper. The length is passed on as a 32-bit number, which cuts off longer texts. */
  method Md5(text: seq<bv8>) returns (digest: seq<bv8>)
    requires ShortEnough(0, |text| % TWO_32)
    ensures digest == Digest(text[..|text| % TWO_32])
    ensures |text| < TWO_32 ==> digest == Digest(text)
  {
    hide Digest;
    CutOff(text);
    digest := DigestOf(text[..|text| % TWO_32]);
  }

  lemma CutOff(text: seq<bv8>)
    ensures |text| < TWO_32 ==> text[..|text| % TWO_32] == text
  {
  }
}
