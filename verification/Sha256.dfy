/**
SHA-256: the buffered, incremental digest of the gateway against the one-shot
definition of FIPS 180-4 sections 5.1.1 and 6.2.
*/
module Sha256 {
  import opened Arithmetic
  import opened Bytes
  import opened Blocks

  type Hash = h: seq<Word> | |h| == 8 witness seq(8, _ => Word(0))

  /** The constants of section 4.2.2. */
  function K(t: nat): Word {
    match t
    case 0 => Word(0x428a2f98) case 1 => Word(0x71374491) case 2 => Word(0xb5c0fbcf) case 3 => Word(0xe9b5dba5)
    case 4 => Word(0x3956c25b) case 5 => Word(0x59f111f1) case 6 => Word(0x923f82a4) case 7 => Word(0xab1c5ed5)
    case 8 => Word(0xd807aa98) case 9 => Word(0x12835b01) case 10 => Word(0x243185be) case 11 => Word(0x550c7dc3)
    case 12 => Word(0x72be5d74) case 13 => Word(0x80deb1fe) case 14 => Word(0x9bdc06a7) case 15 => Word(0xc19bf174)
    case 16 => Word(0xe49b69c1) case 17 => Word(0xefbe4786) case 18 => Word(0x0fc19dc6) case 19 => Word(0x240ca1cc)
    case 20 => Word(0x2de92c6f) case 21 => Word(0x4a7484aa) case 22 => Word(0x5cb0a9dc) case 23 => Word(0x76f988da)
    case 24 => Word(0x983e5152) case 25 => Word(0xa831c66d) case 26 => Word(0xb00327c8) case 27 => Word(0xbf597fc7)
    case 28 => Word(0xc6e00bf3) case 29 => Word(0xd5a79147) case 30 => Word(0x06ca6351) case 31 => Word(0x14292967)
    case 32 => Word(0x27b70a85) case 33 => Word(0x2e1b2138) case 34 => Word(0x4d2c6dfc) case 35 => Word(0x53380d13)
    case 36 => Word(0x650a7354) case 37 => Word(0x766a0abb) case 38 => Word(0x81c2c92e) case 39 => Word(0x92722c85)
    case 40 => Word(0xa2bfe8a1) case 41 => Word(0xa81a664b) case 42 => Word(0xc24b8b70) case 43 => Word(0xc76c51a3)
    case 44 => Word(0xd192e819) case 45 => Word(0xd6990624) case 46 => Word(0xf40e3585) case 47 => Word(0x106aa070)
    case 48 => Word(0x19a4c116) case 49 => Word(0x1e376c08) case 50 => Word(0x2748774c) case 51 => Word(0x34b0bcb5)
    case 52 => Word(0x391c0cb3) case 53 => Word(0x4ed8aa4a) case 54 => Word(0x5b9cca4f) case 55 => Word(0x682e6ff3)
    case 56 => Word(0x748f82ee) case 57 => Word(0x78a5636f) case 58 => Word(0x84c87814) case 59 => Word(0x8cc70208)
    case 60 => Word(0x90befffa) case 61 => Word(0xa4506ceb) case 62 => Word(0xbef9a3f7) case _ => Word(0xc67178f2)
  }

  const INITIAL: Hash := [
    Word(0x6a09e667), Word(0xbb67ae85), Word(0x3c6ef372), Word(0xa54ff53a),
    Word(0x510e527f), Word(0x9b05688c), Word(0x1f83d9ab), Word(0x5be0cd19)
  ]

  // ---------------------------------------------------------------------------
  // The standard
  // ---------------------------------------------------------------------------

  function RotR(x: bv32, n: bv5): bv32 { (x >> n) | (x << (32 - (n as bv6))) }

  function Ch(x: Word, y: Word, z: Word): Word { Word((x.bits & y.bits) ^ (!x.bits & z.bits)) }

  function Maj(x: Word, y: Word, z: Word): Word { Word((x.bits & y.bits) ^ (x.bits & z.bits) ^ (y.bits & z.bits)) }

  function BigSigma0(x: Word): Word { Word(RotR(x.bits, 2) ^ RotR(x.bits, 13) ^ RotR(x.bits, 22)) }

  function BigSigma1(x: Word): Word { Word(RotR(x.bits, 6) ^ RotR(x.bits, 11) ^ RotR(x.bits, 25)) }

  function SmallSigma0(x: Word): Word { Word(RotR(x.bits, 7) ^ RotR(x.bits, 18) ^ (x.bits >> 3)) }

  function SmallSigma1(x: Word): Word { Word(RotR(x.bits, 17) ^ RotR(x.bits, 19) ^ (x.bits >> 10)) }

  function NextWord(w2: Word, w7: Word, w15: Word, w16: Word): Word {
    Sum(Sum(Sum(SmallSigma1(w2), w7), SmallSigma0(w15)), w16)
  }

  /** Word t of the message schedule. */
  function W(block: Block, t: nat): Word
    requires t < 64
  {
    if t < 16 then Pack32(block[4 * t], block[4 * t + 1], block[4 * t + 2], block[4 * t + 3])
    else NextWord(W(block, t - 2), W(block, t - 7), W(block, t - 15), W(block, t - 16))
  }

  lemma WFirst(block: Block, t: nat)
    requires t < 16
    ensures W(block, t) == Pack32(block[4 * t], block[4 * t + 1], block[4 * t + 2], block[4 * t + 3])
  {
  }

  lemma WNext(block: Block, t: nat)
    requires 16 <= t < 64
    ensures W(block, t) == NextWord(W(block, t - 2), W(block, t - 7), W(block, t - 15), W(block, t - 16))
  {
  }

  function T1(e: Word, f: Word, g: Word, h: Word, k: Word, w: Word): Word {
    Sum(Sum(Sum(Sum(h, BigSigma1(e)), Ch(e, f, g)), k), w)
  }

  function T2(a: Word, b: Word, c: Word): Word { Sum(BigSigma0(a), Maj(a, b, c)) }

  /** One round on the working variables a..h. */
  function Round(v: Hash, k: Word, w: Word): Hash {
    var t1 := T1(v[4], v[5], v[6], v[7], k, w);
    [Sum(t1, T2(v[0], v[1], v[2])), v[0], v[1], v[2], Sum(v[3], t1), v[4], v[5], v[6]]
  }

  function Rounds(v: Hash, block: Block, t: nat): Hash
    requires t <= 64
  {
    if t == 0 then v else Round(Rounds(v, block, t - 1), K(t - 1), W(block, t - 1))
  }

  function AddHash(x: Hash, y: Hash): Hash {
    [Sum(x[0], y[0]), Sum(x[1], y[1]), Sum(x[2], y[2]), Sum(x[3], y[3]),
     Sum(x[4], y[4]), Sum(x[5], y[5]), Sum(x[6], y[6]), Sum(x[7], y[7])]
  }

  function Compress(h: Hash, block: Block): Hash {
    AddHash(h, Rounds(h, block, 64))
  }

  /** The chaining value after every whole block of s. */
  function Absorbed(h: Hash, s: seq<bv8>): Hash {
    Fold<Hash>(Compress, h, s)
  }

  function DigestBytes(h: Hash): (d: seq<bv8>)
    ensures |d| == 32
  {
    Unpack32(h[0]) + Unpack32(h[1]) + Unpack32(h[2]) + Unpack32(h[3])
    + Unpack32(h[4]) + Unpack32(h[5]) + Unpack32(h[6]) + Unpack32(h[7])
  }

  /** Section 5.1.1: the length field is the number of bits, in 64 bits. */
  function Padded(m: seq<bv8>): seq<bv8>
    requires 8 * |m| < TWO_64
  {
    m + Padding(|m|, BigEndian64(8 * |m|))
  }

  /** The padded message: its last eight bytes spell the number of bits, most significant first. */
  lemma PaddedShape(m: seq<bv8>)
    requires 8 * |m| < TWO_64
    ensures var p := Padded(m);
      && |p| % BLOCK_BYTES == 0 && |m| + 9 <= |p| < |m| + 9 + BLOCK_BYTES
      && p[..|m|] == m && p[|m|] == 0x80
      && (forall i :: |m| < i < |p| - 8 ==> p[i] == 0)
      && Spelled(p[|p| - 8..]) == 8 * |m|
  {
    hide Padding, Spelled, BigEndian64;
    PaddingShape(m, BigEndian64(8 * |m|));
    EndianSpelled(8 * |m|);
  }

  /** The digest of a whole message. */
  function Digest(m: seq<bv8>): seq<bv8>
    requires 8 * |m| < TWO_64
  {
    DigestBytes(Absorbed(INITIAL, Padded(m)))
  }

  /** What the gateway pads with: only the low 32 bits of the length are written. */
  function ShortPadded(m: seq<bv8>): seq<bv8> {
    m + Padding(|m|, BigEndian32(0) + BigEndian32(8 * |m| % TWO_32))
  }

  /** The gateway's padding is the standard's exactly for messages under 2^29 bytes. */
  lemma ShortPaddedIffShort(m: seq<bv8>)
    requires 8 * |m| < TWO_64
    ensures ShortPadded(m) == Padded(m) <==> |m| < 0x2000_0000
  {
    hide Value, ToByte, BigEndian32;
    var bits := 8 * |m|;
    BigEndianZero(bits / TWO_32);
    var short, full := BigEndian32(0) + BigEndian32(bits % TWO_32), BigEndian64(bits);
    assert bits / TWO_32 == 0 <==> |m| < 0x2000_0000;
    if ShortPadded(m) == Padded(m) {
      var n := |m| + 1 + Gap(|m|);
      assert ShortPadded(m)[n..] == short && Padded(m)[n..] == full;
      assert short[..4] == BigEndian32(0) && full[..4] == BigEndian32(bits / TWO_32);
    }
  }

  // ---------------------------------------------------------------------------
  // The digest object
  // ---------------------------------------------------------------------------

  class SHA256 {
    const state: array<Word>
    const block: array<bv8>
    var len: nat
    var totalLen: nat
    /** Every byte taken in so far. */
    ghost var message: seq<bv8>

    ghost predicate Valid()
      reads this, state, block
    {
      && state.Length == 8 && block.Length == 2 * BLOCK_BYTES
      && len == |Tail(message)|
      && block[..len] == Tail(message)
      && totalLen == Whole(|message|) % TWO_32
      && state[..] == Absorbed(INITIAL, message)
    }

    constructor ()
      ensures Valid() && fresh(state) && fresh(block) && message == []
    {
      state := new Word[8];
      block := new bv8[2 * BLOCK_BYTES];
      len := 0;
      totalLen := 0;
      message := [];
      new;
      hide INITIAL, Compress;
      forall i | 0 <= i < 8 { state[i] := INITIAL[i]; }
      assert state[..] == INITIAL;
      StreamEmpty<Hash>(Compress, INITIAL);
    }

    /** Takes in one chunk: afterwards the object is where it would be after the concatenation. */
    method Update(chunk: seq<bv8>)
      requires Valid() && |chunk| < 0x8000_0000
      modifies this, state, block
      ensures Valid() && message == old(message) + chunk
    {
      hide Compress, INITIAL, Tail, Fold, Whole;
      var room := BLOCK_BYTES - len;
      var rem := if |chunk| < room then |chunk| else room;
      ghost var before := message;
      message := message + chunk;
      Buffer(len, chunk[..rem]);
      if len + |chunk| < BLOCK_BYTES {
        StreamShort<Hash>(Compress, INITIAL, before, chunk);
        len := len + |chunk|;
        return;
      }
      StreamLong<Hash>(Compress, INITIAL, before, chunk);
      var newLen := |chunk| - rem;
      var blocks := newLen / BLOCK_BYTES;
      var shifted := chunk[rem..];
      BlockCount(Whole(|before|), newLen);
      TransformBuffer();
      Transform(shifted, blocks);
      assert state[..] == Absorbed(INITIAL, message);
      rem := newLen % BLOCK_BYTES;
      Buffer(0, shifted[blocks * BLOCK_BYTES..]);
      len := rem;
      totalLen := (totalLen + (blocks + 1) * BLOCK_BYTES) % TWO_32;
    }

    /** Compresses the completed buffer. */
    method TransformBuffer()
      requires state.Length == 8 && block.Length == 2 * BLOCK_BYTES
      modifies state
      ensures state[..] == Compress(old(state[..]), block[..BLOCK_BYTES])
    {
      hide Compress, Fold;
      ghost var h: Hash := state[..];
      var first := block[..BLOCK_BYTES];
      Transform(first, 1);
      assert first[..BLOCK_BYTES * 1] == first;
      FoldOne<Hash>(Compress, h, first);
    }

    /** Copies bytes into the buffer, after the first k. */
    method Buffer(k: nat, data: seq<bv8>)
      requires k + |data| <= block.Length
      modifies block
      ensures block[..k + |data|] == old(block[..k]) + data
    {
      forall i | 0 <= i < |data| { block[k + i] := data[i]; }
    }

    /** Pads and writes the digest of everything taken in. */
    method Final(digest: array<bv8>)
      requires Valid() && digest.Length == 32 && digest != block
      modifies state, block, digest
      ensures digest[..] == DigestBytes(Absorbed(INITIAL, ShortPadded(message)))
    {
      hide Compress, INITIAL, BigEndian32, Fold, DigestBytes, Whole, Tail;
      BitCount(|message|, totalLen, len);
      TailLength(message);
      var blocks := 1 + (if BLOCK_BYTES - 9 < len % BLOCK_BYTES then 1 else 0);
      var bits := (totalLen + len) * 8 % TWO_32;
      var padded := blocks * BLOCK_BYTES;
      WriteEnd(padded, bits, |message|);
      StreamPadding<Hash>(Compress, INITIAL, message, BigEndian32(0) + BigEndian32(bits));
      Transform(block[..padded], blocks);
      assert block[..padded][..BLOCK_BYTES * blocks] == block[..padded];
      Output(digest);
    }

    /** Writes the zeros, the mark and the length field after the buffered bytes. */
    method WriteEnd(padded: nat, bits: nat, ghost n: nat)
      requires block.Length == 2 * BLOCK_BYTES && len == n % BLOCK_BYTES && bits < TWO_32
      requires padded == if BLOCK_BYTES - 9 < len then 2 * BLOCK_BYTES else BLOCK_BYTES
      modifies block
      ensures block[..padded] == old(block[..len]) + Padding(n, BigEndian32(0) + BigEndian32(bits))
    {
      hide BigEndian32, Padding;
      ghost var tail := block[..len];
      forall i | len <= i < padded { block[i] := 0; }
      block[len] := 0x80;
      var field := BigEndian32(bits);
      block[padded - 4], block[padded - 3] := field[0], field[1];
      block[padded - 2], block[padded - 1] := field[2], field[3];
      ghost var buffer := block[..padded];
      assert forall i :: 0 <= i < |tail| ==> buffer[i] == tail[i];
      assert forall i :: |tail| < i < padded - 4 ==> buffer[i] == 0;
      ZeroField();
      EndField(buffer, field);
      PaddedBuffer(buffer, tail, n, BigEndian32(0) + field);
    }

    /** Writes the chaining value, most significant byte of each word first. */
    method Output(digest: array<bv8>)
      requires state.Length == 8 && digest.Length == 32
      modifies digest
      ensures digest[..] == DigestBytes(state[..])
    {
      hide Unpack32;
      ghost var d := DigestBytes(state[..]);
      for i := 0 to 8
        invariant forall k :: 0 <= k < 4 * i ==> digest[k] == d[k]
      {
        var u := Unpack32(state[i]);
        assert u == d[4 * i..4 * i + 4];
        digest[4 * i], digest[4 * i + 1], digest[4 * i + 2], digest[4 * i + 3] := u[0], u[1], u[2], u[3];
      }
      assert digest[..] == d;
    }

    /** Runs the compression function over the first blocks of the data. */
    method Transform(data: seq<bv8>, blocks: nat)
      requires state.Length == 8 && blocks * BLOCK_BYTES <= |data|
      modifies state
      ensures state[..] == Absorbed(old(state[..]), data[..BLOCK_BYTES * blocks])
    {
      hide Compress, Fold;
      ghost var h: Hash := state[..];
      StreamEmpty<Hash>(Compress, h);
      for i := 0 to blocks
        invariant state[..] == Absorbed(h, data[..BLOCK_BYTES * i])
      {
        var sub: Block := data[BLOCK_BYTES * i..BLOCK_BYTES * (i + 1)];
        FoldNext<Hash>(Compress, h, data, BLOCK_BYTES * i);
        TransformBlock(sub);
      }
    }

    method TransformBlock(sub: Block)
      requires state.Length == 8
      modifies state
      ensures state[..] == Compress(old(state[..]), sub)
    {
      hide Rounds, AddHash;
      ghost var h: Hash := state[..];
      var w := Expand(sub);
      var wv := new Word[8];
      forall j | 0 <= j < 8 { wv[j] := state[j]; }
      assert wv[..] == h;
      Mix(wv, w, sub);
      assert wv[..] == Rounds(h, sub, 64) && state[..] == h;
      AddWorking(wv);
    }

    method AddWorking(wv: array<Word>)
      requires state.Length == wv.Length == 8 && state != wv
      modifies state
      ensures state[..] == AddHash(old(state[..]), wv[..])
    {
      hide Sum;
      for j := 0 to 8
        invariant forall k :: 0 <= k < j ==> state[k] == Sum(old(state[k]), wv[k])
        invariant forall k :: j <= k < 8 ==> state[k] == old(state[k])
      {
        state[j] := Sum(state[j], wv[j]);
      }
      assert state[..] == AddHash(old(state[..]), wv[..]);
    }

    /** The message schedule. */
    method Expand(sub: Block) returns (w: array<Word>)
      ensures fresh(w) && w.Length == 64
      ensures forall t :: 0 <= t < 64 ==> w[t] == W(sub, t)
    {
      hide W, Pack32, NextWord;
      w := new Word[64];
      for j := 0 to 16
        invariant forall t :: 0 <= t < j ==> w[t] == W(sub, t)
      {
        WFirst(sub, j);
        w[j] := Pack32(sub[4 * j], sub[4 * j + 1], sub[4 * j + 2], sub[4 * j + 3]);
      }
      for j := 16 to 64
        invariant forall t :: 0 <= t < j ==> w[t] == W(sub, t)
      {
        WNext(sub, j);
        w[j] := NextWord(w[j - 2], w[j - 7], w[j - 15], w[j - 16]);
      }
    }

    /** The sixty-four rounds, on the working variables in place. */
    method Mix(wv: array<Word>, w: array<Word>, ghost sub: Block)
      requires wv.Length == 8 && w.Length == 64 && wv != w
      requires forall t :: 0 <= t < 64 ==> w[t] == W(sub, t)
      modifies wv
      ensures wv[..] == Rounds(old(wv[..]), sub, 64)
    {
      hide W, T1, T2, Sum, K;
      ghost var start: Hash := wv[..];
      for j := 0 to 64
        invariant wv[..] == Rounds(start, sub, j)
      {
        ghost var v: Hash := wv[..];
        var t1 := T1(wv[4], wv[5], wv[6], wv[7], K(j), w[j]);
        var t2 := T2(wv[0], wv[1], wv[2]);
        wv[7] := wv[6];
        wv[6] := wv[5];
        wv[5] := wv[4];
        wv[4] := Sum(wv[3], t1);
        wv[3] := wv[2];
        wv[2] := wv[1];
        wv[1] := wv[0];
        wv[0] := Sum(t1, t2);
        assert wv[..] == Round(v, K(j), W(sub, j));
      }
    }
  }

  lemma BitCount(n: nat, total: nat, len: nat)
    requires len == n - Whole(n) && total == Whole(n) % TWO_32
    ensures (total + len) * 8 % TWO_32 == 8 * n % TWO_32
  {
    hide Whole;
    var q := Whole(n) / TWO_32;
    assert Whole(n) == TWO_32 * q + total;
    assert 8 * n == (total + len) * 8 + 8 * q * TWO_32;
    ModMultiple((total + len) * 8, TWO_32, 8 * q);
  }

  lemma TailLength(s: seq<bv8>)
    ensures |Tail(s)| == |s| % BLOCK_BYTES == |s| - Whole(|s|)
  {
  }

  lemma BlockCount(w: nat, n: nat)
    ensures Whole(n) == n / BLOCK_BYTES * BLOCK_BYTES && n % BLOCK_BYTES == n - Whole(n)
    ensures (w % TWO_32 + (n / BLOCK_BYTES + 1) * BLOCK_BYTES) % TWO_32 == (w + BLOCK_BYTES + Whole(n)) % TWO_32
  {
  }

  lemma EndField(buffer: seq<bv8>, field: seq<bv8>)
    requires |field| == 4 && |buffer| >= BLOCK_BYTES
    requires forall i :: |buffer| - 8 <= i < |buffer| - 4 ==> buffer[i] == 0
    requires buffer[|buffer| - 4] == field[0] && buffer[|buffer| - 3] == field[1]
    requires buffer[|buffer| - 2] == field[2] && buffer[|buffer| - 1] == field[3]
    ensures forall i :: 0 <= i < 8 ==> buffer[|buffer| - 8 + i] == (BigEndian32(0) + field)[i]
  {
    hide BigEndian32;
    ZeroField();
  }

  lemma ZeroField()
    ensures BigEndian32(0) == ZeroBytes(4)
  {
    assert ToByte(0) == 0;
  }

  /** The whole-string helper: one update, then the digest; the standard's value for every string
      under 2^29 bytes. */
  method Sha256(input: seq<bv8>) returns (digest: array<bv8>)
    requires |input| < 0x8000_0000
    ensures digest[..] == DigestBytes(Absorbed(INITIAL, ShortPadded(input)))
    ensures |input| < 0x2000_0000 ==> digest[..] == Digest(input)
  {
    hide Compress, ShortPadded, Padded, DigestBytes, INITIAL, Fold;
    digest := new bv8[32];
    var ctx := new SHA256();
    ctx.Update(input);
    assert [] + input == input;
    ctx.Final(digest);
    ShortPaddedIffShort(input);
  }
}
