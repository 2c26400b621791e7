/**
What the three digests of the gateway have in common: a compression function
folded over 64-byte blocks, with the bytes of the last, incomplete block kept
in a buffer, and a padded final block.
*/
module Blocks {
  import opened Bytes

  const BLOCK_BYTES := 64

  type Block = b: seq<bv8> | |b| == BLOCK_BYTES witness seq(BLOCK_BYTES, _ => 0 as bv8)

  /** Where the last whole block ends. */
  function Whole(n: nat): (w: nat)
    ensures w <= n < w + BLOCK_BYTES && w % BLOCK_BYTES == 0
  {
    n / BLOCK_BYTES * BLOCK_BYTES
  }

  /** The bytes after the last whole block. */
  function Tail(s: seq<bv8>): (t: seq<bv8>)
    ensures |t| == |s| % BLOCK_BYTES
  {
    s[Whole(|s|)..]
  }

  /** The chaining value after every whole block of s. */
  function Fold<H>(f: (H, Block) -> H, h: H, s: seq<bv8>): H
    decreases |s|
  {
    if |s| < BLOCK_BYTES then h else Fold(f, f(h, s[..BLOCK_BYTES]), s[BLOCK_BYTES..])
  }

  /** Folding may stop after any whole block and continue from there. */
  lemma {:induction false} FoldAppend<H>(f: (H, Block) -> H, h: H, s: seq<bv8>, t: seq<bv8>)
    requires |s| % BLOCK_BYTES == 0
    ensures Fold(f, h, s + t) == Fold(f, Fold(f, h, s), t)
    decreases |s|
  {
    if s == [] {
      assert s + t == t;
    } else {
      assert (s + t)[..BLOCK_BYTES] == s[..BLOCK_BYTES];
      assert (s + t)[BLOCK_BYTES..] == s[BLOCK_BYTES..] + t;
      FoldAppend(f, f(h, s[..BLOCK_BYTES]), s[BLOCK_BYTES..], t);
    }
  }

  lemma FoldOne<H>(f: (H, Block) -> H, h: H, s: seq<bv8>)
    requires |s| == BLOCK_BYTES
    ensures Fold(f, h, s) == f(h, s)
  {
    assert s[..BLOCK_BYTES] == s;
  }

  /** One more whole block of s. */
  lemma FoldNext<H>(f: (H, Block) -> H, h: H, s: seq<bv8>, n: nat)
    requires n % BLOCK_BYTES == 0 && n + BLOCK_BYTES <= |s|
    ensures Fold(f, h, s[..n + BLOCK_BYTES]) == f(Fold(f, h, s[..n]), s[n..n + BLOCK_BYTES])
  {
    hide Fold;
    assert s[..n + BLOCK_BYTES] == s[..n] + s[n..n + BLOCK_BYTES];
    FoldAppend(f, h, s[..n], s[n..n + BLOCK_BYTES]);
    FoldOne(f, Fold(f, h, s[..n]), s[n..n + BLOCK_BYTES]);
  }

  /** The incomplete block does not take part in the folding. */
  lemma FoldWhole<H>(f: (H, Block) -> H, h: H, s: seq<bv8>)
    ensures Fold(f, h, s[..Whole(|s|)]) == Fold(f, h, s)
  {
    assert s == s[..Whole(|s|)] + Tail(s);
    FoldAppend(f, h, s[..Whole(|s|)], Tail(s));
  }

  /** Streaming: what the buffer and the new bytes hold together is all that matters for what follows. */
  lemma Stream<H>(f: (H, Block) -> H, h: H, m: seq<bv8>, chunk: seq<bv8>)
    ensures Fold(f, h, m + chunk) == Fold(f, Fold(f, h, m), Tail(m) + chunk)
    ensures Tail(m + chunk) == Tail(Tail(m) + chunk)
  {
    var w := Whole(|m|);
    FoldWhole(f, h, m);
    assert m + chunk == m[..w] + (Tail(m) + chunk);
    FoldAppend(f, h, m[..w], Tail(m) + chunk);
    TailDrop(m[..w], Tail(m) + chunk);
  }

  lemma FoldShort<H>(f: (H, Block) -> H, h: H, s: seq<bv8>)
    requires |s| < BLOCK_BYTES
    ensures Fold(f, h, s) == h
  {
  }

  lemma TailShort(s: seq<bv8>)
    requires |s| < BLOCK_BYTES
    ensures Tail(s) == s
  {
  }

  lemma WholeSplit(n: nat, k: nat)
    ensures Whole(n + k) == Whole(n) + Whole(n % BLOCK_BYTES + k)
  {
  }

  /** A chunk that does not complete the buffered block is only buffered. */
  lemma StreamShort<H>(f: (H, Block) -> H, h: H, m: seq<bv8>, chunk: seq<bv8>)
    requires |Tail(m)| + |chunk| < BLOCK_BYTES
    ensures Fold(f, h, m + chunk) == Fold(f, h, m)
    ensures Tail(m + chunk) == Tail(m) + chunk
    ensures Whole(|m + chunk|) == Whole(|m|)
  {
    hide Fold, Tail;
    Stream(f, h, m, chunk);
    WholeSplit(|m|, |chunk|);
    FoldShort(f, Fold(f, h, m), Tail(m) + chunk);
    TailShort(Tail(m) + chunk);
  }

  /** A longer chunk completes that block, then supplies whole blocks of its own, and the rest is buffered. */
  lemma StreamLong<H>(f: (H, Block) -> H, h: H, m: seq<bv8>, chunk: seq<bv8>)
    requires |Tail(m)| + |chunk| >= BLOCK_BYTES
    ensures var room := BLOCK_BYTES - |Tail(m)|;
            var first, shifted := Tail(m) + chunk[..room], chunk[room..];
            && Fold(f, h, m + chunk) == Fold(f, f(Fold(f, h, m), first), shifted[..Whole(|shifted|)])
            && Tail(m + chunk) == shifted[Whole(|shifted|)..]
            && Whole(|m + chunk|) == Whole(|m|) + BLOCK_BYTES + Whole(|shifted|)
  {
    hide Fold, Tail;
    var room := BLOCK_BYTES - |Tail(m)|;
    var first, shifted := Tail(m) + chunk[..room], chunk[room..];
    WholeSplit(|m|, |chunk|);
    Stream(f, h, m, chunk);
    assert Tail(m) + chunk == first + shifted;
    FoldAppend(f, Fold(f, h, m), first, shifted);
    FoldOne(f, Fold(f, h, m), first);
    FoldWhole(f, f(Fold(f, h, m), first), shifted);
    TailDrop(first, shifted);
    TailIs(shifted);
  }

  lemma TailIs(s: seq<bv8>)
    ensures Tail(s) == s[Whole(|s|)..]
  {
  }

  lemma StreamEmpty<H>(f: (H, Block) -> H, h: H)
    ensures Fold(f, h, []) == h && Tail([]) == [] && Whole(0) == 0
  {
  }

  lemma TailDrop(s: seq<bv8>, t: seq<bv8>)
    requires |s| % BLOCK_BYTES == 0
    ensures Tail(s + t) == Tail(t)
  {
    assert Whole(|s| + |t|) == |s| + Whole(|t|);
  }

  // ---------------------------------------------------------------------------
  // Padding
  // ---------------------------------------------------------------------------

  /** The fewest zero bytes that leave room for the mark and an eight-byte length. */
  function Gap(n: nat): (k: nat)
    ensures k < BLOCK_BYTES && (n + 1 + k + 8) % BLOCK_BYTES == 0
  {
    (119 - n % BLOCK_BYTES) % BLOCK_BYTES
  }

  /** A message of length n ends in a mark, zeros and its length field. */
  function Padding(n: nat, length: seq<bv8>): (p: seq<bv8>)
    requires |length| == 8
    ensures (n + |p|) % BLOCK_BYTES == 0
  {
    [0x80] + ZeroBytes(Gap(n)) + length
  }

  /** What padding does: the mark, the fewest zeros that complete a block, and the length field. */
  lemma PaddingShape(m: seq<bv8>, length: seq<bv8>)
    requires |length| == 8
    ensures var p := m + Padding(|m|, length);
      && |p| % BLOCK_BYTES == 0 && |m| + 9 <= |p| < |m| + 9 + BLOCK_BYTES
      && p[..|m|] == m && p[|m|] == 0x80
      && (forall i :: |m| < i < |p| - 8 ==> p[i] == 0)
      && p[|p| - 8..] == length
  {
    hide Gap;
  }

  /** A padded message is a whole number of blocks: the last, incomplete block and the padding complete it. */
  lemma StreamPadding<H>(f: (H, Block) -> H, h: H, m: seq<bv8>, length: seq<bv8>)
    requires |length| == 8
    ensures Fold(f, h, m + Padding(|m|, length)) == Fold(f, Fold(f, h, m), Tail(m) + Padding(|m|, length))
    ensures |Tail(m) + Padding(|m|, length)| == if BLOCK_BYTES - 9 < |Tail(m)| then 2 * BLOCK_BYTES else BLOCK_BYTES
  {
    hide Fold, Tail, Gap;
    Stream(f, h, m, Padding(|m|, length));
    GapIs(|m|);
  }

  /** The mark and the length field fit the last block, or need one more. */
  lemma GapIs(n: nat)
    ensures n % BLOCK_BYTES + 9 + Gap(n) == if BLOCK_BYTES - 9 < n % BLOCK_BYTES then 2 * BLOCK_BYTES else BLOCK_BYTES
  {
  }

  /** A buffer that holds the incomplete block, the mark, zeros and the length field is that block padded. */
  lemma PaddedBuffer(buffer: seq<bv8>, tail: seq<bv8>, n: nat, length: seq<bv8>)
    requires |tail| == n % BLOCK_BYTES && |length| == 8
    requires |buffer| == if BLOCK_BYTES - 9 < |tail| then 2 * BLOCK_BYTES else BLOCK_BYTES
    requires forall i :: 0 <= i < |tail| ==> buffer[i] == tail[i]
    requires buffer[|tail|] == 0x80
    requires forall i :: |tail| < i < |buffer| - 8 ==> buffer[i] == 0
    requires forall i :: 0 <= i < 8 ==> buffer[|buffer| - 8 + i] == length[i]
    ensures buffer == tail + Padding(n, length)
  {
    var p := tail + Padding(n, length);
    assert |p| == |buffer|;
    forall i | 0 <= i < |p| ensures p[i] == buffer[i] {
      if |buffer| - 8 <= i {
        assert p[i] == length[i - (|buffer| - 8)];
        assert buffer[|buffer| - 8 + (i - (|buffer| - 8))] == length[i - (|buffer| - 8)];
      }
    }
  }
}
