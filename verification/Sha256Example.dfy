/**
The example of FIPS 180-4 for SHA-256: the digest of "abc". The words of the
schedule and the two new working variables of every round are written down and
checked one by one.
*/
module Sha256Example {
  import opened Abc
  import opened Bytes
  import opened Blocks
  import opened Sha256

  /** The message schedule. */
  function Scheduled(t: nat): Word {
    match t
    case 0 => Word(0x61626380) case 1 => Word(0x00000000) case 2 => Word(0x00000000) case 3 => Word(0x00000000)
    case 4 => Word(0x00000000) case 5 => Word(0x00000000) case 6 => Word(0x00000000) case 7 => Word(0x00000000)
    case 8 => Word(0x00000000) case 9 => Word(0x00000000) case 10 => Word(0x00000000) case 11 => Word(0x00000000)
    case 12 => Word(0x00000000) case 13 => Word(0x00000000) case 14 => Word(0x00000000) case 15 => Word(0x00000018)
    case 16 => Word(0x61626380) case 17 => Word(0x000f0000) case 18 => Word(0x7da86405) case 19 => Word(0x600003c6)
    case 20 => Word(0x3e9d7b78) case 21 => Word(0x0183fc00) case 22 => Word(0x12dcbfdb) case 23 => Word(0xe2e2c38e)
    case 24 => Word(0xc8215c1a) case 25 => Word(0xb73679a2) case 26 => Word(0xe5bc3909) case 27 => Word(0x32663c5b)
    case 28 => Word(0x9d209d67) case 29 => Word(0xec8726cb) case 30 => Word(0x702138a4) case 31 => Word(0xd3b7973b)
    case 32 => Word(0x93f5997f) case 33 => Word(0x3b68ba73) case 34 => Word(0xaff4ffc1) case 35 => Word(0xf10a5c62)
    case 36 => Word(0x0a8b3996) case 37 => Word(0x72af830a) case 38 => Word(0x9409e33e) case 39 => Word(0x24641522)
    case 40 => Word(0x9f47bf94) case 41 => Word(0xf0a64f5a) case 42 => Word(0x3e246a79) case 43 => Word(0x27333ba3)
    case 44 => Word(0x0c4763f2) case 45 => Word(0x840abf27) case 46 => Word(0x7a290d5d) case 47 => Word(0x065c43da)
    case 48 => Word(0xfb3e89cb) case 49 => Word(0xcc7617db) case 50 => Word(0xb9e66c34) case 51 => Word(0xa9993667)
    case 52 => Word(0x84badedd) case 53 => Word(0xc21462bc) case 54 => Word(0x1487472c) case 55 => Word(0xb20f7a99)
    case 56 => Word(0xef57b9cd) case 57 => Word(0xebe6b238) case 58 => Word(0x9fe3095e) case 59 => Word(0x78bc8d4b)
    case 60 => Word(0xa43fcf15) case 61 => Word(0x668b2ff8) case 62 => Word(0xeeaba2cc) case _ => Word(0x12b1edeb)
  }

  /** The first working variable three rounds ago. */
  function First(t: nat): Word {
    match t
    case 0 => Word(0xa54ff53a) case 1 => Word(0x3c6ef372) case 2 => Word(0xbb67ae85) case 3 => Word(0x6a09e667)
    case 4 => Word(0x5d6aebcd) case 5 => Word(0x5a6ad9ad) case 6 => Word(0xc8c347a7) case 7 => Word(0xd550f666)
    case 8 => Word(0x04409a6a) case 9 => Word(0x2b4209f5) case 10 => Word(0xe5030380) case 11 => Word(0x85a07b5f)
    case 12 => Word(0x8e04ecb9) case 13 => Word(0x8c87346b) case 14 => Word(0x4798a3f4) case 15 => Word(0xf71fc5a9)
    case 16 => Word(0x87912990) case 17 => Word(0xd932eb16) case 18 => Word(0xc0645fde) case 19 => Word(0xb0fa238e)
    case 20 => Word(0x21da9a9b) case 21 => Word(0xc2fbd9d1) case 22 => Word(0xfe777bbf) case 23 => Word(0xe1f20c33)
    case 24 => Word(0x9dc68b63) case 25 => Word(0xc2606d6d) case 26 => Word(0xa7a3623f) case 27 => Word(0xc5d53d8d)
    case 28 => Word(0x1c2c2838) case 29 => Word(0xcde8037d) case 30 => Word(0xb62ec4bc) case 31 => Word(0x77d37528)
    case 32 => Word(0x363482c9) case 33 => Word(0xa0060b30) case 34 => Word(0xea992a22) case 35 => Word(0x73b33bf5)
    case 36 => Word(0x98e12507) case 37 => Word(0xfe604df5) case 38 => Word(0xa9a7738c) case 39 => Word(0x65a0cfe4)
    case 40 => Word(0x41a65cb1) case 41 => Word(0x34df1604) case 42 => Word(0x6dc57a8a) case 43 => Word(0x79ea687a)
    case 44 => Word(0xd6670766) case 45 => Word(0xdf46652f) case 46 => Word(0x17aa0dfe) case 47 => Word(0x9d4baf93)
    case 48 => Word(0x26628815) case 49 => Word(0x72ab4b91) case 50 => Word(0xa14c14b0) case 51 => Word(0x4172328d)
    case 52 => Word(0x05757ceb) case 53 => Word(0xf11bfaa8) case 54 => Word(0x7a0508a1) case 55 => Word(0x886e7a22)
    case 56 => Word(0x101fd28f) case 57 => Word(0xf5702fdb) case 58 => Word(0x3ec45cdb) case 59 => Word(0x38cc9913)
    case 60 => Word(0xfcd1887b) case 61 => Word(0xc062d46f) case 62 => Word(0xffb70472) case 63 => Word(0xb6ae8fff)
    case 64 => Word(0xb85e2ce9) case 65 => Word(0x04d24d6c) case 66 => Word(0xd39a2165) case _ => Word(0x506e3058)
  }

  /** The fifth working variable three rounds ago. */
  function Fifth(t: nat): Word {
    match t
    case 0 => Word(0x5be0cd19) case 1 => Word(0x1f83d9ab) case 2 => Word(0x9b05688c) case 3 => Word(0x510e527f)
    case 4 => Word(0xfa2a4622) case 5 => Word(0x78ce7989) case 6 => Word(0xf92939eb) case 7 => Word(0x24e00850)
    case 8 => Word(0x43ada245) case 9 => Word(0x714260ad) case 10 => Word(0x9b27a401) case 11 => Word(0x0c657a79)
    case 12 => Word(0x32ca2d8c) case 13 => Word(0x1cc92596) case 14 => Word(0x436b23e8) case 15 => Word(0x816fd6e9)
    case 16 => Word(0x1e578218) case 17 => Word(0x745a48de) case 18 => Word(0x0b92f20c) case 19 => Word(0x07590dcd)
    case 20 => Word(0x8034229c) case 21 => Word(0x846ee454) case 22 => Word(0xcc899961) case 23 => Word(0xb0638179)
    case 24 => Word(0x8ada8930) case 25 => Word(0xe1257970) case 26 => Word(0x49f5114a) case 27 => Word(0xaa47c347)
    case 28 => Word(0x2823ef91) case 29 => Word(0x14383d8e) case 30 => Word(0xc74c6516) case 31 => Word(0xedffbff8)
    case 32 => Word(0x6112a3b7) case 33 => Word(0xade79437) case 34 => Word(0x0109ab3a) case 35 => Word(0xba591112)
    case 36 => Word(0x9cd9f5f6) case 37 => Word(0x59249dd3) case 38 => Word(0x085f3833) case 39 => Word(0xf4b002d6)
    case 40 => Word(0x0772a26b) case 41 => Word(0xa507a53d) case 42 => Word(0xf0781bc8) case 43 => Word(0x1efbc0a0)
    case 44 => Word(0x26352d63) case 45 => Word(0x838b2711) case 46 => Word(0xdecd4715) case 47 => Word(0xfda24c2e)
    case 48 => Word(0xa80f11f0) case 49 => Word(0xb7755da1) case 50 => Word(0xd57b94a9) case 51 => Word(0xfecf0bc6)
    case 52 => Word(0xbd714038) case 53 => Word(0x6e5c390c) case 54 => Word(0x52f1ccf7) case 55 => Word(0x49231c1e)
    case 56 => Word(0x529e7d00) case 57 => Word(0x9f4787c3) case 58 => Word(0xe50e1b4f) case 59 => Word(0x54cb266b)
    case 60 => Word(0x9b5e906c) case 61 => Word(0x7e44008e) case 62 => Word(0x6d83bfc6) case 63 => Word(0xb21bad3d)
    case 64 => Word(0x961f4894) case 65 => Word(0x948d25b6) case 66 => Word(0xfb121210) case _ => Word(0x5ef50f24)
  }

  lemma NextWordIs16(t: nat)
    requires 16 <= t < 32
    ensures NextWord(Scheduled(t - 2), Scheduled(t - 7), Scheduled(t - 15), Scheduled(t - 16)) == Scheduled(t)
  {
    match t {
      case 16 => case 17 => case 18 => case 19 => case 20 => case 21 => case 22 => case 23 => case 24 => case 25 =>
      case 26 => case 27 => case 28 => case 29 => case 30 =>
      case _ =>
    }
  }

  lemma NextWordIs32(t: nat)
    requires 32 <= t < 48
    ensures NextWord(Scheduled(t - 2), Scheduled(t - 7), Scheduled(t - 15), Scheduled(t - 16)) == Scheduled(t)
  {
    match t {
      case 32 => case 33 => case 34 => case 35 => case 36 => case 37 => case 38 => case 39 => case 40 => case 41 =>
      case 42 => case 43 => case 44 => case 45 => case 46 =>
      case _ =>
    }
  }

  lemma NextWordIs48(t: nat)
    requires 48 <= t < 64
    ensures NextWord(Scheduled(t - 2), Scheduled(t - 7), Scheduled(t - 15), Scheduled(t - 16)) == Scheduled(t)
  {
    match t {
      case 48 => case 49 => case 50 => case 51 => case 52 => case 53 => case 54 => case 55 => case 56 => case 57 =>
      case 58 => case 59 => case 60 => case 61 => case 62 =>
      case _ =>
    }
  }

  lemma NextWordIs(t: nat)
    requires 16 <= t < 64
    ensures NextWord(Scheduled(t - 2), Scheduled(t - 7), Scheduled(t - 15), Scheduled(t - 16)) == Scheduled(t)
  {
    hide NextWord, Scheduled;
    if t < 32 {
      NextWordIs16(t);
    } else if t < 48 {
      NextWordIs32(t);
    } else {
      NextWordIs48(t);
    }
  }

  /** The first sum of a round. */
  function Temp(t: nat): Word {
    T1(Fifth(t + 3), Fifth(t + 2), Fifth(t + 1), Fifth(t), K(t), Scheduled(t))
  }

  lemma RoundIs0(t: nat)
    requires 0 <= t < 8
    ensures Sum(Temp(t), T2(First(t + 3), First(t + 2), First(t + 1))) == First(t + 4)
    ensures Sum(First(t), Temp(t)) == Fifth(t + 4)
  {
    match t {
      case 0 => case 1 => case 2 => case 3 => case 4 => case 5 => case 6 =>
      case _ =>
    }
  }

  lemma RoundIs8(t: nat)
    requires 8 <= t < 16
    ensures Sum(Temp(t), T2(First(t + 3), First(t + 2), First(t + 1))) == First(t + 4)
    ensures Sum(First(t), Temp(t)) == Fifth(t + 4)
  {
    match t {
      case 8 => case 9 => case 10 => case 11 => case 12 => case 13 => case 14 =>
      case _ =>
    }
  }

  lemma RoundIs16(t: nat)
    requires 16 <= t < 24
    ensures Sum(Temp(t), T2(First(t + 3), First(t + 2), First(t + 1))) == First(t + 4)
    ensures Sum(First(t), Temp(t)) == Fifth(t + 4)
  {
    match t {
      case 16 => case 17 => case 18 => case 19 => case 20 => case 21 => case 22 =>
      case _ =>
    }
  }

  lemma RoundIs24(t: nat)
    requires 24 <= t < 32
    ensures Sum(Temp(t), T2(First(t + 3), First(t + 2), First(t + 1))) == First(t + 4)
    ensures Sum(First(t), Temp(t)) == Fifth(t + 4)
  {
    match t {
      case 24 => case 25 => case 26 => case 27 => case 28 => case 29 => case 30 =>
      case _ =>
    }
  }

  lemma RoundIs32(t: nat)
    requires 32 <= t < 40
    ensures Sum(Temp(t), T2(First(t + 3), First(t + 2), First(t + 1))) == First(t + 4)
    ensures Sum(First(t), Temp(t)) == Fifth(t + 4)
  {
    match t {
      case 32 => case 33 => case 34 => case 35 => case 36 => case 37 => case 38 =>
      case _ =>
    }
  }

  lemma RoundIs40(t: nat)
    requires 40 <= t < 48
    ensures Sum(Temp(t), T2(First(t + 3), First(t + 2), First(t + 1))) == First(t + 4)
    ensures Sum(First(t), Temp(t)) == Fifth(t + 4)
  {
    match t {
      case 40 => case 41 => case 42 => case 43 => case 44 => case 45 => case 46 =>
      case _ =>
    }
  }

  lemma RoundIs48(t: nat)
    requires 48 <= t < 56
    ensures Sum(Temp(t), T2(First(t + 3), First(t + 2), First(t + 1))) == First(t + 4)
    ensures Sum(First(t), Temp(t)) == Fifth(t + 4)
  {
    match t {
      case 48 => case 49 => case 50 => case 51 => case 52 => case 53 => case 54 =>
      case _ =>
    }
  }

  lemma RoundIs56(t: nat)
    requires 56 <= t < 64
    ensures Sum(Temp(t), T2(First(t + 3), First(t + 2), First(t + 1))) == First(t + 4)
    ensures Sum(First(t), Temp(t)) == Fifth(t + 4)
  {
    match t {
      case 56 => case 57 => case 58 => case 59 => case 60 => case 61 => case 62 =>
      case _ =>
    }
  }

  /** The working variables before round t. */
  function Variables(t: nat): Hash {
    [First(t + 3), First(t + 2), First(t + 1), First(t), Fifth(t + 3), Fifth(t + 2), Fifth(t + 1), Fifth(t)]
  }

  lemma RoundIs(t: nat)
    requires t < 64
    ensures Round(Variables(t), K(t), Scheduled(t)) == Variables(t + 1)
  {
    hide T1, T2, Sum, First, Fifth, Scheduled, K;
    if t < 8 {
      RoundIs0(t);
    } else if t < 16 {
      RoundIs8(t);
    } else if t < 24 {
      RoundIs16(t);
    } else if t < 32 {
      RoundIs24(t);
    } else if t < 40 {
      RoundIs32(t);
    } else if t < 48 {
      RoundIs40(t);
    } else if t < 56 {
      RoundIs48(t);
    } else {
      RoundIs56(t);
    }
  }

  lemma {:induction false} ScheduleIs(block: Block, t: nat)
    requires t < 64 && forall i :: 0 <= i < 16 ==> W(block, i) == Scheduled(i)
    ensures W(block, t) == Scheduled(t)
  {
    hide NextWord, Scheduled, Pack32, W;
    if t >= 16 {
      ScheduleIs(block, t - 2);
      ScheduleIs(block, t - 7);
      ScheduleIs(block, t - 15);
      ScheduleIs(block, t - 16);
      WNext(block, t);
      NextWordIs(t);
    }
  }

  lemma {:induction false} RoundsAre(block: Block, t: nat)
    requires t <= 64 && forall i :: 0 <= i < 16 ==> W(block, i) == Scheduled(i)
    ensures Rounds(Variables(0), block, t) == Variables(t)
  {
    hide Round, Variables, Scheduled, W, K;
    if t > 0 {
      RoundsAre(block, t - 1);
      ScheduleIs(block, t - 1);
      RoundIs(t - 1);
    }
  }

  lemma StartIs()
    ensures Variables(0) == INITIAL
  {
  }

  lemma LastFirst(t: nat, w: Word)
    requires || (t == 64 && w == Word(0xb85e2ce9)) || (t == 65 && w == Word(0x04d24d6c))
             || (t == 66 && w == Word(0xd39a2165)) || (t == 67 && w == Word(0x506e3058))
    ensures First(t) == w
  {
    match t {
      case 64 => case 65 => case 66 => case _ =>
    }
  }

  lemma LastFifth(t: nat, w: Word)
    requires || (t == 64 && w == Word(0x961f4894)) || (t == 65 && w == Word(0x948d25b6))
             || (t == 66 && w == Word(0xfb121210)) || (t == 67 && w == Word(0x5ef50f24))
    ensures Fifth(t) == w
  {
    match t {
      case 64 => case 65 => case 66 => case _ =>
    }
  }

  lemma LastSums()
    ensures Sum(Word(0x6a09e667), Word(0x506e3058)) == Word(0xba7816bf)
    ensures Sum(Word(0xbb67ae85), Word(0xd39a2165)) == Word(0x8f01cfea)
    ensures Sum(Word(0x3c6ef372), Word(0x04d24d6c)) == Word(0x414140de)
    ensures Sum(Word(0xa54ff53a), Word(0xb85e2ce9)) == Word(0x5dae2223)
    ensures Sum(Word(0x510e527f), Word(0x5ef50f24)) == Word(0xb00361a3)
    ensures Sum(Word(0x9b05688c), Word(0xfb121210)) == Word(0x96177a9c)
    ensures Sum(Word(0x1f83d9ab), Word(0x948d25b6)) == Word(0xb410ff61)
    ensures Sum(Word(0x5be0cd19), Word(0x961f4894)) == Word(0xf20015ad)
  {
  }

  lemma EndIs()
    ensures AddHash(INITIAL, Variables(64))
         == [Word(0xba7816bf), Word(0x8f01cfea), Word(0x414140de), Word(0x5dae2223),
             Word(0xb00361a3), Word(0x96177a9c), Word(0xb410ff61), Word(0xf20015ad)]
  {
    hide Sum, First, Fifth;
    LastFirst(67, Word(0x506e3058));
    LastFirst(66, Word(0xd39a2165));
    LastFirst(65, Word(0x04d24d6c));
    LastFirst(64, Word(0xb85e2ce9));
    LastFifth(67, Word(0x5ef50f24));
    LastFifth(66, Word(0xfb121210));
    LastFifth(65, Word(0x948d25b6));
    LastFifth(64, Word(0x961f4894));
    LastSums();
  }

  lemma FirstWords()
    ensures Pack32(0x61, 0x62, 0x63, 0x80) == Scheduled(0)
    ensures Pack32(0, 0, 0, 0) == Scheduled(14) && Pack32(0, 0, 0, 24) == Scheduled(15)
  {
  }

  lemma ZeroWord(i: nat)
    requires 0 < i < 14
    ensures Pack32(0, 0, 0, 0) == Scheduled(i)
  {
  }

  lemma WordsAre(block: Block)
    requires block == Padded(ABC)
    ensures forall i :: 0 <= i < 16 ==> W(block, i) == Scheduled(i)
  {
    hide Padding, BigEndian64, W, Scheduled, Pack32;
    PaddedAbc(BigEndian64(24));
    LengthOf24();
    FirstWords();
    forall i | 0 <= i < 16 ensures W(block, i) == Scheduled(i) {
      WFirst(block, i);
      if 0 < i < 14 {
        ZeroWord(i);
      }
    }
  }

  /** The digest in bytes. */
  const ANSWER: seq<bv8> := [
    0xba, 0x78, 0x16, 0xbf, 0x8f, 0x01, 0xcf, 0xea, 0x41, 0x41, 0x40, 0xde, 0x5d, 0xae, 0x22, 0x23,
    0xb0, 0x03, 0x61, 0xa3, 0x96, 0x17, 0x7a, 0x9c, 0xb4, 0x10, 0xff, 0x61, 0xf2, 0x00, 0x15, 0xad
  ]

  lemma AnswerBytes()
    ensures Unpack32(Word(0xba7816bf)) == [0xba, 0x78, 0x16, 0xbf]
    ensures Unpack32(Word(0x8f01cfea)) == [0x8f, 0x01, 0xcf, 0xea]
    ensures Unpack32(Word(0x414140de)) == [0x41, 0x41, 0x40, 0xde]
    ensures Unpack32(Word(0x5dae2223)) == [0x5d, 0xae, 0x22, 0x23]
    ensures Unpack32(Word(0xb00361a3)) == [0xb0, 0x03, 0x61, 0xa3]
    ensures Unpack32(Word(0x96177a9c)) == [0x96, 0x17, 0x7a, 0x9c]
    ensures Unpack32(Word(0xb410ff61)) == [0xb4, 0x10, 0xff, 0x61]
    ensures Unpack32(Word(0xf20015ad)) == [0xf2, 0x00, 0x15, 0xad]
  {
  }

  lemma BytesAre()
    ensures DigestBytes([Word(0xba7816bf), Word(0x8f01cfea), Word(0x414140de), Word(0x5dae2223),
                         Word(0xb00361a3), Word(0x96177a9c), Word(0xb410ff61), Word(0xf20015ad)]) == ANSWER
  {
    hide Unpack32;
    AnswerBytes();
  }

  lemma BlockIs()
    ensures |Padded(ABC)| == BLOCK_BYTES
  {
    hide Padding, BigEndian64;
    PaddedAbc(BigEndian64(24));
  }

  /** The digest that FIPS 180-4 gives for "abc". */
  lemma DigestOfAbc()
    ensures Digest(ABC) == ANSWER
  {
    hide Padded, Scheduled, Variables, Rounds, INITIAL, AddHash, W, DigestBytes, ANSWER;
    var block := Padded(ABC);
    BlockIs();
    WordsAre(block);
    FoldOne<Hash>(Compress, INITIAL, block);
    RoundsAre(block, 64);
    StartIs();
    EndIs();
    BytesAre();
  }
}
