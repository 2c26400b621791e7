/**
The example of FIPS 180-4 for SHA-1: the digest of "abc". The words of the
schedule and the first working variable of every step are written down and
checked one by one.
*/
module Sha1Example {
  import opened Abc
  import opened Bytes
  import opened Blocks
  import opened Sha1

  /** The message schedule. */
  function Scheduled(t: nat): Word {
    match t
    case 0 => Word(0x61626380) case 1 => Word(0x00000000) case 2 => Word(0x00000000) case 3 => Word(0x00000000)
    case 4 => Word(0x00000000) case 5 => Word(0x00000000) case 6 => Word(0x00000000) case 7 => Word(0x00000000)
    case 8 => Word(0x00000000) case 9 => Word(0x00000000) case 10 => Word(0x00000000) case 11 => Word(0x00000000)
    case 12 => Word(0x00000000) case 13 => Word(0x00000000) case 14 => Word(0x00000000) case 15 => Word(0x00000018)
    case 16 => Word(0xc2c4c700) case 17 => Word(0x00000000) case 18 => Word(0x00000030) case 19 => Word(0x85898e01)
    case 20 => Word(0x00000000) case 21 => Word(0x00000060) case 22 => Word(0x0b131c03) case 23 => Word(0x00000030)
    case 24 => Word(0x85898ec1) case 25 => Word(0x16263806) case 26 => Word(0x00000000) case 27 => Word(0x00000180)
    case 28 => Word(0x2c4c700c) case 29 => Word(0x000000f0) case 30 => Word(0x93afb507) case 31 => Word(0x5898e048)
    case 32 => Word(0x8e9a9202) case 33 => Word(0x00000600) case 34 => Word(0xb131c0f0) case 35 => Word(0x16263bc6)
    case 36 => Word(0x4ebed41e) case 37 => Word(0x626380a1) case 38 => Word(0x16263806) case 39 => Word(0x000018c0)
    case 40 => Word(0xd2e138c4) case 41 => Word(0x00000f00) case 42 => Word(0x3afb5079) case 43 => Word(0x898e04e5)
    case 44 => Word(0xe2ba3c2b) case 45 => Word(0x000060c0) case 46 => Word(0x053a37cd) case 47 => Word(0x74458547)
    case 48 => Word(0xda9415ed) case 49 => Word(0x26380a16) case 50 => Word(0x626383a1) case 51 => Word(0x4ebf54de)
    case 52 => Word(0x3835b44b) case 53 => Word(0x0000f600) case 54 => Word(0x1e84c7a3) case 55 => Word(0x98e04d98)
    case 56 => Word(0x651d16a0) case 57 => Word(0x62658ca1) case 58 => Word(0x458544d6) case 59 => Word(0x44584cb7)
    case 60 => Word(0x7ba06619) case 61 => Word(0x6380aea2) case 62 => Word(0x0ae55269) case 63 => Word(0x627b49a1)
    case 64 => Word(0x7cd45c9d) case 65 => Word(0x000f0000) case 66 => Word(0xfb50753a) case 67 => Word(0xec6765e8)
    case 68 => Word(0xba3c2be2) case 69 => Word(0x0060c000) case 70 => Word(0x3a37cd05) case 71 => Word(0x458546f4)
    case 72 => Word(0xb8599dd6) case 73 => Word(0x380a1a26) case 74 => Word(0x01e02203) case 75 => Word(0xe7cc3456)
    case 76 => Word(0xe6e60b69) case 77 => Word(0x00f60a00) case 78 => Word(0x5795ef4f) case _ => Word(0x822e0879)
  }

  /** The first working variable four steps ago; the others are the ones before it, all but one rotated. */
  function Working(t: nat): Word {
    match t
    case 0 => Word(0x0f4b87c3) case 1 => Word(0x40c951d8) case 2 => Word(0x62eb73fa) case 3 => Word(0xefcdab89)
    case 4 => Word(0x67452301) case 5 => Word(0x0116fc33) case 6 => Word(0x8990536d) case 7 => Word(0xa1390f08)
    case 8 => Word(0xcdd8e11b) case 9 => Word(0xcfd499de) case 10 => Word(0x3fc7ca40) case 11 => Word(0x993e30c1)
    case 12 => Word(0x9e8c07d4) case 13 => Word(0x4b6ae328) case 14 => Word(0x8351f929) case 15 => Word(0xfbda9e89)
    case 16 => Word(0x63188fe4) case 17 => Word(0x4607b664) case 18 => Word(0x9128f695) case 19 => Word(0x196bee77)
    case 20 => Word(0x20bdd62f) case 21 => Word(0x4e925823) case 22 => Word(0x82aa6728) case 23 => Word(0xdc64901d)
    case 24 => Word(0xfd9e1d7d) case 25 => Word(0x1a37b0ca) case 26 => Word(0x33a23bfc) case 27 => Word(0x21283486)
    case 28 => Word(0xd541f12d) case 29 => Word(0xc7567dc6) case 30 => Word(0x48413ba4) case 31 => Word(0xbe35fbd5)
    case 32 => Word(0x4aa84d97) case 33 => Word(0x8370b52e) case 34 => Word(0xc5fbaf5d) case 35 => Word(0x1267b407)
    case 36 => Word(0x3b845d33) case 37 => Word(0x046faa0a) case 38 => Word(0x2c0ebc11) case 39 => Word(0x21796ad4)
    case 40 => Word(0xdcbbb0cb) case 41 => Word(0x0f511fd8) case 42 => Word(0xdc63973f) case 43 => Word(0x4c986405)
    case 44 => Word(0x32de1cba) case 45 => Word(0xfc87dedf) case 46 => Word(0x970a0d5c) case 47 => Word(0x7f193dc5)
    case 48 => Word(0xee1b1aaf) case 49 => Word(0x40f28e09) case 50 => Word(0x1c51e1f2) case 51 => Word(0xa01b846c)
    case 52 => Word(0xbead02ca) case 53 => Word(0xbaf39337) case 54 => Word(0x120731c5) case 55 => Word(0x641db2ce)
    case 56 => Word(0x3847ad66) case 57 => Word(0xe490436d) case 58 => Word(0x27e9f1d8) case 59 => Word(0x7b71f76d)
    case 60 => Word(0x5e6456af) case 61 => Word(0xc846093f) case 62 => Word(0xd262ff50) case 63 => Word(0x09d785fd)
    case 64 => Word(0x3f52de5a) case 65 => Word(0xd756c147) case 66 => Word(0x548c9cb2) case 67 => Word(0xb66c020b)
    case 68 => Word(0x6b61c9e1) case 69 => Word(0x19dfa7ac) case 70 => Word(0x101655f9) case 71 => Word(0x0c3df2b4)
    case 72 => Word(0x78dd4d2b) case 73 => Word(0x497093c0) case 74 => Word(0x3f2588c2) case 75 => Word(0xc199f8c7)
    case 76 => Word(0x39859de7) case 77 => Word(0xedb42de4) case 78 => Word(0x11793f6f) case 79 => Word(0x5ee76897)
    case 80 => Word(0x63f7dab7) case 81 => Word(0xa079b7d9) case 82 => Word(0x860d21cc) case 83 => Word(0x5738d5e1)
    case _ => Word(0x42541b35)
  }

  lemma MixIs(t: nat)
    requires 16 <= t < 80
    ensures Mix4(Scheduled(t - 3), Scheduled(t - 8), Scheduled(t - 14), Scheduled(t - 16)) == Scheduled(t)
  {
    match t {
      case 16 => case 17 => case 18 => case 19 => case 20 => case 21 => case 22 => case 23 => case 24 => case 25 =>
      case 26 => case 27 => case 28 => case 29 => case 30 => case 31 => case 32 => case 33 => case 34 => case 35 =>
      case 36 => case 37 => case 38 => case 39 => case 40 => case 41 => case 42 => case 43 => case 44 => case 45 =>
      case 46 => case 47 => case 48 => case 49 => case 50 => case 51 => case 52 => case 53 => case 54 => case 55 =>
      case 56 => case 57 => case 58 => case 59 => case 60 => case 61 => case 62 => case 63 => case 64 => case 65 =>
      case 66 => case 67 => case 68 => case 69 => case 70 => case 71 => case 72 => case 73 => case 74 => case 75 =>
      case 76 => case 77 => case 78 =>
      case _ =>
    }
  }

  lemma TempIsFirst(t: nat)
    requires 0 <= t < 20
    ensures Temp(Working(t + 4), F(t, Working(t + 3), RotL(Working(t + 2), 30), RotL(Working(t + 1), 30)),
                 RotL(Working(t), 30), K(t), Scheduled(t)) == Working(t + 5)
  {
    match t {
      case 0 => case 1 => case 2 => case 3 => case 4 => case 5 => case 6 => case 7 => case 8 => case 9 =>
      case 10 => case 11 => case 12 => case 13 => case 14 => case 15 => case 16 => case 17 => case 18 =>
      case _ =>
    }
  }

  lemma TempIsSecond(t: nat)
    requires 20 <= t < 40
    ensures Temp(Working(t + 4), F(t, Working(t + 3), RotL(Working(t + 2), 30), RotL(Working(t + 1), 30)),
                 RotL(Working(t), 30), K(t), Scheduled(t)) == Working(t + 5)
  {
    match t {
      case 20 => case 21 => case 22 => case 23 => case 24 => case 25 => case 26 => case 27 => case 28 => case 29 =>
      case 30 => case 31 => case 32 => case 33 => case 34 => case 35 => case 36 => case 37 => case 38 =>
      case _ =>
    }
  }

  lemma TempIsThird(t: nat)
    requires 40 <= t < 60
    ensures Temp(Working(t + 4), F(t, Working(t + 3), RotL(Working(t + 2), 30), RotL(Working(t + 1), 30)),
                 RotL(Working(t), 30), K(t), Scheduled(t)) == Working(t + 5)
  {
    match t {
      case 40 => case 41 => case 42 => case 43 => case 44 => case 45 => case 46 => case 47 => case 48 => case 49 =>
      case 50 => case 51 => case 52 => case 53 => case 54 => case 55 => case 56 => case 57 => case 58 =>
      case _ =>
    }
  }

  lemma TempIsLast(t: nat)
    requires 60 <= t < 80
    ensures Temp(Working(t + 4), F(t, Working(t + 3), RotL(Working(t + 2), 30), RotL(Working(t + 1), 30)),
                 RotL(Working(t), 30), K(t), Scheduled(t)) == Working(t + 5)
  {
    match t {
      case 60 => case 61 => case 62 => case 63 => case 64 => case 65 => case 66 => case 67 => case 68 => case 69 =>
      case 70 => case 71 => case 72 => case 73 => case 74 => case 75 => case 76 => case 77 => case 78 =>
      case _ =>
    }
  }

  /** The working variables before step t. */
  function Variables(t: nat): Hash {
    [Working(t + 4), Working(t + 3), RotL(Working(t + 2), 30), RotL(Working(t + 1), 30), RotL(Working(t), 30)]
  }

  lemma StepIs(t: nat)
    requires t < 80
    ensures Round(Variables(t), t, Scheduled(t)) == Variables(t + 1)
  {
    hide Temp, F, K, RotL, Working, Scheduled;
    if t < 20 {
      TempIsFirst(t);
    } else if t < 40 {
      TempIsSecond(t);
    } else if t < 60 {
      TempIsThird(t);
    } else {
      TempIsLast(t);
    }
  }

  lemma {:induction false} ScheduleIs(words: Words, t: nat)
    requires t < 80 && forall i :: 0 <= i < 16 ==> words[i] == Scheduled(i)
    ensures W(words, t) == Scheduled(t)
  {
    hide Mix4, Scheduled;
    if t >= 16 {
      ScheduleIs(words, t - 3);
      ScheduleIs(words, t - 8);
      ScheduleIs(words, t - 14);
      ScheduleIs(words, t - 16);
      MixIs(t);
    }
  }

  lemma {:induction false} RoundsAre(words: Words, t: nat)
    requires t <= 80 && forall i :: 0 <= i < 16 ==> words[i] == Scheduled(i)
    ensures Rounds(Variables(0), words, t) == Variables(t)
  {
    hide Round, Variables, Scheduled, W;
    if t > 0 {
      RoundsAre(words, t - 1);
      ScheduleIs(words, t - 1);
      StepIs(t - 1);
    }
  }

  lemma StartIs()
    ensures Variables(0) == INITIAL
  {
  }

  lemma LastWorking(t: nat, w: Word)
    requires || (t == 80 && w == Word(0x63f7dab7)) || (t == 81 && w == Word(0xa079b7d9))
             || (t == 82 && w == Word(0x860d21cc)) || (t == 83 && w == Word(0x5738d5e1))
             || (t == 84 && w == Word(0x42541b35))
    ensures Working(t) == w
  {
    match t {
      case 80 => case 81 => case 82 => case 83 => case _ =>
    }
  }

  lemma LastRotated()
    ensures RotL(Word(0x860d21cc), 30) == Word(0x21834873)
    ensures RotL(Word(0xa079b7d9), 30) == Word(0x681e6df6)
    ensures RotL(Word(0x63f7dab7), 30) == Word(0xd8fdf6ad)
  {
  }

  lemma LastSums()
    ensures Sum(Word(0x67452301), Word(0x42541b35)) == Word(0xa9993e36)
    ensures Sum(Word(0xefcdab89), Word(0x5738d5e1)) == Word(0x4706816a)
    ensures Sum(Word(0x98badcfe), Word(0x21834873)) == Word(0xba3e2571)
    ensures Sum(Word(0x10325476), Word(0x681e6df6)) == Word(0x7850c26c)
    ensures Sum(Word(0xc3d2e1f0), Word(0xd8fdf6ad)) == Word(0x9cd0d89d)
  {
  }

  lemma EndIs()
    ensures AddHash(INITIAL, Variables(80))
         == [Word(0xa9993e36), Word(0x4706816a), Word(0xba3e2571), Word(0x7850c26c), Word(0x9cd0d89d)]
  {
    hide Sum, Working, RotL;
    LastWorking(84, Word(0x42541b35));
    LastWorking(83, Word(0x5738d5e1));
    LastWorking(82, Word(0x860d21cc));
    LastWorking(81, Word(0xa079b7d9));
    LastWorking(80, Word(0x63f7dab7));
    LastRotated();
    LastSums();
  }

  lemma WordsAre(block: Block)
    requires block == Padded(ABC)
    ensures forall i :: 0 <= i < 16 ==> WordAt(block, i) == Scheduled(i)
  {
    hide Padding, BigEndian64;
    PaddedAbc(BigEndian64(24));
    LengthOf24();
    FirstWords();
    forall i | 0 < i < 14 ensures WordAt(block, i) == Scheduled(i) {
      ZeroWord(i);
    }
  }

  lemma FirstWords()
    ensures Pack32(0x61, 0x62, 0x63, 0x80) == Scheduled(0)
    ensures Pack32(0, 0, 0, 0) == Scheduled(14) && Pack32(0, 0, 0, 24) == Scheduled(15)
  {
  }

  lemma ZeroWord(i: nat)
    requires 0 < i < 14
    ensures Pack32(0, 0, 0, 0) == Scheduled(i)
  {
  }

  /** The digest that FIPS 180-4 gives for "abc". */
  lemma DigestOfAbc()
    ensures Digest(ABC) == [Word(0xa9993e36), Word(0x4706816a), Word(0xba3e2571), Word(0x7850c26c), Word(0x9cd0d89d)]
  {
    hide Padded, BlockWords, Scheduled, Variables, Rounds, INITIAL, AddHash, WordAt;
    var block := Padded(ABC);
    BlockIs();
    WordsAre(block);
    FoldOne<Hash>(Compress, INITIAL, block);
    RoundsAre(BlockWords(block), 80);
    StartIs();
    EndIs();
  }

  lemma BlockIs()
    ensures |Padded(ABC)| == BLOCK_BYTES
  {
    hide Padding, BigEndian64;
    PaddedAbc(BigEndian64(24));
  }
}
