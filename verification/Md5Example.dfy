/**
The example of RFC 1321, appendix A.5: the MD5 digest of "abc". The register
that each operation computes is written down and checked, one by one.
*/
module Md5Example {
  import opened Abc
  import opened Bytes
  import opened Blocks
  import opened Md5

  /** The four registers to begin with, A, D, C, B, and then the one that each operation computes. */
  function Register(t: nat): Word {
    match t
    case 0 => Word(0x67452301) case 1 => Word(0x10325476) case 2 => Word(0x98badcfe) case 3 => Word(0xefcdab89)
    case 4 => Word(0xd6d117b4) case 5 => Word(0x344a8432) case 6 => Word(0x2f6fbd72) case 7 => Word(0x7ad956f2)
    case 8 => Word(0xc73741ef) case 9 => Word(0x8bac3051) case 10 => Word(0x207dc67b) case 11 => Word(0x928d99f6)
    case 12 => Word(0x854b3712) case 13 => Word(0x74e2f284) case 14 => Word(0x3020401c) case 15 => Word(0x5ed49596)
    case 16 => Word(0xdda9b9a6) case 17 => Word(0xa1051895) case 18 => Word(0xe396856b) case 19 => Word(0x72aff2e0)
    case 20 => Word(0x3e9e9126) case 21 => Word(0x4a1d804e) case 22 => Word(0xe25e1652) case 23 => Word(0xb5b204e4)
    case 24 => Word(0x59a8ffda) case 25 => Word(0x6d002f1e) case 26 => Word(0xabfc7920) case 27 => Word(0x47092c07)
    case 28 => Word(0xb7f268cf) case 29 => Word(0x09388eff) case 30 => Word(0xfe1623b1) case 31 => Word(0x786acb8f)
    case 32 => Word(0x790a77fb) case 33 => Word(0x9f47e4f8) case 34 => Word(0xa62884aa) case 35 => Word(0x726342d3)
    case 36 => Word(0xb3707ebf) case 37 => Word(0x60127b2e) case 38 => Word(0x8d212ff5) case 39 => Word(0x3b0875c7)
    case 40 => Word(0x21b117b9) case 41 => Word(0x6e7429d5) case 42 => Word(0x3575227e) case 43 => Word(0x5a2f5ea5)
    case 44 => Word(0x11de1779) case 45 => Word(0xfadcaa38) case 46 => Word(0x31c465ca) case 47 => Word(0x4c6124f4)
    case 48 => Word(0x7f2e507b) case 49 => Word(0x99d9679d) case 50 => Word(0x8fae6399) case 51 => Word(0x7beb9700)
    case 52 => Word(0x7b201df8) case 53 => Word(0xf4e8e96e) case 54 => Word(0xb298cefd) case 55 => Word(0x8bf025c4)
    case 56 => Word(0x06cc5e8a) case 57 => Word(0x5b0d97aa) case 58 => Word(0x7d632dd0) case 59 => Word(0x3bfa2c27)
    case 60 => Word(0x7f81cc35) case 61 => Word(0x094454ab) case 62 => Word(0x4f9dbe3f) case 63 => Word(0x7327d604)
    case 64 => Word(0x310ade8f) case 65 => Word(0x624d8cb2) case 66 => Word(0xe484b9d8) case _ => Word(0xc08226b3)
  }

  /** The words of the padded message. */
  function Input(i: nat): Word {
    if i == 0 then Word(0x80636261) else if i == 14 then Word(24) else Word(0)
  }

  lemma OperationIs0(t: nat)
    requires 0 <= t < 8
    ensures Operation(Register(t), Register(t + 3), Auxiliary(t, Register(t + 3), Register(t + 2), Register(t + 1)),
                      Input(XAt(t)), Shift(t), TAt(t)) == Register(t + 4)
  {
    match t {
      case 0 => case 1 => case 2 => case 3 => case 4 => case 5 => case 6 =>
      case _ =>
    }
  }

  lemma OperationIs8(t: nat)
    requires 8 <= t < 16
    ensures Operation(Register(t), Register(t + 3), Auxiliary(t, Register(t + 3), Register(t + 2), Register(t + 1)),
                      Input(XAt(t)), Shift(t), TAt(t)) == Register(t + 4)
  {
    match t {
      case 8 => case 9 => case 10 => case 11 => case 12 => case 13 => case 14 =>
      case _ =>
    }
  }

  lemma OperationIs16(t: nat)
    requires 16 <= t < 24
    ensures Operation(Register(t), Register(t + 3), Auxiliary(t, Register(t + 3), Register(t + 2), Register(t + 1)),
                      Input(XAt(t)), Shift(t), TAt(t)) == Register(t + 4)
  {
    match t {
      case 16 => case 17 => case 18 => case 19 => case 20 => case 21 => case 22 =>
      case _ =>
    }
  }

  lemma OperationIs24(t: nat)
    requires 24 <= t < 32
    ensures Operation(Register(t), Register(t + 3), Auxiliary(t, Register(t + 3), Register(t + 2), Register(t + 1)),
                      Input(XAt(t)), Shift(t), TAt(t)) == Register(t + 4)
  {
    match t {
      case 24 => case 25 => case 26 => case 27 => case 28 => case 29 => case 30 =>
      case _ =>
    }
  }

  lemma OperationIs32(t: nat)
    requires 32 <= t < 40
    ensures Operation(Register(t), Register(t + 3), Auxiliary(t, Register(t + 3), Register(t + 2), Register(t + 1)),
                      Input(XAt(t)), Shift(t), TAt(t)) == Register(t + 4)
  {
    match t {
      case 32 => case 33 => case 34 => case 35 => case 36 => case 37 => case 38 =>
      case _ =>
    }
  }

  lemma OperationIs40(t: nat)
    requires 40 <= t < 48
    ensures Operation(Register(t), Register(t + 3), Auxiliary(t, Register(t + 3), Register(t + 2), Register(t + 1)),
                      Input(XAt(t)), Shift(t), TAt(t)) == Register(t + 4)
  {
    match t {
      case 40 => case 41 => case 42 => case 43 => case 44 => case 45 => case 46 =>
      case _ =>
    }
  }

  lemma OperationIs48(t: nat)
    requires 48 <= t < 56
    ensures Operation(Register(t), Register(t + 3), Auxiliary(t, Register(t + 3), Register(t + 2), Register(t + 1)),
                      Input(XAt(t)), Shift(t), TAt(t)) == Register(t + 4)
  {
    match t {
      case 48 => case 49 => case 50 => case 51 => case 52 => case 53 => case 54 =>
      case _ =>
    }
  }

  lemma OperationIs56(t: nat)
    requires 56 <= t < 64
    ensures Operation(Register(t), Register(t + 3), Auxiliary(t, Register(t + 3), Register(t + 2), Register(t + 1)),
                      Input(XAt(t)), Shift(t), TAt(t)) == Register(t + 4)
  {
    match t {
      case 56 => case 57 => case 58 => case 59 => case 60 => case 61 => case 62 =>
      case _ =>
    }
  }

  /** The registers A, B, C, D before operation t. */
  function Registers(t: nat): Hash {
    [Register(t), Register(t + 3), Register(t + 2), Register(t + 1)]
  }

  lemma RoundIs(t: nat)
    requires t < 64
    ensures Round(Registers(t), t, Input(XAt(t))) == Registers(t + 1)
  {
    hide Operation, Auxiliary, Shift, Register, XAt, TAt, Input;
    if t < 8 {
      OperationIs0(t);
    } else if t < 16 {
      OperationIs8(t);
    } else if t < 24 {
      OperationIs16(t);
    } else if t < 32 {
      OperationIs24(t);
    } else if t < 40 {
      OperationIs32(t);
    } else if t < 48 {
      OperationIs40(t);
    } else if t < 56 {
      OperationIs48(t);
    } else {
      OperationIs56(t);
    }
  }

  lemma {:induction false} RoundsAre(block: Block, t: nat)
    requires t <= 64 && forall i :: 0 <= i < 16 ==> WordAt(block, i) == Input(i)
    ensures Rounds(Registers(0), block, t) == Registers(t)
  {
    hide Round, Registers, Input, WordAt, XAt;
    if t > 0 {
      RoundsAre(block, t - 1);
      RoundIs(t - 1);
    }
  }

  lemma StartIs()
    ensures Registers(0) == INITIAL
  {
  }

  lemma LastRegister(t: nat, w: Word)
    requires || (t == 64 && w == Word(0x310ade8f)) || (t == 65 && w == Word(0x624d8cb2))
             || (t == 66 && w == Word(0xe484b9d8)) || (t == 67 && w == Word(0xc08226b3))
    ensures Register(t) == w
  {
    match t {
      case 64 => case 65 => case 66 => case _ =>
    }
  }

  lemma LastSums()
    ensures Sum(Word(0x67452301), Word(0x310ade8f)) == Word(0x98500190)
    ensures Sum(Word(0xefcdab89), Word(0xc08226b3)) == Word(0xb04fd23c)
    ensures Sum(Word(0x98badcfe), Word(0xe484b9d8)) == Word(0x7d3f96d6)
    ensures Sum(Word(0x10325476), Word(0x624d8cb2)) == Word(0x727fe128)
  {
  }

  lemma EndIs()
    ensures AddHash(INITIAL, Registers(64))
         == [Word(0x98500190), Word(0xb04fd23c), Word(0x7d3f96d6), Word(0x727fe128)]
  {
    hide Sum, Register;
    LastRegister(64, Word(0x310ade8f));
    LastRegister(65, Word(0x624d8cb2));
    LastRegister(66, Word(0xe484b9d8));
    LastRegister(67, Word(0xc08226b3));
    LastSums();
  }

  lemma SomeWords()
    ensures Pack32(0x80, 0x63, 0x62, 0x61) == Input(0) && Pack32(0, 0, 0, 0) == Word(0)
    ensures Pack32(0, 0, 0, 24) == Input(14)
  {
  }

  lemma WordsAre(block: Block)
    requires block == Padded(ABC)
    ensures forall i :: 0 <= i < 16 ==> WordAt(block, i) == Input(i)
  {
    hide Padding, LittleEndian64, Pack32;
    PaddedAbc(LittleEndian64(24));
    LengthOf24();
    SomeWords();
  }

  const ANSWER: seq<bv8> := [
    0x90, 0x01, 0x50, 0x98, 0x3c, 0xd2, 0x4f, 0xb0,
    0xd6, 0x96, 0x3f, 0x7d, 0x28, 0xe1, 0x7f, 0x72
  ]

  lemma AnswerBytes()
    ensures Unpack32(Word(0x98500190)) == [0x98, 0x50, 0x01, 0x90]
    ensures Unpack32(Word(0xb04fd23c)) == [0xb0, 0x4f, 0xd2, 0x3c]
    ensures Unpack32(Word(0x7d3f96d6)) == [0x7d, 0x3f, 0x96, 0xd6]
    ensures Unpack32(Word(0x727fe128)) == [0x72, 0x7f, 0xe1, 0x28]
  {
  }

  lemma BytesAre()
    ensures DigestBytes([Word(0x98500190), Word(0xb04fd23c), Word(0x7d3f96d6), Word(0x727fe128)]) == ANSWER
  {
    hide Unpack32;
    AnswerBytes();
  }

  lemma BlockIs()
    ensures |Padded(ABC)| == BLOCK_BYTES
  {
    hide Padding, LittleEndian64;
    PaddedAbc(LittleEndian64(24));
  }

  /** The digest that RFC 1321 gives for "abc". */
  lemma DigestOfAbc()
    ensures Digest(ABC) == ANSWER
  {
    hide Padded, Input, Registers, Rounds, INITIAL, AddHash, WordAt, DigestBytes, ANSWER;
    var block := Padded(ABC);
    BlockIs();
    WordsAre(block);
    FoldOne<Hash>(Compress, INITIAL, block);
    RoundsAre(block, 64);
    StartIs();
    EndIs();
    BytesAre();
  }
}
