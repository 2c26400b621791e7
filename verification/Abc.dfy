/**
The message "abc", which FIPS 180-4 and appendix A.5 of RFC 1321 digest as an
example, with its padding.
*/
module Abc {
  import opened Bytes
  import opened Blocks

  const ABC: seq<bv8> := [0x61, 0x62, 0x63]

  /** The message, the mark, zeros and the length field make one block. */
  lemma PaddedAbc(length: seq<bv8>)
    requires |length| == 8
    ensures var block := ABC + Padding(3, length);
      && |block| == BLOCK_BYTES && block[0] == 0x61 && block[1] == 0x62 && block[2] == 0x63 && block[3] == 0x80
      && (forall i :: 4 <= i < 56 ==> block[i] == 0)
      && (forall i :: 56 <= i < 64 ==> block[i] == length[i - 56])
  {
    assert Gap(3) == 52;
  }

  lemma ByteOf24()
    ensures ToByte(24) == 24 && ToByte(0) == 0
  {
    hide ToByte, Value;
    ValueOf24();
    ValueInjective(ToByte(24), 24);
    ValueInjective(ToByte(0), 0);
  }

  lemma ValueOf24()
    ensures Value(24) == 24 && Value(0) == 0
  {
  }

  lemma FourBytesOf24()
    ensures BigEndian32(24) == [0, 0, 0, 24] && LittleEndian32(24) == [24, 0, 0, 0]
  {
    hide ToByte;
    ByteOf24();
  }

  lemma FourBytesOf0()
    ensures BigEndian32(0) == [0, 0, 0, 0] && LittleEndian32(0) == [0, 0, 0, 0]
  {
    hide ToByte;
    ByteOf24();
  }

  /** The length field in either order. */
  lemma LengthOf24()
    ensures BigEndian64(24) == [0, 0, 0, 0, 0, 0, 0, 24]
    ensures LittleEndian64(24) == [24, 0, 0, 0, 0, 0, 0, 0]
  {
    hide BigEndian32, LittleEndian32;
    FourBytesOf24();
    FourBytesOf0();
  }
}
