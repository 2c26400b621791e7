/**
The Modbus RTU read path: building a request, collecting the reply from the
serial line, checking it and decoding its registers.

Bytes are 8-bit vectors and registers are 16-bit patterns (the gateway stores
them as signed words). The serial line is an input: the outcome of the write
and of every read before the response timer runs out.
*/
module Modbus {
  import opened Bytes
  import opened Crc
  import CrcErrors
  import opened Wrappers

  const READ_HOLDING_REGISTERS: bv8 := 0x03
  const WRITE_SINGLE_REGISTER: bv8 := 0x06
  const FRAME_SIZE := 256
  const REGISTERS_MAX := 125

  // ---------------------------------------------------------------------------
  // What the standard puts on the line
  // ---------------------------------------------------------------------------

  /** A frame: the message followed by its CRC, low byte first. */
  function Framed(message: seq<bv8>): (frame: seq<bv8>)
    ensures |frame| == |message| + 2
  {
    var crc := ReflectedCrc(0xFFFF, message);
    message + [Low(crc), High(crc)]
  }

  /** Registers in line order, high byte first. */
  function Encode(registers: seq<bv16>): (b: seq<bv8>)
    ensures |b| == 2 * |registers|
  {
    if registers == [] then [] else [High(registers[0]), Low(registers[0])] + Encode(registers[1..])
  }

  function Decode(b: seq<bv8>): (registers: seq<bv16>)
    requires |b| % 2 == 0
    ensures 2 * |registers| == |b|
    ensures forall i :: 0 <= i < |registers| ==> registers[i] == Join(b[2 * i + 1], b[2 * i])
  {
    if b == [] then [] else
      var rest := Decode(b[2..]);
      assert forall i :: 0 < i < |rest| + 1 ==> rest[i - 1] == Join(b[2 * i + 1], b[2 * i]);
      [Join(b[1], b[0])] + rest
  }

  function Number(w: bv16): nat {
    w as int
  }

  /** Registers read off one at a time are the decoded registers. */
  lemma {:induction false} DecodedAt(b: seq<bv8>, registers: seq<bv16>)
    requires |b| == 2 * |registers|
    requires forall i :: 0 <= i < |registers| ==> registers[i] == Join(b[2 * i + 1], b[2 * i])
    ensures registers == Decode(b)
    decreases |b|
  {
    hide Join;
    if b != [] {
      DecodedAt(b[2..], registers[1..]);
      assert registers == [registers[0]] + registers[1..];
    }
  }

  /** The eight bytes of either request. */
  function Request(device: bv8, code: bv8, address: bv16, value: bv16): seq<bv8> {
    Framed([device, code, High(address), Low(address), High(value), Low(value)])
  }

  /** The reply of a device to a request for |registers| registers. */
  function Reply(device: bv8, registers: seq<bv16>): (frame: seq<bv8>)
    requires |registers| <= REGISTERS_MAX
    ensures |frame| == 5 + 2 * |registers|
  {
    Framed([device, READ_HOLDING_REGISTERS, ToByte(2 * |registers|)] + Encode(registers))
  }

  /** The echo by which a device confirms the writing of one register. */
  function Echo(device: bv8, address: bv16, value: bv16): seq<bv8> {
    Request(device, WRITE_SINGLE_REGISTER, address, value)
  }

  /** The number that two bytes spell, the high one first. */
  function Spell(high: bv8, low: bv8): nat {
    0x100 * Value(high) + Value(low)
  }

  lemma JoinSpells(low: bv8, high: bv8)
    ensures Number(Join(low, high)) == Spell(high, low)
  {
  }

  lemma NumberSpelled(w: bv16)
    ensures Spell(High(w), Low(w)) == Number(w)
  {
    hide Join, High, Low, Number, Spell;
    JoinFacts(w, 0);
    JoinSpells(Low(w), High(w));
  }

  /** What a slave takes from the line. */
  datatype Query = Query(device: bv8, code: bv8, address: nat, value: nat)

  /** A slave reads the first byte as the device, the second as the function code, and then two numbers, each with its
      high byte first, from eight bytes whose CRC is right. */
  function Understood(frame: seq<bv8>): Option<Query> {
    if |frame| == 8 && ReflectedCrc(0xFFFF, frame) == 0
    then Some(Query(frame[0], frame[1], Spell(frame[2], frame[3]), Spell(frame[4], frame[5])))
    else None
  }

  /** A slave understands from a request what the gateway asks for. */
  lemma RequestUnderstood(device: bv8, code: bv8, address: bv16, value: bv16)
    ensures Understood(Request(device, code, address, value))
         == Some(Query(device, code, Number(address), Number(value)))
  {
    hide ReflectedCrc, Number, Spell, High, Low;
    FramedResidue([device, code, High(address), Low(address), High(value), Low(value)]);
    NumberSpelled(address);
    NumberSpelled(value);
  }

  /** And it understands nothing else. */
  lemma OnlyRequestsUnderstood(frame: seq<bv8>)
    requires Understood(frame).Some?
    ensures frame == Request(frame[0], frame[1], Join(frame[3], frame[2]), Join(frame[5], frame[4]))
  {
    hide ReflectedCrc, Spell, High, Low, Join, Framed;
    ResidueFramed(frame);
    JoinBytes(frame[3], frame[2]);
    JoinBytes(frame[5], frame[4]);
    assert frame[..6] == [frame[0], frame[1], frame[2], frame[3], frame[4], frame[5]];
  }

  /** The request for nine registers from the hundredth on, as it goes over the line to slave 1. */
  lemma RequestExample()
    ensures Request(1, 3, 100, 9) == [0x01, 0x03, 0x00, 0x64, 0x00, 0x09, 0xC4, 0x13]
  {
    hide ReflectedCrc, High, Low;
    ExampleBytes();
    ExampleCrc();
  }

  lemma ExampleBytes()
    ensures High(100) == 0 && Low(100) == 100 && High(9) == 0 && Low(9) == 9
    ensures High(0x13C4) == 0x13 && Low(0x13C4) == 0xC4
  {
  }

  lemma ExampleCrc()
    ensures ReflectedCrc(0xFFFF, [0x01, 0x03, 0x00, 0x64, 0x00, 0x09]) == 0x13C4
  {
    hide ReflectedByte, ReflectedCrc;
    ExampleSteps();
    ReflectedSix(0xFFFF, 0x01, 0x03, 0x00, 0x64, 0x00, 0x09);
  }

  lemma ReflectedSix(c: bv16, b0: bv8, b1: bv8, b2: bv8, b3: bv8, b4: bv8, b5: bv8)
    ensures ReflectedCrc(c, [b0, b1, b2, b3, b4, b5])
         == ReflectedByte(ReflectedByte(ReflectedByte(
              ReflectedByte(ReflectedByte(ReflectedByte(c, b0), b1), b2), b3), b4), b5)
  {
    hide ReflectedByte, ReflectedCrc;
    assert [b0, b1, b2, b3, b4, b5] == [b0, b1, b2] + [b3, b4, b5];
    ReflectedAppend(c, [b0, b1, b2], [b3, b4, b5]);
    ThreeBytes(c, b0, b1, b2);
    ThreeBytes(ReflectedCrc(c, [b0, b1, b2]), b3, b4, b5);
  }

  lemma ExampleSteps()
    ensures ReflectedByte(0xFFFF, 0x01) == 0x807E
    ensures ReflectedByte(0x807E, 0x03) == 0x2140
    ensures ReflectedByte(0x2140, 0x00) == 0xF020
    ensures ReflectedByte(0xF020, 0x64) == 0x33F0
    ensures ReflectedByte(0x33F0, 0x00) == 0x4433
    ensures ReflectedByte(0x4433, 0x09) == 0x13C4
  {
  }

  // ---------------------------------------------------------------------------
  // What the gateway accepts
  // ---------------------------------------------------------------------------

  /** The reply passes the function check, the byte-count check and the CRC check. */
  predicate Accepted(count: nat, frame: seq<bv8>) {
    && |frame| == 5 + 2 * count
    && frame[1] == READ_HOLDING_REGISTERS
    && Value(frame[2]) == 2 * count
    && ReflectedCrc(0xFFFF, frame) == 0
  }

  predicate AcceptedEcho(frame: seq<bv8>) {
    && |frame| == 8
    && frame[1] == WRITE_SINGLE_REGISTER
    && ReflectedCrc(0xFFFF, frame) == 0
  }

  lemma {:induction false} EncodeDecode(b: seq<bv8>)
    requires |b| % 2 == 0
    ensures Encode(Decode(b)) == b
    decreases |b|
  {
    hide High, Low, Join;
    if b != [] {
      EncodeDecode(b[2..]);
      JoinBytes(b[1], b[0]);
      assert Decode(b)[1..] == Decode(b[2..]);
      assert b == [b[0], b[1]] + b[2..];
    }
  }

  lemma {:induction false} DecodeEncode(registers: seq<bv16>)
    ensures Decode(Encode(registers)) == registers
    decreases |registers|
  {
    hide High, Low, Join;
    if registers != [] {
      DecodeEncode(registers[1..]);
      JoinFacts(registers[0], 0);
      assert Encode(registers)[2..] == Encode(registers[1..]);
      assert registers == [registers[0]] + registers[1..];
    }
  }

  /** Registers are decoded as the numbers that their bytes spell, high byte first. */
  lemma DecodeSpells(b: seq<bv8>, i: nat)
    requires |b| % 2 == 0 && i < |b| / 2
    ensures Number(Decode(b)[i]) == Spell(b[2 * i], b[2 * i + 1])
  {
    hide Join, Number, Spell, Decode;
    JoinSpells(b[2 * i + 1], b[2 * i]);
    assert Decode(b)[i] == Join(b[2 * i + 1], b[2 * i]);
  }

  lemma FramedResidue(message: seq<bv8>)
    ensures ReflectedCrc(0xFFFF, Framed(message)) == 0
  {
    hide ReflectedCrc, High, Low, Join;
    var crc := ReflectedCrc(0xFFFF, message);
    JoinFacts(crc, 0);
    ReflectedResidue(message, Low(crc), High(crc));
  }

  /** Residue zero means that the frame carries exactly the CRC of its message. */
  lemma ResidueFramed(frame: seq<bv8>)
    requires |frame| >= 2
    requires ReflectedCrc(0xFFFF, frame) == 0
    ensures frame == Framed(frame[..|frame| - 2])
  {
    hide ReflectedCrc, High, Low, Join;
    var n := |frame| - 2;
    assert frame == frame[..n] + [frame[n], frame[n + 1]];
    ReflectedResidue(frame[..n], frame[n], frame[n + 1]);
    JoinBytes(frame[n], frame[n + 1]);
  }

  /** The payload of a reply of the right length. */
  function Payload(frame: seq<bv8>): seq<bv8>
    requires |frame| >= 5
  {
    frame[3..|frame| - 2]
  }

  lemma ReplyAccepted(device: bv8, registers: seq<bv16>)
    requires |registers| <= REGISTERS_MAX
    ensures Accepted(|registers|, Reply(device, registers))
  {
    hide ReflectedCrc, Value, ToByte, High, Low, Join, Encode;
    FramedResidue([device, READ_HOLDING_REGISTERS, ToByte(2 * |registers|)] + Encode(registers));
  }

  lemma AcceptedMessage(count: nat, frame: seq<bv8>)
    requires count <= REGISTERS_MAX
    requires Accepted(count, frame)
    ensures frame == Framed([frame[0], READ_HOLDING_REGISTERS, ToByte(2 * count)] + Payload(frame))
  {
    hide ReflectedCrc, Value, ToByte, Framed;
    ValueInjective(frame[2], ToByte(2 * count));
    ResidueFramed(frame);
    assert frame[..|frame| - 2] == [frame[0], frame[1], frame[2]] + Payload(frame);
  }

  /** The gateway accepts exactly the correct replies, of whatever device, and decodes what was sent. */
  lemma AcceptedIffReply(count: nat, frame: seq<bv8>)
    requires count <= REGISTERS_MAX
    requires |frame| == 5 + 2 * count
    ensures Accepted(count, frame) <==> frame == Reply(frame[0], Decode(Payload(frame)))
  {
    hide Accepted, Framed, Value, ToByte, Decode, Encode;
    EncodeDecode(Payload(frame));
    ReplyAccepted(frame[0], Decode(Payload(frame)));
    if Accepted(count, frame) {
      AcceptedMessage(count, frame);
    }
  }

  /** Round trip: the registers a device sends are the registers the gateway reads. */
  lemma ReplyRoundTrip(device: bv8, registers: seq<bv16>)
    requires |registers| <= REGISTERS_MAX
    ensures Accepted(|registers|, Reply(device, registers))
    ensures Decode(Payload(Reply(device, registers))) == registers
  {
    hide ReflectedCrc, Value, ToByte, High, Low, Join;
    hide Encode, Decode, Reply, Accepted, Payload;
    ReplyPayload(device, registers);
    DecodeEncode(registers);
    ReplyAccepted(device, registers);
  }

  lemma ReplyPayload(device: bv8, registers: seq<bv16>)
    requires |registers| <= REGISTERS_MAX
    ensures Payload(Reply(device, registers)) == Encode(registers)
  {
    hide ReflectedCrc, Value, ToByte, High, Low, Encode;
    var head, body := [device, READ_HOLDING_REGISTERS, ToByte(2 * |registers|)], Encode(registers);
    var crc := ReflectedCrc(0xFFFF, head + body);
    Middle(head, body, [Low(crc), High(crc)]);
  }

  lemma Middle<T>(a: seq<T>, b: seq<T>, c: seq<T>)
    ensures (a + b + c)[|a|..|a| + |b|] == b
  {
  }

  /** The echoes that the gateway accepts are those of any write to any register. */
  lemma AcceptedIffEcho(frame: seq<bv8>)
    requires |frame| == 8
    ensures AcceptedEcho(frame) <==> frame == Echo(frame[0], Join(frame[3], frame[2]), Join(frame[5], frame[4]))
  {
    hide ReflectedCrc, Spell, High, Low, Join, Number;
    if AcceptedEcho(frame) {
      OnlyRequestsUnderstood(frame);
    }
    RequestUnderstood(frame[0], WRITE_SINGLE_REGISTER, Join(frame[3], frame[2]), Join(frame[5], frame[4]));
    assert Echo(frame[0], Join(frame[3], frame[2]), Join(frame[5], frame[4]))[1] == WRITE_SINGLE_REGISTER;
  }

  /** A slave that holds these registers answers a request to read some of them with their contents. */
  function Answer(memory: nat -> bv16, request: seq<bv8>): Option<seq<bv8>> {
    match Understood(request)
    case Some(Query(device, 3, address, count)) =>
      if count <= REGISTERS_MAX then Some(Reply(device, Registers(memory, address, count))) else None
    case _ => None
  }

  function Registers(memory: nat -> bv16, address: nat, count: nat): (registers: seq<bv16>)
    ensures |registers| == count && forall i :: 0 <= i < count ==> registers[i] == memory(address + i)
  {
    seq(count, i requires 0 <= i < count => memory(address + i))
  }

  /** From end to end: what a slave answers to a request is accepted, and decodes to the very registers asked for. */
  lemma AnswerCarries(memory: nat -> bv16, device: bv8, address: bv16, count: bv16)
    requires Number(count) <= REGISTERS_MAX
    ensures var answer := Answer(memory, Request(device, 3, address, count));
      && answer.Some? && |answer.value| == 5 + 2 * Number(count)
      && Accepted(Number(count), answer.value)
      && Decode(Payload(answer.value)) == Registers(memory, Number(address), Number(count))
  {
    hide Accepted, Payload, Decode, Reply, Request, Number, Understood;
    RequestUnderstood(device, 3, address, count);
    ReplyRoundTrip(device, Registers(memory, Number(address), Number(count)));
  }

  // ---------------------------------------------------------------------------
  // Corrupted replies
  // ---------------------------------------------------------------------------

  /** End to end: a reply hit by a burst of up to sixteen bits, anywhere, is never accepted. The CRC
      is computed over a length taken from the frame itself, so this needs the function check and the
      byte-count check as well. */
  lemma BurstRejected(device: bv8, registers: seq<bv16>, before: nat, e0: bv8, e1: bv8, e2: bv8, after: nat)
    requires |registers| <= REGISTERS_MAX
    requires before + 3 + after == 5 + 2 * |registers|
    requires IsBurst(e0, e1, e2)
    ensures var received := Corrupt(Reply(device, registers), BurstPattern(before, e0, e1, e2, after));
            !Accepted(|registers|, received)
  {
    hide IsBurst, ReflectedCrc, Value, ToByte, High, Low, Join;
    ReplyRoundTrip(device, registers);
    BurstChangesCrc(Reply(device, registers), before, e0, e1, e2, after);
  }

  /** An odd number of flipped bits, anywhere in a correct reply, makes the gateway refuse it. */
  lemma OddRejected(device: bv8, registers: seq<bv16>, e: seq<bv8>)
    requires |registers| <= REGISTERS_MAX
    requires |e| == 5 + 2 * |registers| && Flips(e) % 2 == 1
    ensures !Accepted(|registers|, Corrupt(Reply(device, registers), e))
  {
    hide Flips, ReflectedCrc, Value, ToByte, High, Low, Join;
    ReplyRoundTrip(device, registers);
    OddChangesCrc(Reply(device, registers), e);
  }

  /** Any one, two or three flipped bits of a correct reply make the gateway refuse it. */
  lemma FewFlipsRejected(device: bv8, registers: seq<bv16>, e: seq<bv8>)
    requires |registers| <= REGISTERS_MAX
    requires |e| == 5 + 2 * |registers| && 1 <= Flips(e) <= 3
    ensures !Accepted(|registers|, Corrupt(Reply(device, registers), e))
  {
    hide Flips, ReflectedCrc, Value, ToByte, High, Low, Join;
    ReplyRoundTrip(device, registers);
    CrcErrors.FewFlipsChangeCrc(Reply(device, registers), e);
  }

  lemma EchoBurstRejected(device: bv8, address: bv16, value: bv16, before: nat, e0: bv8, e1: bv8, e2: bv8, after: nat)
    requires before + 3 + after == 8
    requires IsBurst(e0, e1, e2)
    ensures AcceptedEcho(Echo(device, address, value))
    ensures !AcceptedEcho(Corrupt(Echo(device, address, value), BurstPattern(before, e0, e1, e2, after)))
  {
    hide IsBurst, ReflectedCrc, Value, ToByte, High, Low, Join;
    FramedResidue([device, WRITE_SINGLE_REGISTER, High(address), Low(address), High(value), Low(value)]);
    BurstChangesCrc(Echo(device, address, value), before, e0, e1, e2, after);
  }

  lemma OneByteIsBurst(e: bv8)
    requires e != 0
    ensures IsBurst(e, 0, 0) && IsBurst(0, e, 0) && IsBurst(0, 0, e)
  {
  }

  /** A pattern whose only nonzero byte is byte i. */
  lemma PatternAt(before: nat, e0: bv8, e1: bv8, e2: bv8, after: nat, i: nat)
    requires before <= i < before + 3
    requires (i != before ==> e0 == 0) && (i != before + 1 ==> e1 == 0) && (i != before + 2 ==> e2 == 0)
    ensures var pattern := BurstPattern(before, e0, e1, e2, after);
            && pattern[i] == [e0, e1, e2][i - before]
            && forall j :: 0 <= j < |pattern| && j != i ==> pattern[j] == 0
  {
  }

  /** The burst pattern that turns byte i of a frame into b. */
  lemma SingleBytePattern(frame: seq<bv8>, i: nat, b: bv8)
    returns (before: nat, e0: bv8, e1: bv8, e2: bv8, after: nat)
    requires |frame| >= 3 && i < |frame| && frame[i] != b
    ensures before + 3 + after == |frame| && IsBurst(e0, e1, e2)
    ensures Corrupt(frame, BurstPattern(before, e0, e1, e2, after)) == frame[i := b]
  {
    hide IsBurst, XorByte;
    var e := XorByte(frame[i], b);
    ByteCancel(frame[i], b);
    OneByteIsBurst(e);
    before := if i + 3 <= |frame| then i else |frame| - 3;
    after := |frame| - 3 - before;
    e0, e1, e2 := if i == before then e else 0, if i == before + 1 then e else 0, if i == before + 2 then e else 0;
    var pattern := BurstPattern(before, e0, e1, e2, after);
    hide Corrupt, BurstPattern;
    forall j | 0 <= j < |frame| ensures XorByte(frame[j], if j == i then e else 0) == frame[i := b][j] {
      JoinFacts(0, frame[j]);
    }
    PatternAt(before, e0, e1, e2, after, i);
  }

  /** Changing any one byte of a correct reply, to any other value, makes the gateway refuse it. */
  lemma SingleByteRejected(device: bv8, registers: seq<bv16>, i: nat, b: bv8)
    requires |registers| <= REGISTERS_MAX
    requires i < 5 + 2 * |registers| && b != Reply(device, registers)[i]
    ensures !Accepted(|registers|, Reply(device, registers)[i := b])
  {
    hide IsBurst, ReflectedCrc, Value, ToByte, BurstPattern;
    var before, e0, e1, e2, after := SingleBytePattern(Reply(device, registers), i, b);
    BurstRejected(device, registers, before, e0, e1, e2, after);
  }

  // ---------------------------------------------------------------------------
  // Frames
  // ---------------------------------------------------------------------------

  class RequestFrame {
    const raw: array<bv8>
    var frameSize: nat
    var responseSize: nat

    constructor (device: bv8, code: bv8, address: bv16, value: bv16)
      requires code == READ_HOLDING_REGISTERS || code == WRITE_SINGLE_REGISTER
      ensures fresh(raw) && frameSize == 8 <= raw.Length
      ensures raw[..frameSize] == Request(device, code, address, value)
      ensures Understood(raw[..frameSize]) == Some(Query(device, code, Number(address), Number(value)))
      ensures code == READ_HOLDING_REGISTERS ==> responseSize == 5 + 2 * Number(value)
      ensures code == WRITE_SINGLE_REGISTER ==> responseSize == 8
    {
      raw := new bv8[FRAME_SIZE];
      new;
      hide Request, Number, Understood;
      RequestUnderstood(device, code, address, value);
      Write(device, code, address, value);
      frameSize := 8;
      responseSize := if code == READ_HOLDING_REGISTERS then 5 + Number(value) * 2 else 8;
    }

    /** The six bytes of the message and its CRC. */
    method Write(device: bv8, code: bv8, address: bv16, value: bv16)
      requires raw.Length == FRAME_SIZE
      modifies raw
      ensures raw[..8] == Request(device, code, address, value)
    {
      hide Low, High, ReflectedCrc;
      raw[0], raw[1], raw[2], raw[3], raw[4], raw[5] :=
        device, code, High(address), Low(address), High(value), Low(value);
      var crc := Crc16(raw, 6);
      assert raw[..6] == [device, code, High(address), Low(address), High(value), Low(value)];
      raw[6], raw[7] := Low(crc), High(crc);
      assert raw[..8] == raw[..6] + [Low(crc), High(crc)];
    }
  }

  /** The checks on a received frame. The length that the CRC covers is read from the frame itself. */
  predicate Passes(code: bv8, b: seq<bv8>) {
    && 2 <= |b| <= FRAME_SIZE
    && b[1] == code
    && if code == READ_HOLDING_REGISTERS then
         |b| >= 5 && |b| >= 5 + Value(b[2]) && ReflectedCrc(0xFFFF, b[..5 + Value(b[2])]) == 0
       else
         |b| >= 8 && ReflectedCrc(0xFFFF, b[..8]) == 0
  }

  /** A valid frame of the requested length is acceptable exactly when its byte count is the requested one. */
  lemma PassesIffAccepted(count: nat, b: seq<bv8>)
    requires |b| == 5 + 2 * count <= FRAME_SIZE
    ensures Accepted(count, b) <==> Passes(READ_HOLDING_REGISTERS, b) && Value(b[2]) == 2 * count
  {
    hide ReflectedCrc, Value;
    assert b[..5 + 2 * count] == b;
  }

  /** A frame of eight bytes is a valid answer to a write exactly when it is an acceptable echo. */
  lemma PassesIffEcho(b: seq<bv8>)
    requires |b| == 8
    ensures Passes(WRITE_SINGLE_REGISTER, b) <==> AcceptedEcho(b)
  {
    hide ReflectedCrc, Value;
    assert b[..8] == b;
  }

  lemma PrefixSlice<T>(s: seq<T>, n: nat, i: nat, j: nat)
    requires i <= j <= n <= |s|
    ensures s[..n][i..j] == s[i..j]
  {
  }

  /** What the first bytes of the raw frame buffer say about a valid frame. */
  lemma ValidHeader(frame: seq<bv8>, raw: seq<bv8>, count: nat)
    requires |raw| == FRAME_SIZE && Passes(READ_HOLDING_REGISTERS, frame) && raw[..|frame|] == frame
    requires |frame| == 5 + 2 * count
    ensures raw[1] == READ_HOLDING_REGISTERS && raw[2] == frame[2] && 5 + Value(raw[2]) <= FRAME_SIZE
    ensures raw[3..3 + 2 * count] == Payload(frame)
  {
    hide ReflectedCrc, Value;
    var copy := raw[..|frame|];
    assert copy[1] == raw[1] && copy[2] == raw[2];
    PrefixSlice(raw, |frame|, 3, 3 + 2 * count);
  }

  method CopyInto(target: array<bv8>, buffer: array<bv8>, length: nat)
    requires length <= target.Length && length <= buffer.Length && target != buffer
    modifies target
    ensures target[..length] == buffer[..length]
  {
    forall i | 0 <= i < length { target[i] := buffer[i]; }
  }

  class ResponseFrame {
    const raw: array<bv8>
    var valid: bool
    var frameSize: nat

    constructor (code: bv8, buffer: array<bv8>, length: nat)
      requires code == READ_HOLDING_REGISTERS || code == WRITE_SINGLE_REGISTER
      requires length <= buffer.Length
      ensures fresh(raw) && raw.Length == FRAME_SIZE
      ensures valid <==> Passes(code, buffer[..length])
      ensures valid ==> raw[..length] == buffer[..length]
    {
      raw := new bv8[FRAME_SIZE];
      valid := false;
      frameSize := 0;
      new;
      hide ReflectedCrc, Value;
      if length < 2 || length > FRAME_SIZE {
      } else if buffer[1] != code {
      } else {
        frameSize := length;
        CopyInto(raw, buffer, length);
        assert raw[1] == buffer[..length][1];
        valid := Validate();
      }
    }

    /** The switch on the function code of the frame that was copied. */
    method Validate() returns (ok: bool)
      requires raw.Length == FRAME_SIZE && 2 <= frameSize <= FRAME_SIZE
      requires raw[1] == READ_HOLDING_REGISTERS || raw[1] == WRITE_SINGLE_REGISTER
      ensures ok <==> Passes(raw[1], raw[..frameSize])
    {
      hide ReflectedCrc, Value;
      ok := false;
      if raw[1] == READ_HOLDING_REGISTERS {
        var count := Value(raw[2]);
        if frameSize >= 5 + count {
          ok := CrcMatches(3 + count);
          assert raw[..frameSize][..5 + count] == raw[..5 + count];
        }
      } else {
        if frameSize >= 8 {
          ok := CrcMatches(6);
          assert raw[..frameSize][..8] == raw[..8];
        }
      }
    }

    /** Whether the two bytes after the message hold its CRC, low byte first. */
    method CrcMatches(n: nat) returns (ok: bool)
      requires n + 2 <= raw.Length
      ensures ok <==> ReflectedCrc(0xFFFF, raw[..n + 2]) == 0
    {
      hide ReflectedCrc, Join;
      var crc := Crc16(raw, n);
      var frameCrc := Join(raw[n], raw[n + 1]);
      ReflectedResidue(raw[..n], raw[n], raw[n + 1]);
      assert raw[..n + 2] == raw[..n] + [raw[n], raw[n + 1]];
      ok := crc == frameCrc;
    }

    /** Decodes a valid frame. */
    method ReadHoldingRegisters(values: array<bv16>, count: nat) returns (ok: bool)
      requires raw.Length == FRAME_SIZE && 5 + Value(raw[2]) <= FRAME_SIZE
      requires count <= values.Length && values as object != raw
      modifies values
      ensures ok <==> raw[1] == READ_HOLDING_REGISTERS && Value(raw[2]) == 2 * count
      ensures ok ==> values[..count] == Decode(raw[3..3 + 2 * count])
      ensures forall i :: (if ok then count else 0) <= i < values.Length ==> values[i] == old(values[i])
    {
      if raw[1] != READ_HOLDING_REGISTERS {
        return false;
      }
      if Value(raw[2]) != count * 2 {
        return false;
      }
      hide Join, Low, High, Value, ToByte, Decode;
      ghost var b := raw[3..3 + 2 * count];
      for i := 0 to count
        invariant raw[3..3 + 2 * count] == b
        invariant forall k :: 0 <= k < i ==> values[k] == Join(b[2 * k + 1], b[2 * k])
        invariant forall k :: i <= k < values.Length ==> values[k] == old(values[k])
      {
        assert b[2 * i + 1] == raw[3 + 2 * i + 1] && b[2 * i] == raw[3 + 2 * i];
        values[i] := Join(raw[3 + 2 * i + 1], raw[3 + 2 * i]);
      }
      DecodedAt(b, values[..count]);
      return true;
    }
  }

  // ---------------------------------------------------------------------------
  // The device
  // ---------------------------------------------------------------------------

  /** One read of the serial port: it fails, or yields what is there (nothing on a timeout). */
  datatype Read = Failed | Got(data: seq<bv8>)

  /** The bytes that arrive before the response timer runs out. */
  function Received(arrivals: seq<Read>): seq<bv8> {
    if arrivals == [] then []
    else (if arrivals[0].Got? then arrivals[0].data else []) + Received(arrivals[1..])
  }

  lemma {:induction false} ReceivedAppend(before: seq<Read>, after: seq<Read>)
    ensures Received(before + after) == Received(before) + Received(after)
  {
    if before == [] {
      assert [] + after == after;
    } else {
      ReceivedAppend(before[1..], after);
      assert (before + after)[1..] == before[1..] + after;
    }
  }

  lemma ReceivedOne(read: Read)
    ensures Received([read]) == if read.Got? then read.data else []
  {
    assert [read][1..] == [];
  }

  /** Only what has been received counts, not in which pieces, and not how many reads have failed meanwhile. */
  lemma ReceivedPieces(before: seq<Read>, after: seq<Read>, data: seq<bv8>)
    ensures Received(before + [Got(data)] + after) == Received(before) + data + Received(after)
    ensures Received(before + [Failed] + after) == Received(before + after)
  {
    hide Received;
    ReceivedOne(Got(data));
    ReceivedOne(Failed);
    ReceivedAppend(before + [Got(data)], after);
    ReceivedAppend(before, [Got(data)]);
    ReceivedAppend(before + [Failed], after);
    ReceivedAppend(before, [Failed]);
    ReceivedAppend(before, after);
  }

  /** What one more read adds to the bytes taken so far, when k bytes of it are taken. */
  lemma ReceivedStep(arrivals: seq<Read>, i: nat, before: seq<bv8>, k: nat)
    requires i < |arrivals|
    requires Received(arrivals) == before + Received(arrivals[i..])
    requires if arrivals[i].Got? then k <= |arrivals[i].data| else k == 0
    ensures var data := if arrivals[i].Got? then arrivals[i].data else [];
            && Received(arrivals) == (before + data[..k]) + (data[k..] + Received(arrivals[i + 1..]))
            && (k == |data| ==> Received(arrivals) == (before + data[..k]) + Received(arrivals[i + 1..]))
  {
    assert arrivals[i..][1..] == arrivals[i + 1..];
    if arrivals[i].Got? {
      assert arrivals[i].data == arrivals[i].data[..k] + arrivals[i].data[k..];
    }
  }

  lemma NothingReceived(arrivals: seq<Read>, i: nat)
    requires i == |arrivals|
    ensures Received(arrivals[i..]) == []
  {
  }

  /** One successful read into the free part of the buffer: at most room bytes. */
  method ReadInto(response: array<bv8>, len: nat, room: nat, data: seq<bv8>) returns (readLen: nat)
    requires len + room <= response.Length
    modifies response
    ensures readLen == if |data| < room then |data| else room
    ensures response[..len + readLen] == old(response[..len]) + data[..readLen]
  {
    readLen := if |data| < room then |data| else room;
    forall k | 0 <= k < readLen { response[len + k] := data[k]; }
  }

  /** Collects a reply of exactly max bytes, in whatever pieces it arrives. */
  method RequestAndWait(written: bool, arrivals: seq<Read>, response: array<bv8>, max: nat) returns (ok: bool, len: nat)
    requires 0 < max <= response.Length
    modifies response
    ensures ok <==> written && |Received(arrivals)| >= max
    ensures ok ==> len == max && response[..max] == Received(arrivals)[..max]
  {
    hide Received;
    len := 0;
    if !written {
      return false, len;
    }
    var i := 0;
    assert arrivals[0..] == arrivals;
    while i < |arrivals|
      invariant 0 <= i <= |arrivals|
      invariant len < max
      invariant Received(arrivals) == response[..len] + Received(arrivals[i..])
    {
      match arrivals[i] {
        case Failed =>
          ReceivedStep(arrivals, i, response[..len], 0);
        case Got(data) =>
          ghost var before := response[..len];
          var readLen := ReadInto(response, len, max - len, data);
          ReceivedStep(arrivals, i, before, readLen);
          len := len + readLen;
          if len >= max {
            return true, len;
          }
      }
      i := i + 1;
    }
    NothingReceived(arrivals, i);
    assert Received(arrivals) == response[..len];
    return false, len;
  }

  /** Reads holding registers of a slave: succeeds exactly when the line delivers an acceptable reply. */
  method ReadHoldingRegisters(slave: bv16, address: bv16, values: array<bv16>, count: bv16,
                              written: bool, arrivals: seq<Read>)
    returns (ok: bool, ghost sent: seq<bv8>)
    requires Number(count) <= REGISTERS_MAX && Number(count) <= values.Length
    modifies values
    ensures Understood(sent) == Some(Query(Low(slave), 0x03, Number(address), Number(count)))
    ensures sent == Request(Low(slave), READ_HOLDING_REGISTERS, address, count)
    ensures var n := Number(count); var size := 5 + 2 * n;
            ok <==> written && |Received(arrivals)| >= size && Accepted(n, Received(arrivals)[..size])
    ensures ok ==> values[..Number(count)] == Decode(Payload(Received(arrivals)[..5 + 2 * Number(count)]))
    ensures forall i :: (if ok then Number(count) else 0) <= i < values.Length ==> values[i] == old(values[i])
  {
    hide ReflectedCrc, Request, Accepted, Passes, Decode, Value, Low, Number, Understood;
    var request := new RequestFrame(Low(slave), READ_HOLDING_REGISTERS, address, count);
    sent := request.raw[..request.frameSize];
    var buffer := new bv8[FRAME_SIZE];
    var collected, length := RequestAndWait(written, arrivals, buffer, request.responseSize);
    if !collected {
      return false, sent;
    }
    ghost var frame := Received(arrivals)[..length];
    PassesIffAccepted(Number(count), frame);
    var response := new ResponseFrame(READ_HOLDING_REGISTERS, buffer, length);
    if !response.valid {
      return false, sent;
    }
    ValidHeader(frame, response.raw[..], Number(count));
    ok := response.ReadHoldingRegisters(values, Number(count));
    return ok, sent;
  }
  /** Writes one register of slave 1: succeeds exactly when the line delivers an acceptable echo. */
  method WriteRegister(address: bv16, value: bv16, written: bool, arrivals: seq<Read>)
    returns (ok: bool, ghost sent: seq<bv8>)
    ensures Understood(sent) == Some(Query(1, 0x06, Number(address), Number(value)))
    ensures ok <==> written && |Received(arrivals)| >= 8 && AcceptedEcho(Received(arrivals)[..8])
  {
    hide ReflectedCrc, Request, AcceptedEcho, Passes, Value, Number, Understood;
    var request := new RequestFrame(1, WRITE_SINGLE_REGISTER, address, value);
    sent := request.raw[..request.frameSize];
    var buffer := new bv8[FRAME_SIZE];
    var collected, length := RequestAndWait(written, arrivals, buffer, request.responseSize);
    if !collected {
      return false, sent;
    }
    PassesIffEcho(Received(arrivals)[..length]);
    var response := new ResponseFrame(WRITE_SINGLE_REGISTER, buffer, length);
    return response.valid, sent;
  }
}
