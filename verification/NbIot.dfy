/**
The NB-IoT modem: it sends MQTT packets as hexadecimal text, over a session
that is set up step by step. The packets are specified by a decoder that
follows MQTT V3.1, sections 2.1, 3.1 and 3.3.
*/
module NbIot {

  import opened Wrappers

  type Octet = x: int | 0 <= x < 0x100

  // ---------------------------------------------------------------------------
  // Hexadecimal text
  // ---------------------------------------------------------------------------

  function Digit(n: nat): char
    requires n < 16
  {
    "0123456789ABCDEF"[n]
  }

  function Hex(b: seq<Octet>): (text: string)
    ensures |text| == 2 * |b|
  {
    if b == [] then "" else [Digit(b[0] / 16), Digit(b[0] % 16)] + Hex(b[1..])
  }

  function DigitValue(c: char): Option<nat> {
    if '0' <= c <= '9' then Some(c as int - '0' as int)
    else if 'A' <= c <= 'F' then Some(c as int - 'A' as int + 10)
    else if 'a' <= c <= 'f' then Some(c as int - 'a' as int + 10)
    else None
  }

  /** The bytes that a text of hexadecimal digits stands for. */
  function Unhex(text: string): Option<seq<Octet>> {
    if text == "" then Some([])
    else if |text| == 1 then None
    else match (DigitValue(text[0]), DigitValue(text[1]), Unhex(text[2..]))
      case (Some(hi), Some(lo), Some(rest)) => if hi < 16 && lo < 16 then Some([16 * hi + lo] + rest) else None
      case _ => None
  }

  lemma DigitRoundTrip(n: nat)
    requires n < 16
    ensures DigitValue(Digit(n)) == Some(n)
  {
  }

  lemma {:induction false} UnhexHex(b: seq<Octet>)
    ensures Unhex(Hex(b)) == Some(b)
  {
    hide Digit, DigitValue;
    if b != [] {
      DigitRoundTrip(b[0] / 16);
      DigitRoundTrip(b[0] % 16);
      UnhexHex(b[1..]);
      var text := Hex(b);
      assert text[2..] == Hex(b[1..]);
      assert DigitValue(text[0]) == Some(b[0] / 16) && DigitValue(text[1]) == Some(b[0] % 16);
      assert Unhex(text) == Some([16 * (b[0] / 16) + b[0] % 16] + b[1..]);
      assert [16 * (b[0] / 16) + b[0] % 16] + b[1..] == b;
    }
  }

  /** The text consists of digits and upper-case letters. */
  lemma {:induction false} HexIsUpper(b: seq<Octet>)
    ensures forall i :: 0 <= i < |Hex(b)| ==> '0' <= Hex(b)[i] <= '9' || 'A' <= Hex(b)[i] <= 'F'
  {
    if b != [] {
      HexIsUpper(b[1..]);
    }
  }

  lemma {:induction false} HexAppend(b: seq<Octet>, c: seq<Octet>)
    ensures Hex(b + c) == Hex(b) + Hex(c)
  {
    if b == [] {
      assert b + c == c;
    } else {
      assert (b + c)[1..] == b[1..] + c;
      HexAppend(b[1..], c);
    }
  }

  method ConvertString(hex: nat, saveMsg: string) returns (text: string)
    requires hex < 16
    ensures text == saveMsg + [Digit(hex)]
  {
    match hex {
      case 0x0 => text := saveMsg + "0";
      case 0x1 => text := saveMsg + "1";
      case 0x2 => text := saveMsg + "2";
      case 0x3 => text := saveMsg + "3";
      case 0x4 => text := saveMsg + "4";
      case 0x5 => text := saveMsg + "5";
      case 0x6 => text := saveMsg + "6";
      case 0x7 => text := saveMsg + "7";
      case 0x8 => text := saveMsg + "8";
      case 0x9 => text := saveMsg + "9";
      case 0xA => text := saveMsg + "A";
      case 0xB => text := saveMsg + "B";
      case 0xC => text := saveMsg + "C";
      case 0xD => text := saveMsg + "D";
      case 0xE => text := saveMsg + "E";
      case 0xF => text := saveMsg + "F";
    }
  }

  /** Appends the text of the first bytes of a packet. */
  method MessageGen(size: nat, message: array<Octet>, genMsg: string) returns (text: string)
    requires size <= message.Length
    ensures text == genMsg + Hex(message[..size])
  {
    text := genMsg;
    for i := 0 to size
      invariant text == genMsg + Hex(message[..i])
    {
      var temp := message[i];
      assert message[..i + 1] == message[..i] + [temp];
      HexAppend(message[..i], [temp]);
      text := ConvertString(temp / 16, text);
      text := ConvertString(temp % 16, text);
    }
  }

  // ---------------------------------------------------------------------------
  // MQTT V3.1
  // ---------------------------------------------------------------------------

  /** The remaining length of section 2.1: its value and the number of bytes it takes, at most max. */
  function RemainingLength(b: seq<Octet>, max: nat): Option<(nat, nat)> {
    if b == [] || max == 0 then None
    else if b[0] < 128 then Some((b[0], 1))
    else match RemainingLength(b[1..], max - 1)
      case None => None
      case Some((v, k)) => Some((b[0] - 128 + 128 * v, k + 1))
  }

  /** What follows the fixed header of a packet whose remaining length is right. */
  function Body(packet: seq<Octet>): Option<seq<Octet>> {
    if packet == [] then None
    else match RemainingLength(packet[1..], 4)
      case None => None
      case Some((v, k)) => if |packet| == 1 + k + v then Some(packet[1 + k..]) else None
  }

  /** A string with its length in front, and what follows. */
  function TakeString(b: seq<Octet>): Option<(seq<Octet>, seq<Octet>)> {
    if |b| < 2 then None
    else
      var n: nat := 0x100 * (b[0] as int) + b[1] as int;
      if |b| < 2 + n then None else Some((b[2..2 + n], b[2 + n..]))
  }

  datatype Publication =
    Publication(dup: bool, qos: nat, retain: bool, topic: seq<Octet>, messageId: nat, payload: seq<Octet>)

  /** Section 3.3: a message type of 3, the flags, the topic, a message id if the quality of service asks for one. */
  function DecodePublish(packet: seq<Octet>): Option<Publication> {
    if packet == [] || packet[0] / 16 != 3 then None
    else
      var dup, qos, retain := packet[0] / 8 % 2 == 1, packet[0] / 2 % 4, packet[0] % 2 == 1;
      match Body(packet)
      case None => None
      case Some(body) =>
        match TakeString(body)
        case None => None
        case Some((topic, rest)) =>
          if qos == 0 then Some(Publication(dup, qos, retain, topic, 0, rest))
          else if qos == 3 || |rest| < 2 then None
          else Some(Publication(dup, qos, retain, topic, 0x100 * (rest[0] as int) + rest[1] as int, rest[2..]))
  }

  datatype Connection =
    Connection(protocol: seq<Octet>, version: nat, cleanSession: bool, keepAlive: nat, clientId: seq<Octet>)

  const PROTOCOL: seq<Octet> := [0x4D, 0x51, 0x49, 0x73, 0x64, 0x70]

  /** Section 3.1: a message type of 1, protocol name and version, connect flags, keep alive, client id.
      Wills, user names and passwords are not decoded: their flags must be clear. */
  function DecodeConnect(packet: seq<Octet>): Option<Connection> {
    if packet == [] || packet[0] / 16 != 1 then None
    else match Body(packet)
      case None => None
      case Some(body) =>
        match TakeString(body)
        case None => None
        case Some((protocol, header)) =>
          if |header| < 4 || header[1] / 4 != 0 then None
          else match TakeString(header[4..])
            case None => None
            case Some((clientId, rest)) =>
              if rest != [] then None
              else
                var keepAlive := 0x100 * (header[2] as int) + header[3] as int;
                Some(Connection(protocol, header[0], header[1] / 2 == 1, keepAlive, clientId))
  }

  // ---------------------------------------------------------------------------
  // The packets of the modem
  // ---------------------------------------------------------------------------

  const UINT16 := 0x1_0000

  function Bytes16(n: nat): seq<Octet>
    requires n < UINT16
  {
    [n / 0x100, n % 0x100]
  }

  /** The remaining length as the modem writes it: one byte or two, the second one cut off to eight bits. */
  function LengthBytes(n: nat): (b: seq<Octet>)
    requires n < UINT16
    ensures |b| == if n <= 127 then 1 else 2
  {
    if n <= 127 then [n] else [n % 128 + 128, n / 128 % 0x100]
  }

  function PublishPacket(topic: seq<Octet>, payload: seq<Octet>): (b: seq<Octet>)
    requires 2 + |topic| + |payload| < UINT16
  {
    [0x30] + LengthBytes(2 + |topic| + |payload|) + Bytes16(|topic|) + topic + payload
  }

  /** Only the low eight bits of the remaining length are kept. */
  function ConnectPacket(clientId: seq<Octet>): seq<Octet>
    requires |clientId| < UINT16
  {
    [0x10] + LengthBytes((14 + |clientId|) % 0x100)
    + [0, 6] + PROTOCOL + [3, 2, 0, 60] + Bytes16(|clientId|) + clientId
  }

  lemma ShortLength(n: nat, rest: seq<Octet>)
    requires n < 128 * 128
    ensures RemainingLength(LengthBytes(n) + rest, 4) == Some((n, |LengthBytes(n)|))
  {
    var b := LengthBytes(n) + rest;
    if n > 127 {
      assert b[1..][0] == n / 128;
    }
  }

  /** A longer length is either read without its top bits, or continued into the bytes that follow;
      neither comes out as the number of bytes that are left. */
  lemma LongLength(n: nat, rest: seq<Octet>)
    requires 128 * 128 <= n < UINT16 && |rest| == n
    ensures match RemainingLength(LengthBytes(n) + rest, 4)
      case None => true
      case Some((v, k)) => v + k != n + 2
  {
    var b := LengthBytes(n) + rest;
    var q := n / 128 % 0x100;
    assert b[1..][0] == q && b[1..][1..] == rest;
    if q >= 128 {
      FewBytes(rest, 2);
      match RemainingLength(rest, 2)
      case None =>
      case Some((v, k)) =>
        assert RemainingLength(b, 4) == Some((n % 128 + 128 * (q - 128 + 128 * v), k + 2));
        Congruent(n, q, v, k);
    }
  }

  lemma Congruent(n: nat, q: nat, v: nat, k: nat)
    requires n < UINT16 && q == n / 128 % 0x100 && q >= 128 && 1 <= k <= 2
    ensures n % 128 + 128 * (q - 128 + 128 * v) + k != n
  {
    var h := n / 128;
    assert n == 128 * h + n % 128;
    assert h == q || h == q + 0x100;
  }

  lemma {:induction false} FewBytes(b: seq<Octet>, max: nat)
    ensures RemainingLength(b, max).Some? ==> 1 <= RemainingLength(b, max).value.1 <= max
    decreases max
  {
    if b != [] && max > 0 {
      FewBytes(b[1..], max - 1);
    }
  }

  /** What a decoder finds behind the fixed header. */
  lemma BodyOf(h: Octet, n: nat, rest: seq<Octet>)
    requires n < UINT16
    ensures |rest| == n ==> Body([h] + LengthBytes(n) + rest) == if n < 128 * 128 then Some(rest) else None
    ensures |rest| != n < 128 * 128 ==> Body([h] + LengthBytes(n) + rest) == None
  {
    hide RemainingLength, LengthBytes;
    var packet := [h] + LengthBytes(n) + rest;
    assert packet[1..] == LengthBytes(n) + rest;
    if n < 128 * 128 {
      ShortLength(n, rest);
      assert packet[1 + |LengthBytes(n)|..] == rest;
    } else if |rest| == n {
      LongLength(n, rest);
    }
  }

  lemma TakenString(s: seq<Octet>, rest: seq<Octet>)
    requires |s| < UINT16
    ensures TakeString(Bytes16(|s|) + s + rest) == Some((s, rest))
  {
    var b := Bytes16(|s|) + s + rest;
    assert b[2..2 + |s|] == s && b[2 + |s|..] == rest;
  }

  /** The remaining lengths that section 2.1 gives as examples. */
  lemma LengthExamples()
    ensures RemainingLength([0x40], 4) == Some((64, 1))
    ensures RemainingLength([193, 2], 4) == Some((321, 2))
    ensures LengthBytes(64) == [0x40] && LengthBytes(321) == [193, 2]
  {
    assert [193, 2][1..] == [2];
  }

  /** A publication byte by byte: the topic "a/b" with the payload "hi". */
  lemma PublishExample()
    ensures PublishPacket([0x61, 0x2F, 0x62], [0x68, 0x69])
         == [0x30, 0x07, 0x00, 0x03, 0x61, 0x2F, 0x62, 0x68, 0x69]
  {
  }

  /** A connection byte by byte: "MQIsdp", version 3, a clean session, 60 seconds, the client id "a". */
  lemma ConnectExample()
    ensures ConnectPacket([0x61])
         == [0x10, 0x0F, 0x00, 0x06, 0x4D, 0x51, 0x49, 0x73, 0x64, 0x70, 0x03, 0x02, 0x00, 0x3C, 0x00, 0x01, 0x61]
    ensures forall i :: 0 <= i < 6 ==> PROTOCOL[i] == "MQIsdp"[i] as int
  {
  }

  /** The topic and the payload come back if the length fits two bytes; otherwise the packet is malformed. */
  lemma PublishRoundTrip(topic: seq<Octet>, payload: seq<Octet>)
    requires 2 + |topic| + |payload| < UINT16
    ensures DecodePublish(PublishPacket(topic, payload)) ==
      if 2 + |topic| + |payload| <= 16383 then Some(Publication(false, 0, false, topic, 0, payload)) else None
  {
    hide LengthBytes, Bytes16, Body, TakeString;
    var n, body := 2 + |topic| + |payload|, Bytes16(|topic|) + topic + payload;
    assert PublishPacket(topic, payload) == [0x30] + LengthBytes(n) + body;
    assert |Bytes16(|topic|)| == 2 by { TwoBytes(|topic|); }
    BodyOf(0x30, n, body);
    TakenString(topic, payload);
  }

  lemma TwoBytes(n: nat)
    requires n < UINT16
    ensures |Bytes16(n)| == 2
  {
  }

  /** The client id comes back, with the protocol, a clean session and a keep alive of 60 seconds, if the remaining
      length fits its eight bits; otherwise the packet is malformed. */
  lemma ConnectRoundTrip(clientId: seq<Octet>)
    requires |clientId| < UINT16
    ensures DecodeConnect(ConnectPacket(clientId)) ==
      if |clientId| <= 241 then Some(Connection(PROTOCOL, 3, true, 60, clientId)) else None
  {
    hide LengthBytes, Bytes16, Body, TakeString;
    var n := (14 + |clientId|) % 0x100;
    var header := [3, 2, 0, 60] + (Bytes16(|clientId|) + clientId + []);
    var body := Bytes16(6) + PROTOCOL + header;
    assert Bytes16(6) == [0, 6] by { SixBytes(); }
    TwoBytes(|clientId|);
    assert ConnectPacket(clientId) == [0x10] + LengthBytes(n) + body;
    BodyOf(0x10, n, body);
    TakenString(PROTOCOL, header);
    assert header[4..] == Bytes16(|clientId|) + clientId + [];
    TakenString(clientId, []);
  }

  lemma SixBytes()
    ensures Bytes16(6) == [0, 6]
  {
  }

  // ---------------------------------------------------------------------------
  // Building the packets
  // ---------------------------------------------------------------------------

  method Memcpy(target: array<Octet>, offset: nat, source: seq<Octet>)
    requires offset + |source| <= target.Length
    modifies target
    ensures target[..offset] == old(target[..offset])
    ensures target[..offset + |source|] == old(target[..offset]) + source
  {
    forall i | 0 <= i < |source| { target[offset + i] := source[i]; }
    assert target[offset..offset + |source|] == source;
    assert target[..offset + |source|] == target[..offset] + target[offset..offset + |source|];
  }

  /** The fixed header: the message type and the remaining length. */
  method FixedHeader(messageType: Octet, remainLen: nat) returns (header: array<Octet>, size: nat)
    requires remainLen < UINT16
    ensures fresh(header) && size <= header.Length == 3 && header[..size] == [messageType] + LengthBytes(remainLen)
  {
    header := new Octet[3];
    header[0] := messageType;
    size := 2;
    if remainLen <= 127 {
      header[1] := remainLen;
    } else {
      size := 3;
      header[1] := remainLen % 128 + 128;
      header[2] := remainLen / 128 % 0x100;
    }
  }

  lemma PublishTextRoundTrip(topic: seq<Octet>, payload: seq<Octet>)
    requires 2 + |topic| + |payload| < UINT16
    ensures var text := "" + Hex(PublishPacket(topic, payload));
      Unhex(text) == Some(PublishPacket(topic, payload))
      && DecodePublish(PublishPacket(topic, payload))
         == if 2 + |topic| + |payload| <= 16383 then Some(Publication(false, 0, false, topic, 0, payload)) else None
  {
    hide *;
    var text := Hex(PublishPacket(topic, payload));
    assert "" + text == text;
    PublishRoundTrip(topic, payload);
    UnhexHex(PublishPacket(topic, payload));
  }

  lemma ConnectTextRoundTrip(name: seq<Octet>)
    requires |name| < UINT16
    ensures var text := "" + Hex(ConnectPacket(name));
      Unhex(text) == Some(ConnectPacket(name))
      && DecodeConnect(ConnectPacket(name))
         == if |name| <= 241 then Some(Connection(PROTOCOL, 3, true, 60, name)) else None
  {
    hide *;
    var text := Hex(ConnectPacket(name));
    assert "" + text == text;
    ConnectRoundTrip(name);
    UnhexHex(ConnectPacket(name));
  }

  /** The text of a PUBLISH packet, appended to a message. The two 16-bit sizes that are allocated must not wrap. */
  method PublishMessageGen(topic: seq<Octet>, payload: seq<Octet>, message: string)
    returns (text: string, packetLen: nat)
    requires 5 + |topic| + |payload| < UINT16
    ensures text == message + Hex(PublishPacket(topic, payload)) && |text| == |message| + 2 * packetLen
    ensures message == "" ==> Unhex(text).Some? && |Unhex(text).value| == packetLen
    ensures message == "" ==>
      DecodePublish(Unhex(text).value)
      == if 2 + |topic| + |payload| <= 16383 then Some(Publication(false, 0, false, topic, 0, payload)) else None
  {
    hide Hex, Unhex, DecodePublish, LengthBytes, Bytes16;
    var topicLen, msgLen := |topic|, |payload|;
    var varHeaderLen := topicLen + 2;
    var varHeader := new Octet[varHeaderLen];
    varHeader[0], varHeader[1] := topicLen / 0x100, topicLen % 0x100;
    assert varHeader[..2] == Bytes16(topicLen) by { TwoBytesAre(topicLen); }
    Memcpy(varHeader, 2, topic);
    var remainLen := varHeaderLen + msgLen;
    var fixedHeader, fixedHeaderSize := FixedHeader(0x30, remainLen);
    packetLen := fixedHeaderSize + varHeaderLen + msgLen;
    var packet := new Octet[packetLen];
    Memcpy(packet, 0, fixedHeader[..fixedHeaderSize]);
    Memcpy(packet, fixedHeaderSize, varHeader[..varHeaderLen]);
    Memcpy(packet, fixedHeaderSize + varHeaderLen, payload);
    assert packet[..packetLen] == PublishPacket(topic, payload);
    text := MessageGen(packetLen, packet, message);
    PublishTextRoundTrip(topic, payload);
  }

  lemma TwoBytesAre(n: nat)
    requires n < UINT16
    ensures Bytes16(n) == [n / 0x100, n % 0x100]
  {
  }

  lemma ConnectParts(name: seq<Octet>, start: seq<Octet>, header: seq<Octet>)
    requires |name| < UINT16
    requires start == [0x10] + LengthBytes((14 + |name|) % 0x100) && header == [0, 6] + PROTOCOL + [3, 2, 0, 60]
    ensures start + header + Bytes16(|name|) + name == ConnectPacket(name)
  {
    hide LengthBytes, Bytes16;
    assert start + header == start + [0, 6] + PROTOCOL + [3, 2, 0, 60];
  }

  /** The parts of the packet, copied one after the other. */
  method AssembleConnect(start: seq<Octet>, header: seq<Octet>, name: seq<Octet>) returns (packet: array<Octet>)
    requires |name| < UINT16
    ensures fresh(packet) && packet.Length == |start| + |header| + 2 + |name|
    ensures packet[..] == start + header + Bytes16(|name|) + name
  {
    packet := new Octet[|start| + |header| + 2 + |name|];
    Memcpy(packet, 0, start);
    var offset := |start|;
    assert packet[..offset] == start;
    Memcpy(packet, offset, header);
    offset := offset + |header|;
    assert packet[..offset] == start + header;
    Memcpy(packet, offset, [|name| / 0x100, |name| % 0x100]);
    offset := offset + 2;
    assert packet[..offset] == start + header + Bytes16(|name|);
    Memcpy(packet, offset, name);
    assert packet[..] == packet[..offset + |name|];
  }

  /** The text of a CONNECT packet for a device of this name, appended to a message. */
  method ConnectMessageGen(name: seq<Octet>, message: string) returns (text: string, packetSize: nat)
    requires 17 + |name| < UINT16
    ensures text == message + Hex(ConnectPacket(name)) && |text| == |message| + 2 * packetSize
    ensures message == "" ==> Unhex(text).Some? && |Unhex(text).value| == packetSize
    ensures message == "" ==>
      DecodeConnect(Unhex(text).value) == if |name| <= 241 then Some(Connection(PROTOCOL, 3, true, 60, name)) else None
  {
    hide Hex, Unhex, DecodeConnect, LengthBytes, Bytes16;
    var clientIdLen := |name|;
    var payloadLen := clientIdLen + 2;
    var varHeader := [0x00, 0x06, 0x4D, 0x51, 0x49, 0x73, 0x64, 0x70, 0x03, 0x00, 0x00, 0x00];
    var flags := 0x02;
    varHeader := varHeader[9 := flags][10 := 60 / 0x100][11 := 60 % 0x100];
    var remainLen := (|varHeader| + payloadLen) % 0x100;
    var fixedHeader, fixedHeaderSize := FixedHeader(0x10, remainLen);
    packetSize := fixedHeaderSize + |varHeader| + payloadLen;
    ghost var start := fixedHeader[..fixedHeaderSize];
    var packet := AssembleConnect(fixedHeader[..fixedHeaderSize], varHeader, name);
    assert packet[..packetSize] == packet[..];
    assert varHeader == [0, 6] + PROTOCOL + [3, 2, 0, 60];
    ConnectParts(name, start, varHeader);
    text := MessageGen(packetSize, packet, message);
    ConnectTextRoundTrip(name);
  }

  // ---------------------------------------------------------------------------
  // The session
  // ---------------------------------------------------------------------------

  datatype Call = Reset(ok: bool) | Status(ok: bool) | Tcp(ok: bool) | Mqtt(ok: bool) | Publish(sensor: nat, ok: bool)

  const SENSORS := 10

  /** What the modem answers in one turn, and whether the correction timer has run down. */
  datatype Answers = Answers(reset: bool, status: bool, tcp: bool, mqtt: bool, due: bool, publish: seq<bool>)

  predicate Whole(a: Answers) {
    |a.publish| == SENSORS
  }

  datatype Modem = Modem(state: nat, log: seq<Call>)

  /** The publications of a turn from sensor i on: they stop at the first that fails. */
  function Publications(a: Answers, i: nat): seq<Call>
    requires Whole(a) && i <= SENSORS
    decreases SENSORS - i
  {
    if i == SENSORS then []
    else [Publish(i, a.publish[i])] + if a.publish[i] then Publications(a, i + 1) else []
  }

  predicate AllPublished(a: Answers, i: nat)
    requires Whole(a) && i <= SENSORS
  {
    forall j :: i <= j < SENSORS ==> a.publish[j]
  }

  /** What the modem does in a state, at its place in a turn. */
  function Stage(m: Modem, a: Answers, state: nat): Modem
    requires Whole(a)
  {
    if m.state != state then m
    else match state
      case 0 => Modem(if a.reset then 1 else 0, m.log + [Reset(a.reset)])
      case 1 => Modem(if a.status then 2 else 1, m.log + [Status(a.status)])
      case 2 => Modem(if a.tcp then 3 else 0, m.log + [Tcp(a.tcp)])
      case 3 => Modem(if a.mqtt then 4 else 0, m.log + [Mqtt(a.mqtt)])
      case 4 => if a.due then Modem(if AllPublished(a, 0) then 4 else 0, m.log + Publications(a, 0)) else m
      case _ => m
  }

  function Turn(m: Modem, a: Answers): Modem
    requires Whole(a)
  {
    Stage(Stage(Stage(Stage(Stage(m, a, 0), a, 1), a, 2), a, 3), a, 4)
  }

  function Run(m: Modem, turns: seq<Answers>): Modem
    requires forall a :: a in turns ==> Whole(a)
    decreases |turns|
  {
    if turns == [] then m else Run(Turn(m, turns[0]), turns[1..])
  }

  /** The calls since the reset that began a session, k of them unsuccessful queries of the network status: these
      are repeated, everything else succeeded, in this order. */
  predicate OpenedAfter(calls: seq<Call>, state: nat, k: nat) {
    && |calls| >= k + 1
    && calls[0] == Reset(true)
    && (forall i :: 1 <= i <= k ==> calls[i] == Status(false))
    && (if state == 1 then |calls| == k + 1 else |calls| > k + 1 && calls[k + 1] == Status(true))
    && (if state <= 2 then |calls| <= k + 2 else |calls| > k + 2 && calls[k + 2] == Tcp(true))
    && (if state <= 3 then |calls| <= k + 3 else |calls| > k + 3 && calls[k + 3] == Mqtt(true))
    && (forall i :: k + 4 <= i < |calls| ==> calls[i].Publish? && calls[i].ok)
  }

  ghost predicate Opened(calls: seq<Call>, state: nat) {
    exists k: nat :: OpenedAfter(calls, state, k)
  }

  ghost predicate OpenedSince(log: seq<Call>, end: nat, state: nat)
    requires end <= |log|
  {
    exists start: nat :: start <= end && Opened(log[start..end], state)
  }

  /** Every publication is preceded by a successful reset, network status, TCP connection and MQTT connection, in this
      order, and since that reset nothing has failed but queries of the network status. */
  ghost predicate Safe(log: seq<Call>) {
    forall i :: 0 <= i < |log| && log[i].Publish? ==> OpenedSince(log, i, 4)
  }

  ghost predicate Inv(m: Modem) {
    m.state <= 4 && Safe(m.log) && (m.state > 0 ==> OpenedSince(m.log, |m.log|, m.state))
  }

  lemma SafeAppend(log: seq<Call>, call: Call)
    requires Safe(log) && (call.Publish? ==> OpenedSince(log, |log|, 4))
    ensures Safe(log + [call])
  {
    hide Opened;
    var t := log + [call];
    forall i | 0 <= i < |t| && t[i].Publish? ensures OpenedSince(t, i, 4) {
      assert OpenedSince(log, i, 4);
      var start: nat :| start <= i && Opened(log[start..i], 4);
      assert t[start..i] == log[start..i];
    }
  }

  /** A call that is due in a state and succeeds, or a status query that fails, and the state after it. */
  predicate Advances(state: nat, call: Call, next: nat) {
    match state
    case 1 => call.Status? && next == if call.ok then 2 else 1
    case 2 => call == Tcp(true) && next == 3
    case 3 => call == Mqtt(true) && next == 4
    case 4 => call.Publish? && call.ok && next == 4
    case _ => false
  }

  lemma CallsNext(calls: seq<Call>, state: nat, k: nat, call: Call, next: nat)
    requires OpenedAfter(calls, state, k) && Advances(state, call, next)
    ensures OpenedAfter(calls + [call], next, if next == 1 then k + 1 else k)
  {
    var t := calls + [call];
    assert forall i :: 0 <= i < |calls| ==> t[i] == calls[i];
    assert t[|calls|] == call;
  }

  lemma OpenedNext(log: seq<Call>, state: nat, call: Call, next: nat)
    requires OpenedSince(log, |log|, state) && Advances(state, call, next)
    ensures OpenedSince(log + [call], |log| + 1, next)
  {
    hide OpenedAfter, Advances;
    var start: nat :| start <= |log| && Opened(log[start..|log|], state);
    var calls := log[start..|log|];
    var k: nat :| OpenedAfter(calls, state, k);
    CallsNext(calls, state, k, call, next);
    assert (log + [call])[start..|log| + 1] == calls + [call];
    assert Opened(calls + [call], next);
  }

  lemma OpenedReset(log: seq<Call>)
    ensures OpenedSince(log + [Reset(true)], |log| + 1, 1)
  {
    var t := log + [Reset(true)];
    assert t[|log|..|log| + 1] == [Reset(true)];
    assert OpenedAfter([Reset(true)], 1, 0);
    assert Opened(t[|log|..|log| + 1], 1);
  }

  lemma PublicationsEnd(a: Answers)
    requires Whole(a)
    ensures Publications(a, SENSORS) == [] && AllPublished(a, SENSORS)
  {
  }

  lemma PublicationsFrom(a: Answers, i: nat)
    requires Whole(a) && i < SENSORS
    ensures Publications(a, i) == [Publish(i, a.publish[i])] + if a.publish[i] then Publications(a, i + 1) else []
    ensures AllPublished(a, i) <==> a.publish[i] && AllPublished(a, i + 1)
  {
  }

  lemma {:induction false} PublicationsKeep(log: seq<Call>, a: Answers, i: nat)
    requires Whole(a) && i <= SENSORS && Safe(log) && OpenedSince(log, |log|, 4)
    ensures Safe(log + Publications(a, i))
    ensures AllPublished(a, i) ==> OpenedSince(log + Publications(a, i), |log + Publications(a, i)|, 4)
    decreases SENSORS - i
  {
    hide Safe, OpenedSince, AllPublished, Publications;
    if i == SENSORS {
      PublicationsEnd(a);
      assert log + [] == log;
    } else {
      PublicationsFrom(a, i);
      var call := Publish(i, a.publish[i]);
      SafeAppend(log, call);
      if a.publish[i] {
        OpenedNext(log, 4, call, 4);
        PublicationsKeep(log + [call], a, i + 1);
        assert log + [call] + Publications(a, i + 1) == log + Publications(a, i);
      } else {
        assert Publications(a, i) == [call];
      }
    }
  }

  lemma StageKeeps(m: Modem, a: Answers, state: nat)
    requires Inv(m) && Whole(a)
    ensures Inv(Stage(m, a, state))
  {
    hide Safe, OpenedSince, Publications;
    if m.state == state {
      match state {
        case 0 =>
          SafeAppend(m.log, Reset(a.reset));
          OpenedReset(m.log);
        case 1 =>
          SafeAppend(m.log, Status(a.status));
          OpenedNext(m.log, 1, Status(a.status), if a.status then 2 else 1);
        case 2 =>
          SafeAppend(m.log, Tcp(a.tcp));
          if a.tcp { OpenedNext(m.log, 2, Tcp(true), 3); }
        case 3 =>
          SafeAppend(m.log, Mqtt(a.mqtt));
          if a.mqtt { OpenedNext(m.log, 3, Mqtt(true), 4); }
        case 4 => PublicationsKeep(m.log, a, 0);
      }
    }
  }

  lemma TurnKeeps(m: Modem, a: Answers)
    requires Inv(m) && Whole(a)
    ensures Inv(Turn(m, a))
  {
    hide Inv, Stage;
    var m0 := Stage(m, a, 0);
    var m1 := Stage(m0, a, 1);
    var m2 := Stage(m1, a, 2);
    var m3 := Stage(m2, a, 3);
    StageKeeps(m, a, 0);
    StageKeeps(m0, a, 1);
    StageKeeps(m1, a, 2);
    StageKeeps(m2, a, 3);
    StageKeeps(m3, a, 4);
  }

  lemma {:induction false} RunKeeps(m: Modem, turns: seq<Answers>)
    requires Inv(m) && forall a :: a in turns ==> Whole(a)
    ensures Inv(Run(m, turns))
    decreases |turns|
  {
    hide Inv, Turn;
    if turns != [] {
      TurnKeeps(m, turns[0]);
      RunKeeps(Turn(m, turns[0]), turns[1..]);
    }
  }

  /** Whatever the modem answers, from the first turn on. */
  lemma EveryRunSafe(turns: seq<Answers>)
    requires forall a :: a in turns ==> Whole(a)
    ensures Safe(Run(Modem(0, []), turns).log)
  {
    RunKeeps(Modem(0, []), turns);
  }

  // ---------------------------------------------------------------------------
  // Which call follows which
  // ---------------------------------------------------------------------------

  /** A failed status query is repeated, any other failed call leads to a new reset, and what succeeds leads on: to the
      network status, the TCP connection, the MQTT connection, and the ten sensors in turn. */
  predicate Follows(previous: Call, call: Call) {
    match previous
    case Reset(ok) => if ok then call.Status? else call.Reset?
    case Status(ok) => if ok then call.Tcp? else call.Status?
    case Tcp(ok) => if ok then call.Mqtt? else call.Reset?
    case Mqtt(ok) => if ok then call.Publish? && call.sensor == 0 else call.Reset?
    case Publish(sensor, ok) => if ok then call.Publish? && call.sensor == (sensor + 1) % 10 else call.Reset?
  }

  /** The state to which a call leads. */
  function StateAfter(call: Call): nat {
    match call
    case Reset(ok) => if ok then 1 else 0
    case Status(ok) => if ok then 2 else 1
    case Tcp(ok) => if ok then 3 else 0
    case Mqtt(ok) => if ok then 4 else 0
    case Publish(_, ok) => if ok then 4 else 0
  }

  predicate Chained(log: seq<Call>) {
    && (log != [] ==> log[0].Reset?)
    && forall i :: 0 < i < |log| ==> Follows(log[i - 1], log[i])
  }

  /** What holds between two turns: the last call is not a publication in the middle of the ten. */
  predicate Settled(m: Modem) {
    && Chained(m.log)
    && m.state == (if m.log == [] then 0 else StateAfter(m.log[|m.log| - 1]))
    && (m.state == 4 ==> m.log[|m.log| - 1] in {Mqtt(true), Publish(9, true)})
  }

  lemma ChainedNext(log: seq<Call>, call: Call)
    requires Chained(log) && (if log == [] then call.Reset? else Follows(log[|log| - 1], call))
    ensures Chained(log + [call])
  {
    var t := log + [call];
    assert forall i :: 0 <= i < |log| ==> t[i] == log[i];
  }

  lemma {:induction false} PublicationsChained(log: seq<Call>, a: Answers, i: nat)
    requires Whole(a) && i < SENSORS && Chained(log)
    requires log != [] && Follows(log[|log| - 1], Publish(i, true)) && Follows(log[|log| - 1], Publish(i, false))
    ensures var t := log + Publications(a, i);
      Chained(t) && var last := t[|t| - 1];
      if AllPublished(a, i) then last == Publish(9, true) else last.Publish? && !last.ok
    decreases SENSORS - i
  {
    hide Chained, AllPublished, Publications;
    PublicationsFrom(a, i);
    var call := Publish(i, a.publish[i]);
    ChainedNext(log, call);
    if a.publish[i] && i + 1 < SENSORS {
      PublicationsChained(log + [call], a, i + 1);
      assert log + [call] + Publications(a, i + 1) == log + Publications(a, i);
    } else {
      PublicationsEnd(a);
      assert Publications(a, i) == [call];
    }
  }

  lemma StageSettled(m: Modem, a: Answers, state: nat)
    requires Whole(a) && Settled(m)
    ensures Settled(Stage(m, a, state))
  {
    hide Chained, AllPublished, Publications;
    if m.state == state {
      match state {
        case 0 => ChainedNext(m.log, Reset(a.reset));
        case 1 => ChainedNext(m.log, Status(a.status));
        case 2 => ChainedNext(m.log, Tcp(a.tcp));
        case 3 => ChainedNext(m.log, Mqtt(a.mqtt));
        case _ =>
          if state == 4 {
            PublicationsChained(m.log, a, 0);
          }
      }
    }
  }

  lemma {:induction false} RunSettled(m: Modem, turns: seq<Answers>)
    requires Settled(m) && forall a :: a in turns ==> Whole(a)
    ensures Settled(Run(m, turns))
    decreases |turns|
  {
    hide Settled, Stage;
    if turns != [] {
      var a := turns[0];
      StageSettled(m, a, 0);
      StageSettled(Stage(m, a, 0), a, 1);
      StageSettled(Stage(Stage(m, a, 0), a, 1), a, 2);
      StageSettled(Stage(Stage(Stage(m, a, 0), a, 1), a, 2), a, 3);
      StageSettled(Stage(Stage(Stage(Stage(m, a, 0), a, 1), a, 2), a, 3), a, 4);
      RunSettled(Turn(m, a), turns[1..]);
    }
  }

  /** Over every run each call is the one that follows from the outcome of the call before it, from the first reset on,
      and the state is the one to which the last call leads. */
  lemma EveryRunFollows(turns: seq<Answers>)
    requires forall a :: a in turns ==> Whole(a)
    ensures var m := Run(Modem(0, []), turns);
      && (m.log != [] ==> m.log[0].Reset?)
      && (forall i :: 0 < i < |m.log| ==> Follows(m.log[i - 1], m.log[i]))
      && m.state == (if m.log == [] then 0 else StateAfter(m.log[|m.log| - 1]))
  {
    RunSettled(Modem(0, []), turns);
  }

  /** A session starts over only at the beginning and after a call that failed, but not after a status query. */
  lemma EveryResetHasCause(turns: seq<Answers>, i: nat)
    requires forall a :: a in turns ==> Whole(a)
    ensures var log := Run(Modem(0, []), turns).log;
      0 < i < |log| && log[i].Reset? ==> !log[i - 1].ok && !log[i - 1].Status?
  {
    EveryRunFollows(turns);
    var log := Run(Modem(0, []), turns).log;
    if 0 < i < |log| {
      assert Follows(log[i - 1], log[i]);
    }
  }

  /** What the modem answers to a call in a turn. */
  predicate Answered(a: Answers, call: Call)
    requires Whole(a)
  {
    match call
    case Reset(ok) => ok == a.reset
    case Status(ok) => ok == a.status
    case Tcp(ok) => ok == a.tcp
    case Mqtt(ok) => ok == a.mqtt
    case Publish(sensor, ok) => a.due && sensor < 10 && ok == a.publish[sensor]
  }

  /** The calls of a turn: with the answers of that turn, and none after one that failed. */
  predicate Made(a: Answers, calls: seq<Call>)
    requires Whole(a)
  {
    && (forall i :: 0 <= i < |calls| ==> Answered(a, calls[i]))
    && (forall i :: 0 <= i < |calls| - 1 ==> calls[i].ok)
  }

  lemma MadeNext(a: Answers, calls: seq<Call>, more: seq<Call>)
    requires Whole(a) && Made(a, calls) && Made(a, more) && (calls != [] ==> calls[|calls| - 1].ok)
    ensures Made(a, calls + more)
  {
  }

  lemma {:induction false} PublicationsMade(a: Answers, i: nat)
    requires Whole(a) && i <= SENSORS && a.due
    ensures var p := Publications(a, i);
      Made(a, p) && (AllPublished(a, i) <==> p == [] || p[|p| - 1].ok)
    decreases SENSORS - i
  {
    hide AllPublished, Publications;
    if i == SENSORS {
      PublicationsEnd(a);
    } else {
      PublicationsFrom(a, i);
      if a.publish[i] {
        PublicationsMade(a, i + 1);
        MadeNext(a, [Publish(i, true)], Publications(a, i + 1));
      }
    }
  }

  /** The calls of the stages before stage n: none if the turn begins later; otherwise at least one, and stage n is
      reached if the last one succeeded. */
  predicate Progress(m: Modem, t: Modem, a: Answers, n: nat, calls: seq<Call>)
    requires Whole(a)
  {
    && t.log == m.log + calls && Made(a, calls)
    && if m.state >= n then t == m && calls == []
       else calls != [] && if calls[|calls| - 1].ok then t.state == n else t.state < n
  }

  lemma ProgressNext(m: Modem, t: Modem, a: Answers, n: nat, calls: seq<Call>) returns (made: seq<Call>)
    requires Whole(a) && n < 4 && Progress(m, t, a, n, calls)
    ensures Progress(m, Stage(t, a, n), a, n + 1, made)
  {
    made := calls;
    if t.state == n {
      var call := if n == 0 then Reset(a.reset) else if n == 1 then Status(a.status)
                  else if n == 2 then Tcp(a.tcp) else Mqtt(a.mqtt);
      made := calls + [call];
      MadeNext(a, calls, [call]);
      assert Stage(t, a, n).log == m.log + made;
    }
  }

  /** A turn goes on until a call fails or the modem is connected, and publishes if it then is and the timer has run
      down. */
  lemma TurnCalls(m: Modem, a: Answers) returns (calls: seq<Call>)
    requires Whole(a) && m.state <= 4
    ensures var t := Turn(m, a);
      && t.log == m.log + calls
      && (forall i :: 0 <= i < |calls| ==> Answered(a, calls[i]))
      && (forall i :: 0 <= i < |calls| - 1 ==> calls[i].ok)
      && (t.state != 4 <==> calls != [] && !calls[|calls| - 1].ok)
      && (t.state == 4 && a.due ==> calls != [] && calls[|calls| - 1] == Publish(9, true))
  {
    hide Stage, Publications, AllPublished, Made, Answered;
    calls := [];
    assert Made(a, []) by { NothingMade(a); }
    calls := ProgressNext(m, m, a, 0, []);
    calls := ProgressNext(m, Stage(m, a, 0), a, 1, calls);
    calls := ProgressNext(m, Stage(Stage(m, a, 0), a, 1), a, 2, calls);
    calls := ProgressNext(m, Stage(Stage(Stage(m, a, 0), a, 1), a, 2), a, 3, calls);
    calls := LastStage(m, Stage(Stage(Stage(Stage(m, a, 0), a, 1), a, 2), a, 3), a, calls);
    MadeIs(a, calls);
  }

  lemma NothingMade(a: Answers)
    requires Whole(a)
    ensures Made(a, [])
  {
  }

  lemma MadeIs(a: Answers, calls: seq<Call>)
    requires Whole(a) && Made(a, calls)
    ensures forall i :: 0 <= i < |calls| ==> Answered(a, calls[i])
    ensures forall i :: 0 <= i < |calls| - 1 ==> calls[i].ok
  {
  }

  lemma LastStage(m: Modem, t: Modem, a: Answers, calls: seq<Call>) returns (made: seq<Call>)
    requires Whole(a) && m.state <= 4 && Progress(m, t, a, 4, calls)
    ensures var u := Stage(t, a, 4);
      && u.log == m.log + made && Made(a, made)
      && (u.state != 4 <==> made != [] && !made[|made| - 1].ok)
      && (u.state == 4 && a.due ==> made != [] && made[|made| - 1] == Publish(9, true))
  {
    hide Publications, AllPublished, Made;
    made := calls;
    if t.state == 4 && a.due {
      made := calls + Publications(a, 0);
      PublicationsMade(a, 0);
      MadeNext(a, calls, Publications(a, 0));
      PublicationsFrom(a, 0);
      if AllPublished(a, 0) {
        PublicationsAll(a, 0);
      }
    }
  }

  lemma {:induction false} PublicationsAll(a: Answers, i: nat)
    requires Whole(a) && i <= SENSORS && AllPublished(a, i)
    ensures |Publications(a, i)| == SENSORS - i
    ensures forall k :: 0 <= k < SENSORS - i ==> Publications(a, i)[k] == Publish(i + k, true)
    decreases SENSORS - i
  {
    hide Publications, AllPublished;
    if i == SENSORS {
      PublicationsEnd(a);
    } else {
      PublicationsFrom(a, i);
      PublicationsAll(a, i + 1);
    }
  }

  /** When everything succeeds, one turn is enough from any state: it ends connected, and when the timer has run
      down its last calls are the publications of all sensors in order. */
  lemma TurnSucceeds(m: Modem, a: Answers)
    requires Whole(a) && m.state <= 4 && a.reset && a.status && a.tcp && a.mqtt && AllPublished(a, 0)
    ensures var t := Turn(m, a);
      t.state == 4 && m.log <= t.log
      && (a.due ==>
            |t.log| >= 10 && forall i :: 0 <= i < 10 ==> t.log[|t.log| - 10 + i] == Publish(i, true))
  {
    hide Publications, AllPublished, Stage;
    PublicationsAll(a, 0);
    var m0 := Stage(m, a, 0);
    var m1 := Stage(m0, a, 1);
    var m2 := Stage(m1, a, 2);
    var m3 := Stage(m2, a, 3);
    StageSucceeds(m, a, 0);
    StageSucceeds(m0, a, 1);
    StageSucceeds(m1, a, 2);
    StageSucceeds(m2, a, 3);
    StagePublishes(m3, a);
  }

  lemma StageSucceeds(m: Modem, a: Answers, state: nat)
    requires Whole(a) && state < 4 && a.reset && a.status && a.tcp && a.mqtt
    ensures var t := Stage(m, a, state); t.state == (if m.state == state then state + 1 else m.state) && m.log <= t.log
  {
  }

  lemma StagePublishes(m: Modem, a: Answers)
    requires Whole(a) && m.state == 4 && AllPublished(a, 0)
    ensures Stage(m, a, 4) == Modem(4, if a.due then m.log + Publications(a, 0) else m.log)
  {
    hide Publications, AllPublished;
  }

  class DeviceNbIot {
    var processState: nat
    ghost var log: seq<Call>

    ghost function Snapshot(): Modem
      reads this
    {
      Modem(processState, log)
    }

    ghost predicate Valid()
      reads this
    {
      Inv(Snapshot())
    }

    constructor ()
      ensures Valid() && Snapshot() == Modem(0, [])
    {
      processState, log := 0, [];
    }

    method Process(a: Answers)
      requires Valid() && Whole(a)
      modifies this
      ensures Valid() && Snapshot() == Turn(old(Snapshot()), a)
    {
      hide Inv, Publications, AllPublished;
      TurnKeeps(Snapshot(), a);
      if processState == 0 {
        log := log + [Reset(a.reset)];
        if a.reset {
          processState := 1;
        }
      }
      if processState == 1 {
        log := log + [Status(a.status)];
        if a.status {
          processState := 2;
        }
      }
      if processState == 2 {
        log := log + [Tcp(a.tcp)];
        processState := if a.tcp then 3 else 0;
      }
      if processState == 3 {
        log := log + [Mqtt(a.mqtt)];
        processState := if a.mqtt then 4 else 0;
      }
      if processState == 4 {
        if a.due {
          PublishAll(a);
        }
      }
    }

    /** Ten publications; the first that fails ends the session. */
    method PublishAll(a: Answers)
      requires Whole(a) && processState == 4
      modifies this
      ensures log == old(log) + Publications(a, 0) && processState == if AllPublished(a, 0) then 4 else 0
    {
      hide Publications, AllPublished;
      var i := 0;
      while i < SENSORS
        invariant i <= SENSORS && processState == 4
        invariant log + Publications(a, i) == old(log) + Publications(a, 0)
        invariant AllPublished(a, 0) <==> AllPublished(a, i)
      {
        PublicationsFrom(a, i);
        log := log + [Publish(i, a.publish[i])];
        if a.publish[i] {
          i := i + 1;
        } else {
          processState := 0;
          return;
        }
      }
      PublicationsEnd(a);
    }
  }
}
