/** The message format spoken between services. The fixed header fields take 22
    bytes, but the code starts the variable part at `HeaderSize` = 20, on top of
    the low half of the payload length. The format is modelled for both sizes. */
module InternalMessage {
  import opened Bytes

  datatype Message = Message(
    version: uint8, flags: uint8, serviceType: uint16, messageType: uint16,
    sequenceID: uint32, timestamp: uint64, payloadLength: uint32,
    sourceService: seq<byte>, destinationService: seq<byte>, correlationID: seq<byte>, sessionID: seq<byte>,
    payload: seq<byte>)

  const PROTOCOL_VERSION := 1
  const MAX_MESSAGE_SIZE := 10 * 1024 * 1024
  const MAX_SERVICE_NAME_SIZE := 32

  /** The size the code declares, and the size its fixed fields really take. */
  const DECLARED := 20
  const ACTUAL := 22

  type HeaderSize = h: int | h == DECLARED || h == ACTUAL witness DECLARED

  datatype Encoded = Bytes(bytes: seq<byte>) | PayloadTooLarge | SourceNameTooLong | DestinationNameTooLong

  datatype Decoded =
    | Msg(message: Message)
    | HeaderTooShort
    | SliceOutOfRange  // the process panics: the slice has no room for 22 bytes
    | UnsupportedVersion(version: uint8)
    | FieldTruncated(fault: Fault)
    | PayloadTruncated

  /** The fixed fields as they are written first, before anything overlaps them. */
  function Header(m: Message): (s: seq<byte>)
    ensures |s| == ACTUAL
  {
    [m.version, m.flags] + BigEndian(m.serviceType, 2) + BigEndian(m.messageType, 2) +
    BigEndian(m.sequenceID, 4) + BigEndian(m.timestamp, 8) + BigEndian(m.payloadLength, 4)
  }

  /** A 16-bit length keeps only this much of an identifier. */
  function Cut(s: seq<byte>): (r: seq<byte>)
    ensures |r| < 0x1_0000 && r <= s
    ensures |s| < 0x1_0000 ==> r == s
  {
    s[..|s| % 0x1_0000]
  }

  function Names(m: Message): (fields: seq<seq<byte>>)
    ensures |fields| == 4
  {
    [Cut(m.sourceService), Cut(m.destinationService), Cut(m.correlationID), Cut(m.sessionID)]
  }

  function EncodeSpec(h: HeaderSize, m: Message): (r: Encoded)
  {
    if |m.payload| > MAX_MESSAGE_SIZE - h then PayloadTooLarge
    else if |m.sourceService| > MAX_SERVICE_NAME_SIZE then SourceNameTooLong
    else if |m.destinationService| > MAX_SERVICE_NAME_SIZE then DestinationNameTooLong
    else Bytes(Header(m)[..h] + EncodeFields(2, Names(m)) + m.payload)
  }

  function DecodeSpec(h: HeaderSize, data: seq<byte>): (r: Decoded)
  {
    if |data| < h then HeaderTooShort
    else if |data| < ACTUAL then SliceOutOfRange
    else if data[0] != PROTOCOL_VERSION then UnsupportedVersion(data[0])
    else Finish(data[..22], DecodeFields(2, data, h, 4))
  }

  /** The same for a slice with room for `capacity` bytes. Go slices up to the capacity, so
      with room to spare the fixed fields of 20 or 21 bytes are read past their end, and
      the data is then refused for its version or for having no name. */
  function DecodeWithin(h: HeaderSize, data: seq<byte>, capacity: nat): (r: Decoded)
    requires capacity >= |data|
    ensures r.Msg? <==> DecodeSpec(h, data).Msg?
    ensures h <= |data| && capacity >= ACTUAL ==> r != SliceOutOfRange
    ensures |data| < h || |data| >= ACTUAL || capacity < ACTUAL ==> r == DecodeSpec(h, data)
  {
    if |data| < h || |data| >= ACTUAL || capacity < ACTUAL then DecodeSpec(h, data)
    else if data[0] != PROTOCOL_VERSION then UnsupportedVersion(data[0])
    else FieldTruncated(NoLength(0))
  }

  /** The end of a decode, once the four names are read. */
  function Finish(header: seq<byte>, names: Fields): (r: Decoded)
    requires |header| == ACTUAL && (names.Fields? ==> |names.fields| == 4)
  {
    match names
    case Truncated(fault) => FieldTruncated(fault)
    case Fields(fields, rest) =>
      var payloadLength := Value(header[18..22]);
      if |rest| < payloadLength then PayloadTruncated
      else Msg(Assemble(header, fields, rest[..payloadLength]))
  }

  /** The message whose fixed fields are read from `header`. */
  function Assemble(header: seq<byte>, names: seq<seq<byte>>, payload: seq<byte>): (m: Message)
    requires |header| == ACTUAL && |names| == 4
  {
    CapacityFacts();
    Message(header[0], header[1], Value(header[2..4]), Value(header[4..6]), Value(header[6..10]), Value(header[10..18]),
            Value(header[18..22]), names[0], names[1], names[2], names[3], payload)
  }

  /******* The format *******/

  /** Which messages are written, and what is wrong with the others: the payload is looked
      at first, then the names of source and destination. */
  lemma EncodeIff(h: HeaderSize, m: Message)
    ensures var r, fits := EncodeSpec(h, m), h + |m.payload| <= 10_485_760;
            && (r.Bytes? <==> fits && |m.sourceService| <= 32 && |m.destinationService| <= 32)
            && (r == PayloadTooLarge <==> !fits)
            && (r == SourceNameTooLong <==> fits && |m.sourceService| > 32)
            && (r == DestinationNameTooLong <==> fits && |m.sourceService| <= 32 && |m.destinationService| > 32)
  {
  }

  /** Where the fixed fields are in a message that is written. */
  lemma {:induction false} HeaderLayout(h: HeaderSize, m: Message, s: seq<byte>)
    requires EncodeSpec(h, m) == Bytes(s)
    ensures |s| >= 22 && s[0] == m.version && s[1] == m.flags
    ensures Value(s[2..4]) == m.serviceType && Value(s[4..6]) == m.messageType
    ensures Value(s[6..10]) == m.sequenceID && Value(s[10..18]) == m.timestamp
    ensures h == ACTUAL ==> Value(s[18..22]) == m.payloadLength
  {
    StoredLengthReads(h, m, s);
    FixedFields(m, s, s[..18]);
  }

  lemma {:induction false} FixedFields(m: Message, s: seq<byte>, front: seq<byte>)
    requires |s| >= 22 && front == s[..18] == Header(m)[..18]
    ensures s[0] == m.version && s[1] == m.flags
    ensures Value(s[2..4]) == m.serviceType && Value(s[4..6]) == m.messageType
    ensures Value(s[6..10]) == m.sequenceID && Value(s[10..18]) == m.timestamp
  {
    HeaderSlices(m);
    CapacityFacts();
    var t := Header(m);
    assert s[0] == front[0] && s[1] == front[1];
    assert s[2..4] == front[2..4] == t[2..4];
    assert s[4..6] == front[4..6] == t[4..6];
    assert s[6..10] == front[6..10] == t[6..10];
    assert s[10..18] == front[10..18] == t[10..18];
    ValueOfBigEndian(m.serviceType, 2);
    ValueOfBigEndian(m.messageType, 2);
    ValueOfBigEndian(m.sequenceID, 4);
    ValueOfBigEndian(m.timestamp, 8);
  }

  /** What follows them: four names, each after its length, and the payload. */
  lemma {:induction false} NamesLayout(h: HeaderSize, m: Message, s: seq<byte>)
    requires EncodeSpec(h, m) == Bytes(s)
    ensures |s| >= h
    ensures s[h..] == EncodeField(2, m.sourceService) + EncodeField(2, m.destinationService)
                      + EncodeField(2, Cut(m.correlationID)) + EncodeField(2, Cut(m.sessionID)) + m.payload
  {
    DropFront(Header(m)[..h], EncodeFields(2, Names(m)), m.payload);
    EncodedNames([], m.sourceService, m.destinationService, Cut(m.correlationID), Cut(m.sessionID));
    NoFront(EncodeField(2, m.sourceService), EncodeFields(2, Names(m)));
  }

  lemma NoFront(a: seq<byte>, b: seq<byte>)
    ensures [] + a == a && [] + b == b
  {
  }

  /******* Decode after Encode *******/

  /** The payload length a reader finds. With the variable part at 20, the length
      of the source name stands where the low 16 bits of the payload length were. */
  function StoredLength(h: HeaderSize, m: Message): (n: nat)
  {
    if h == ACTUAL then m.payloadLength else m.payloadLength / 0x1_0000 * 0x1_0000 + |m.sourceService|
  }

  /** Exactly what comes back, for every message that `Encode` accepts and either
      header size. */
  function Expected(h: HeaderSize, m: Message): (r: Decoded)
    requires |m.sourceService| <= MAX_SERVICE_NAME_SIZE
  {
    var n := StoredLength(h, m);
    if m.version != PROTOCOL_VERSION then UnsupportedVersion(m.version)
    else if n > |m.payload| then PayloadTruncated
    else Msg(m.(correlationID := Cut(m.correlationID), sessionID := Cut(m.sessionID),
                payloadLength := n, payload := m.payload[..n]))
  }

  lemma {:induction false} ValueOfPair(hi: seq<byte>, lo: seq<byte>)
    requires |hi| == 2 && |lo| == 2
    ensures Value(hi + lo) == Value(hi) * 0x1_0000 + Value(lo)
  {
    var s := hi + lo;
    assert s[..3] == hi + lo[..1];
    assert s[..3][..2] == hi;
    assert lo[..1][..0] == [];
    assert Value(lo) == Value(lo[..1]) * 256 + lo[1];
    assert Value(s) == Value(s[..3]) * 256 + lo[1];
    assert Value(s[..3]) == Value(hi) * 256 + lo[0];
  }

  lemma {:induction false} HighHalf(n: uint32)
    ensures BigEndian(n, 4)[..2] == BigEndian(n / 0x1_0000, 2)
  {
    assert BigEndian(n, 4) == BigEndian(n / 256, 3) + [n % 256];
    assert BigEndian(n / 256, 3) == BigEndian(n / 256 / 256, 2) + [n / 256 % 256];
    assert n / 256 / 256 == n / 0x1_0000;
  }

  lemma {:induction false} HeaderSlices(m: Message)
    ensures var s := Header(m);
            s[0] == m.version && s[1] == m.flags && s[2..4] == BigEndian(m.serviceType, 2) &&
            s[4..6] == BigEndian(m.messageType, 2) && s[6..10] == BigEndian(m.sequenceID, 4) &&
            s[10..18] == BigEndian(m.timestamp, 8) && s[18..22] == BigEndian(m.payloadLength, 4)
  {
  }

  /** The fixed fields but the payload length, read back from a written header. */
  lemma {:induction false} HeaderReads(m: Message, header: seq<byte>, n: uint32, names: seq<seq<byte>>,
                                       payload: seq<byte>)
    requires |header| == ACTUAL && |names| == 4
    requires header[..18] == Header(m)[..18] && Value(header[18..22]) == n
    ensures Assemble(header, names, payload) ==
            Message(m.version, m.flags, m.serviceType, m.messageType, m.sequenceID, m.timestamp,
                    n, names[0], names[1], names[2], names[3], payload)
  {
    HeaderSlices(m);
    CapacityFacts();
    var s := Header(m);
    assert header[0] == header[..18][0] && header[1] == header[..18][1];
    assert header[2..4] == header[..18][2..4] == s[2..4];
    assert header[4..6] == header[..18][4..6] == s[4..6];
    assert header[6..10] == header[..18][6..10] == s[6..10];
    assert header[10..18] == header[..18][10..18] == s[10..18];
    ValueOfBigEndian(m.serviceType, 2);
    ValueOfBigEndian(m.messageType, 2);
    ValueOfBigEndian(m.sequenceID, 4);
    ValueOfBigEndian(m.timestamp, 8);
  }

  /** Where the variable part begins: with the length of the source name. */
  lemma {:induction false} VariablePartStart(m: Message)
    ensures |EncodeFields(2, Names(m))| >= 8
    ensures EncodeFields(2, Names(m))[..2] == BigEndian(|Cut(m.sourceService)|, 2)
  {
    var f := Names(m);
    assert EncodeFields(2, f) == EncodeField(2, f[0]) + EncodeFields(2, f[1..]);
    assert EncodeFields(2, f[1..]) == EncodeField(2, f[1]) + EncodeFields(2, f[1..][1..]);
    assert EncodeFields(2, f[1..][1..]) == EncodeField(2, f[2]) + EncodeFields(2, f[1..][1..][1..]);
    assert EncodeFields(2, f[1..][1..][1..]) == EncodeField(2, f[3]) + EncodeFields(2, f[1..][1..][1..][1..]);
  }

  /** The source name's length over the low half of the payload length. */
  lemma {:induction false} OverlaidLength(n: uint32, name: uint16, word: seq<byte>)
    requires word == BigEndian(n, 4)[..2] + BigEndian(name, 2)
    ensures Value(word) == n / 0x1_0000 * 0x1_0000 + name
  {
    CapacityFacts();
    HighHalf(n);
    ValueOfBigEndian(n / 0x1_0000, 2);
    ValueOfBigEndian(name, 2);
    ValueOfPair(BigEndian(n, 4)[..2], BigEndian(name, 2));
  }

  lemma Overlay(head: seq<byte>, names: seq<byte>, rest: seq<byte>)
    requires |head| == 22 && |names| >= 2
    ensures var data := head[..20] + names + rest;
            && |data| >= 22 && data[..18] == head[..18] && data[0] == head[0]
            && data[18..22] == head[18..22][..2] + names[..2]
  {
  }

  lemma Appended(head: seq<byte>, names: seq<byte>, rest: seq<byte>)
    requires |head| == 22
    ensures var data := head[..22] + names + rest;
            data[..18] == head[..18] && data[0] == head[0] && data[18..22] == head[18..22]
  {
  }

  lemma {:induction false} StoredLengthReads(h: HeaderSize, m: Message, data: seq<byte>)
    requires EncodeSpec(h, m) == Bytes(data)
    ensures |data| >= ACTUAL && data[..18] == Header(m)[..18] && data[0] == m.version
    ensures Value(data[18..22]) == StoredLength(h, m)
  {
    HeaderSlices(m);
    VariablePartStart(m);
    if h == ACTUAL {
      Appended(Header(m), EncodeFields(2, Names(m)), m.payload);
      CapacityFacts();
      ValueOfBigEndian(m.payloadLength, 4);
    } else {
      Overlay(Header(m), EncodeFields(2, Names(m)), m.payload);
      OverlaidLength(m.payloadLength, |m.sourceService|, data[18..22]);
    }
  }

  /** Every message `Encode` accepts comes back as `Expected` says. */
  lemma {:induction false} DecodeOfEncode(h: HeaderSize, m: Message)
    requires EncodeSpec(h, m).Bytes?
    ensures DecodeSpec(h, EncodeSpec(h, m).bytes) == Expected(h, m)
  {
    var data := EncodeSpec(h, m).bytes;
    StoredLengthReads(h, m, data);
    NamesRead(h, m, data);
    assert data[..22][..18] == data[..18] && data[..22][18..22] == data[18..22];
    if m.version == PROTOCOL_VERSION { FinishOfEncode(h, m, data[..22]); }
  }

  lemma {:induction false} NamesRead(h: HeaderSize, m: Message, data: seq<byte>)
    requires EncodeSpec(h, m) == Bytes(data)
    ensures h <= |data| && DecodeFields(2, data, h, 4) == Fields(Names(m), m.payload)
  {
    assert AllFit(2, Names(m)) by { CapacityFacts(); }
    DropFront(Header(m)[..h], EncodeFields(2, Names(m)), m.payload);
    DecodeEncodedFields(2, Names(m), m.payload, data, h, 0);
  }

  lemma DropFront(front: seq<byte>, names: seq<byte>, payload: seq<byte>)
    ensures (front + names + payload)[|front|..] == names + payload
  {
  }

  lemma {:induction false} FinishOfEncode(h: HeaderSize, m: Message, header: seq<byte>)
    requires EncodeSpec(h, m).Bytes? && m.version == PROTOCOL_VERSION
    requires |header| == ACTUAL && header[..18] == Header(m)[..18] && Value(header[18..22]) == StoredLength(h, m)
    ensures Finish(header, Fields(Names(m), m.payload)) == Expected(h, m)
  {
    var n := StoredLength(h, m);
    if n <= |m.payload| { HeaderReads(m, header, n, Names(m), m.payload[..n]); }
  }

  /** When a message survives the trip unchanged: never because of luck, always
      because of these conditions on the message alone. */
  lemma RoundTripIff(h: HeaderSize, m: Message)
    requires EncodeSpec(h, m).Bytes?
    ensures DecodeSpec(h, EncodeSpec(h, m).bytes) == Msg(m) <==>
            && m.version == PROTOCOL_VERSION
            && |m.correlationID| < 0x1_0000 && |m.sessionID| < 0x1_0000
            && m.payloadLength == |m.payload|
            && (h == DECLARED ==> |m.sourceService| == |m.payload| % 0x1_0000)
  {
    DecodeOfEncode(h, m);
  }

  /** What happens, at the declared header size, to the payload of a well-formed
      message: it is intact, cut short or refused as the length of the source name
      equals, is below or exceeds the low 16 bits of the payload's length. */
  lemma PayloadFate(m: Message)
    requires EncodeSpec(DECLARED, m).Bytes?
    requires m.version == PROTOCOL_VERSION && m.payloadLength == |m.payload|
    requires |m.correlationID| < 0x1_0000 && |m.sessionID| < 0x1_0000
    ensures var r := DecodeSpec(DECLARED, EncodeSpec(DECLARED, m).bytes);
            var s, low := |m.sourceService|, |m.payload| % 0x1_0000;
            && (s == low <==> r == Msg(m))
            && (s < low <==> Shortened(m, |m.payload| - low + s, r))
            && (s > low <==> r == PayloadTruncated)
  {
    DecodeOfEncode(DECLARED, m);
  }

  /** The message came back with only the first `kept` bytes of its payload. */
  predicate Shortened(m: Message, kept: nat, r: Decoded)
  {
    kept < |m.payload| && kept < 0x1_0000_0000 && r == Msg(m.(payloadLength := kept, payload := m.payload[..kept]))
  }

  /** A message with no source name and a payload of one byte loses its payload. */
  lemma LostPayload()
    ensures var m := Message(1, 0, 2, 3, 4, 5, 1, [], [], [], [], [9]);
            EncodeSpec(DECLARED, m).Bytes? &&
            DecodeSpec(DECLARED, EncodeSpec(DECLARED, m).bytes) == Msg(m.(payloadLength := 0, payload := []))
  {
    var m := Message(1, 0, 2, 3, 4, 5, 1, [], [], [], [], [9]);
    PayloadFate(m);
    assert m.payload[..0] == [];
  }

  /******* Encode after Decode *******/

  lemma {:induction false} HeaderOfAssemble(header: seq<byte>, names: seq<seq<byte>>, payload: seq<byte>)
    requires |header| == ACTUAL && |names| == 4
    ensures Header(Assemble(header, names, payload)) == header
  {
    BigEndianOfValue(header[2..4]);
    BigEndianOfValue(header[4..6]);
    BigEndianOfValue(header[6..10]);
    BigEndianOfValue(header[10..18]);
    BigEndianOfValue(header[18..22]);
    assert header ==
           [header[0], header[1]] + header[2..4] + header[4..6] + header[6..10] + header[10..18] + header[18..22];
  }

  /** Whatever `Decode` accepts and `Encode` can write again is written as it was
      read, at either header size. */
  lemma {:induction false} EncodeOfDecode(h: HeaderSize, data: seq<byte>)
    requires DecodeSpec(h, data).Msg? && EncodeSpec(h, DecodeSpec(h, data).message).Bytes?
    ensures EncodeSpec(h, DecodeSpec(h, data).message).bytes <= data
  {
    var m := DecodeSpec(h, data).message;
    var r := DecodeFields(2, data, h, 4);
    var n := |m.payload|;
    assert r.Fields? && m == Assemble(data[..22], r.fields, r.rest[..n]);
    NamesReencode(h, m, data, r);
    HeaderOfAssemble(data[..22], r.fields, m.payload);
    Splice(data, h, Header(m)[..h], EncodeFields(2, Names(m)), m.payload, r.rest);
  }

  lemma {:induction false} NamesReencode(h: HeaderSize, m: Message, data: seq<byte>, r: Fields)
    requires h <= |data| && r == DecodeFields(2, data, h, 4) && r.Fields?
    requires [m.sourceService, m.destinationService, m.correlationID, m.sessionID] == r.fields
    ensures data[h..] == EncodeFields(2, Names(m)) + r.rest
  {
    CapacityFacts();
    DecodedFieldsReencode(2, data, h, 4, 0);
    assert |r.fields[0]| < 0x1_0000 && |r.fields[1]| < 0x1_0000 && |r.fields[2]| < 0x1_0000 && |r.fields[3]| < 0x1_0000;
    assert Names(m) == r.fields;
  }

  lemma Splice(data: seq<byte>, h: nat, header: seq<byte>, names: seq<byte>, payload: seq<byte>, rest: seq<byte>)
    requires h <= |data| && data[..h] == header && data[h..] == names + rest && payload <= rest
    ensures header + names + payload <= data
  {
    assert data == header + (names + (payload + rest[|payload|..]));
    assert data == (header + names + payload) + rest[|payload|..];
  }

  /******* The code: a buffer filled, and data read, at a moving offset *******/

  method PutHeader(buffer: array<byte>, m: Message)
    requires buffer.Length >= ACTUAL
    modifies buffer
    ensures buffer[..22] == Header(m)
  {
    buffer[0] := m.version;
    buffer[1] := m.flags;
    assert buffer[..2] == [m.version, m.flags];
    PutBigEndian(buffer, 2, m.serviceType, 2);
    assert buffer[..4] == buffer[..2] + buffer[2..4];
    PutBigEndian(buffer, 4, m.messageType, 2);
    assert buffer[..6] == buffer[..4] + buffer[4..6];
    PutBigEndian(buffer, 6, m.sequenceID, 4);
    assert buffer[..10] == buffer[..6] + buffer[6..10];
    PutBigEndian(buffer, 10, m.timestamp, 8);
    assert buffer[..18] == buffer[..10] + buffer[10..18];
    PutBigEndian(buffer, 18, m.payloadLength, 4);
    assert buffer[..22] == buffer[..18] + buffer[18..22];
  }

  /** The bytes the four names take, each with its length. */
  function NamesLength(m: Message): (n: nat)
  {
    2 + |Cut(m.sourceService)| + 2 + |Cut(m.destinationService)| + 2 + |Cut(m.correlationID)| + 2 + |Cut(m.sessionID)|
  }

  method Encode(h: HeaderSize, m: Message) returns (r: Encoded)
    ensures r == EncodeSpec(h, m)
  {
    if |m.payload| > MAX_MESSAGE_SIZE - h { return PayloadTooLarge; }
    if |m.sourceService| > MAX_SERVICE_NAME_SIZE { return SourceNameTooLong; }
    if |m.destinationService| > MAX_SERVICE_NAME_SIZE { return DestinationNameTooLong; }
    var totalLength := h + NamesLength(m) + |m.payload|;
    var buffer := new byte[totalLength](_ => 0);
    Fill(buffer, h, m);
    r := Bytes(buffer[..]);
  }

  method Fill(buffer: array<byte>, h: HeaderSize, m: Message)
    requires buffer.Length == h + NamesLength(m) + |m.payload|
    modifies buffer
    ensures buffer[..] == Header(m)[..h] + EncodeFields(2, Names(m)) + m.payload
  {
    PutHeader(buffer, m);
    assert buffer[..h] == buffer[..22][..h];
    var offset := PutNames(buffer, h, m);
    CopyInto(buffer, offset, m.payload);
    assert buffer[..] == buffer[..offset] + buffer[offset..];
  }

  method PutNames(buffer: array<byte>, start: nat, m: Message) returns (offset: nat)
    requires start + NamesLength(m) <= buffer.Length
    modifies buffer
    ensures offset == start + NamesLength(m)
    ensures buffer[..offset] == old(buffer[..start]) + EncodeFields(2, Names(m))
  {
    offset := PutField(buffer, start, 2, Cut(m.sourceService));
    offset := PutField(buffer, offset, 2, Cut(m.destinationService));
    offset := PutField(buffer, offset, 2, Cut(m.correlationID));
    offset := PutField(buffer, offset, 2, Cut(m.sessionID));
    EncodedNames(old(buffer[..start]), Cut(m.sourceService), Cut(m.destinationService), Cut(m.correlationID),
                 Cut(m.sessionID));
  }

  lemma {:induction false} EncodedNames(front: seq<byte>, a: seq<byte>, b: seq<byte>, c: seq<byte>, d: seq<byte>)
    ensures front + EncodeField(2, a) + EncodeField(2, b) + EncodeField(2, c) + EncodeField(2, d) ==
            front + EncodeFields(2, [a, b, c, d])
  {
    assert [a, b, c, d][1..] == [b, c, d] && [b, c, d][1..] == [c, d] && [c, d][1..] == [d];
    assert EncodeFields(2, [d]) == EncodeField(2, d) + [];
    assert EncodeFields(2, [c, d]) == EncodeField(2, c) + EncodeField(2, d);
    assert EncodeFields(2, [b, c, d]) == EncodeField(2, b) + EncodeFields(2, [c, d]);
    assert EncodeFields(2, [a, b, c, d]) == EncodeField(2, a) + EncodeFields(2, [b, c, d]);
  }

  /** The four names, each with its length in front, or where the data ends too early. */
  method ReadNames(data: seq<byte>, start: nat) returns (r: Fields)
    requires start <= |data|
    ensures r == DecodeFields(2, data, start, 4)
    ensures r.Fields? ==> start + 2 <= |data|
    ensures |data| < start + 2 ==> r == Truncated(NoLength(0))
  {
    DecodeStep(2, data, start, 4, 0);
    var source := ReadField(2, data, start, 0);
    if source.Bad? { return Truncated(source.fault); }
    DecodeStep(2, data, source.end, 3, 1);
    var dest := ReadField(2, data, source.end, 1);
    if dest.Bad? { return Truncated(dest.fault); }
    DecodeStep(2, data, dest.end, 2, 2);
    var correlation := ReadField(2, data, dest.end, 2);
    if correlation.Bad? { return Truncated(correlation.fault); }
    DecodeStep(2, data, correlation.end, 1, 3);
    var session := ReadField(2, data, correlation.end, 3);
    if session.Bad? { return Truncated(session.fault); }
    r := Fields([source.bytes, dest.bytes, correlation.bytes, session.bytes], data[session.end..]);
  }

  method Decode(h: HeaderSize, data: seq<byte>, capacity: nat) returns (r: Decoded)
    requires capacity >= |data|
    ensures r == DecodeWithin(h, data, capacity)
  {
    if |data| < h { return HeaderTooShort; }
    if capacity < 22 { return SliceOutOfRange; }
    if data[0] != PROTOCOL_VERSION { return UnsupportedVersion(data[0]); }
    var names := ReadNames(data, h);
    if names.Truncated? { return FieldTruncated(names.fault); }
    var header := data[..22];
    var payloadLength := Value(header[18..22]);
    if |names.rest| < payloadLength { return PayloadTruncated; }
    r := Msg(Assemble(header, names.fields, names.rest[..payloadLength]));
  }
}
