/** The RPC wire format: an 8-byte sequence number, then fields with 4-byte
    lengths. A request has two fields, a response three. */
module RpcProtocol {
  import opened Bytes

  /** What a request or a response puts on the wire. */
  datatype Packet = Packet(sequence: uint64, fields: seq<seq<byte>>)

  const LENGTH_WIDTH := 4

  function Marshal(p: Packet): (s: seq<byte>)
  {
    BigEndian(p.sequence, 8) + EncodeFields(LENGTH_WIDTH, p.fields)
  }

  datatype Parsed =
    | Parsed(packet: Packet, rest: seq<byte>)
    | TooShort
    | Malformed(sequence: uint64, fault: Fault)

  /** Reads a packet of `count` fields from the front of `data`. */
  function Unmarshal(data: seq<byte>, count: nat): (r: Parsed)
  {
    if |data| < 8 + 4 * count then TooShort
    else
      var sequence := SequenceOf(data);
      match DecodeFields(LENGTH_WIDTH, data, 8, count)
      case Truncated(fault) => Malformed(sequence, fault)
      case Fields(fields, rest) => Parsed(Packet(sequence, fields), rest)
  }

  function SequenceOf(data: seq<byte>): (n: uint64)
    requires |data| >= 8
  {
    CapacityFacts();
    Value(data[..8])
  }

  /** Whether every field is shorter than 4 GiB, so that its length survives the
      conversion to 32 bits. */
  ghost predicate Marshallable(p: Packet)
  {
    AllFit(LENGTH_WIDTH, p.fields)
  }

  lemma {:induction false} EncodedLengthAtLeast(fields: seq<seq<byte>>)
    ensures |EncodeFields(LENGTH_WIDTH, fields)| >= 4 * |fields|
  {
    if fields != [] { EncodedLengthAtLeast(fields[1..]); }
  }

  /** Unmarshalling inverts marshalling, also when more bytes follow. */
  lemma RoundTrip(p: Packet, rest: seq<byte>)
    requires Marshallable(p)
    ensures Unmarshal(Marshal(p) + rest, |p.fields|) == Parsed(p, rest)
  {
    var body := EncodeFields(LENGTH_WIDTH, p.fields);
    var data := Marshal(p) + rest;
    EncodedLengthAtLeast(p.fields);
    assert data[..8] == BigEndian(p.sequence, 8);
    assert data[8..] == body + rest;
    CapacityFacts();
    ValueOfBigEndian(p.sequence, 8);
    DecodeEncodedFields(LENGTH_WIDTH, p.fields, rest, data, 8, 0);
  }

  /** A packet whose wire form is at the front of the data has been read exactly. */
  lemma ParsedReencodes(data: seq<byte>, count: nat)
    requires Unmarshal(data, count).Parsed?
    ensures var r := Unmarshal(data, count);
            |r.packet.fields| == count && Marshallable(r.packet) && data == Marshal(r.packet) + r.rest
  {
    DecodedFieldsReencode(LENGTH_WIDTH, data, 8, count, 0);
    BigEndianOfValue(data[..8]);
    assert data == data[..8] + data[8..];
  }

  /** The packet comes back exactly when no field reaches 4 GiB. */
  lemma RoundTripIff(p: Packet)
    ensures (exists rest :: Unmarshal(Marshal(p), |p.fields|) == Parsed(p, rest)) <==> Marshallable(p)
  {
    if Marshallable(p) {
      RoundTrip(p, []);
      assert Marshal(p) + [] == Marshal(p);
    } else if rest :| Unmarshal(Marshal(p), |p.fields|) == Parsed(p, rest) {
      ParsedReencodes(Marshal(p), |p.fields|);
    }
  }

  /** Data is accepted exactly when it starts with the wire form of some packet,
      and then it is that packet which is read. */
  lemma AcceptedIff(data: seq<byte>, count: nat)
    ensures Unmarshal(data, count).Parsed? <==>
            exists p: Packet :: |p.fields| == count && Marshallable(p) && Marshal(p) <= data
    ensures forall p: Packet :: |p.fields| == count && Marshallable(p) && Marshal(p) <= data ==>
              Unmarshal(data, count) == Parsed(p, data[|Marshal(p)|..])
  {
    if Unmarshal(data, count).Parsed? { ParsedReencodes(data, count); }
    forall p: Packet | |p.fields| == count && Marshallable(p) && Marshal(p) <= data
      ensures Unmarshal(data, count) == Parsed(p, data[|Marshal(p)|..])
    {
      var rest := data[|Marshal(p)|..];
      assert data == Marshal(p) + rest;
      RoundTrip(p, rest);
    }
  }

  /** No packet's wire form is the beginning of another's with as many fields. */
  lemma PrefixFree(p: Packet, q: Packet)
    requires Marshallable(p) && Marshallable(q) && |p.fields| == |q.fields|
    requires Marshal(p) <= Marshal(q)
    ensures p == q
  {
    AcceptedIff(Marshal(q), |q.fields|);
    RoundTrip(q, []);
    assert Marshal(q) + [] == Marshal(q);
  }

  function SecondField(data: seq<byte>): (r: Option<seq<byte>>)
    requires |data| >= 8
  {
    match ReadField(LENGTH_WIDTH, data, 8, 0)
    case Bad(_) => None
    case Good(_, end) =>
      match ReadField(LENGTH_WIDTH, data, end, 1)
      case Bad(_) => None
      case Good(bytes, _) => Some(bytes)
  }

  /** A request on the wire: number, service method, arguments. */
  function RequestBytes(sequence: uint64, serviceMethod: seq<byte>, args: seq<byte>): (s: seq<byte>)
  {
    BigEndian(sequence, 8) + EncodeField(4, serviceMethod) + EncodeField(4, args)
  }

  /** A response: number, service method, error, reply. */
  function ResponseBytes(sequence: uint64, serviceMethod: seq<byte>, error: seq<byte>, reply: seq<byte>): (s: seq<byte>)
  {
    BigEndian(sequence, 8) + EncodeField(4, serviceMethod) + EncodeField(4, error) + EncodeField(4, reply)
  }

  /** What `UnmarshalBinary` reports. */
  datatype Status = Ok | ErrTooShort | ErrMalformed(fault: Fault)

  class ProtocolRPCRequest {
    var serviceMethod: seq<byte>
    var sequence: uint64
    var argsData: seq<byte>

    ghost function Wire(): (p: Packet)
      reads this
    {
      Packet(sequence, [serviceMethod, argsData])
    }

    method MarshalBinary() returns (result: array<byte>)
      ensures fresh(result) && result[..] == Marshal(Wire())
      ensures result[..] == RequestBytes(sequence, serviceMethod, argsData)
    {
      var totalLen := 8 + 4 + |serviceMethod| + 4 + |argsData|;
      result := new byte[totalLen](_ => 0);
      PutBigEndian(result, 0, sequence, 8);
      assert result[..8] == result[0..8];
      var offset := PutField(result, 8, LENGTH_WIDTH, serviceMethod);
      offset := PutField(result, offset, LENGTH_WIDTH, argsData);
      assert result[..] == result[..offset];
      RequestWire(sequence, serviceMethod, argsData);
    }

    method UnmarshalBinary(data: seq<byte>) returns (status: Status)
      modifies this
      ensures match Unmarshal(data, 2)
              case Parsed(p, _) => status == Ok && Wire() == p
              case TooShort => status == ErrTooShort && Wire() == old(Wire())
              case Malformed(seqNo, fault) =>
                status == ErrMalformed(fault) && sequence == seqNo && argsData == old(argsData) &&
                fault.index < 2 && (fault.index == 0 ==> serviceMethod == old(serviceMethod)) &&
                (fault.index == 1 ==>
                   && ReadField(LENGTH_WIDTH, data, 8, 0).Good?
                   && serviceMethod == ReadField(LENGTH_WIDTH, data, 8, 0).bytes)
      ensures status == Ok ==> RequestBytes(sequence, serviceMethod, argsData) <= data
    {
      if |data| < 16 { return ErrTooShort; }
      RequestAt(data);
      sequence := SequenceOf(data);
      DecodeStep(LENGTH_WIDTH, data, 8, 2, 0);
      var name := ReadField(LENGTH_WIDTH, data, 8, 0);
      if name.Bad? { return ErrMalformed(name.fault); }
      serviceMethod := name.bytes;
      DecodeStep(LENGTH_WIDTH, data, name.end, 1, 1);
      var args := ReadField(LENGTH_WIDTH, data, name.end, 1);
      if args.Bad? { return ErrMalformed(args.fault); }
      argsData := args.bytes;
      status := Ok;
    }
  }

  class ProtocolRPCResponse {
    var serviceMethod: seq<byte>
    var sequence: uint64
    var error: seq<byte>
    var replyData: seq<byte>

    ghost function Wire(): (p: Packet)
      reads this
    {
      Packet(sequence, [serviceMethod, error, replyData])
    }

    method MarshalBinary() returns (result: array<byte>)
      ensures fresh(result) && result[..] == Marshal(Wire())
      ensures result[..] == ResponseBytes(sequence, serviceMethod, error, replyData)
    {
      var totalLen := 8 + 4 + |serviceMethod| + 4 + |error| + 4 + |replyData|;
      result := new byte[totalLen](_ => 0);
      PutBigEndian(result, 0, sequence, 8);
      assert result[..8] == result[0..8];
      var offset := PutField(result, 8, LENGTH_WIDTH, serviceMethod);
      offset := PutField(result, offset, LENGTH_WIDTH, error);
      offset := PutField(result, offset, LENGTH_WIDTH, replyData);
      assert result[..] == result[..offset];
      ResponseWire(sequence, serviceMethod, error, replyData);
    }

    method UnmarshalBinary(data: seq<byte>) returns (status: Status)
      modifies this
      ensures match Unmarshal(data, 3)
              case Parsed(p, _) => status == Ok && Wire() == p
              case TooShort => status == ErrTooShort && Wire() == old(Wire())
              case Malformed(seqNo, fault) =>
                status == ErrMalformed(fault) && sequence == seqNo && replyData == old(replyData) && fault.index < 3 &&
                (fault.index == 0 ==> serviceMethod == old(serviceMethod)) &&
                (fault.index > 0 ==>
                   && ReadField(LENGTH_WIDTH, data, 8, 0).Good?
                   && serviceMethod == ReadField(LENGTH_WIDTH, data, 8, 0).bytes) &&
                (fault.index < 2 ==> error == old(error)) &&
                (fault.index == 2 ==> SecondField(data) == Some(error))
      ensures status == Ok ==> ResponseBytes(sequence, serviceMethod, error, replyData) <= data
    {
      if |data| < 20 { return ErrTooShort; }
      ResponseAt(data);
      sequence := SequenceOf(data);
      DecodeStep(LENGTH_WIDTH, data, 8, 3, 0);
      var name := ReadField(LENGTH_WIDTH, data, 8, 0);
      if name.Bad? { return ErrMalformed(name.fault); }
      serviceMethod := name.bytes;
      DecodeStep(LENGTH_WIDTH, data, name.end, 2, 1);
      var err := ReadField(LENGTH_WIDTH, data, name.end, 1);
      if err.Bad? { return ErrMalformed(err.fault); }
      error := err.bytes;
      DecodeStep(LENGTH_WIDTH, data, err.end, 1, 2);
      var reply := ReadField(LENGTH_WIDTH, data, err.end, 2);
      if reply.Bad? { return ErrMalformed(reply.fault); }
      replyData := reply.bytes;
      status := Ok;
    }
  }

  lemma RequestWire(sequence: uint64, a: seq<byte>, b: seq<byte>)
    ensures Marshal(Packet(sequence, [a, b])) == RequestBytes(sequence, a, b)
  {
    assert [a, b][1..] == [b];
    assert EncodeFields(LENGTH_WIDTH, [b]) == EncodeField(LENGTH_WIDTH, b) + [];
  }

  /** A small request and a small response byte by byte. */
  lemma WireVectors()
    ensures RequestBytes(5, [7], [8]) == [0, 0, 0, 0, 0, 0, 0, 5, 0, 0, 0, 1, 7, 0, 0, 0, 1, 8]
    ensures ResponseBytes(5, [7], [8], [9]) == RequestBytes(5, [7], [8]) + [0, 0, 0, 1, 9]
  {
    SmallNumber(5, 7);
    SmallNumber(1, 3);
    assert seq(7, _ => 0) == [0, 0, 0, 0, 0, 0, 0] && seq(3, _ => 0) == [0, 0, 0];
    assert BigEndian(5, 8) == [0, 0, 0, 0, 0, 0, 0, 5] && BigEndian(1, 4) == [0, 0, 0, 1];
    assert EncodeField(4, [7]) == [0, 0, 0, 1, 7];
    assert EncodeField(4, [8]) == [0, 0, 0, 1, 8];
    assert EncodeField(4, [9]) == [0, 0, 0, 1, 9];
  }

  /** What is read as a request or a response stands at the front of the data in this order. */
  lemma RequestAt(data: seq<byte>)
    ensures var r := Unmarshal(data, 2);
            r.Parsed? ==>
              && |r.packet.fields| == 2
              && RequestBytes(r.packet.sequence, r.packet.fields[0], r.packet.fields[1]) <= data
  {
    var r := Unmarshal(data, 2);
    if r.Parsed? {
      ParsedReencodes(data, 2);
      RequestWire(r.packet.sequence, r.packet.fields[0], r.packet.fields[1]);
      assert r.packet.fields == [r.packet.fields[0], r.packet.fields[1]];
    }
  }

  lemma ResponseAt(data: seq<byte>)
    ensures var r := Unmarshal(data, 3);
            r.Parsed? ==>
              && |r.packet.fields| == 3
              && ResponseBytes(r.packet.sequence, r.packet.fields[0], r.packet.fields[1], r.packet.fields[2]) <= data
  {
    var r := Unmarshal(data, 3);
    if r.Parsed? {
      ParsedReencodes(data, 3);
      var f := r.packet.fields;
      ResponseWire(r.packet.sequence, f[0], f[1], f[2]);
      assert f == [f[0], f[1], f[2]];
    }
  }

  lemma ResponseWire(sequence: uint64, a: seq<byte>, b: seq<byte>, c: seq<byte>)
    ensures Marshal(Packet(sequence, [a, b, c])) == ResponseBytes(sequence, a, b, c)
  {
    assert [a, b, c][1..] == [b, c];
    assert [b, c][1..] == [c];
    assert EncodeFields(LENGTH_WIDTH, [c]) == EncodeField(LENGTH_WIDTH, c) + [];
    assert EncodeFields(LENGTH_WIDTH, [b, c]) == EncodeField(LENGTH_WIDTH, b) + EncodeField(LENGTH_WIDTH, c);
    assert EncodeFields(LENGTH_WIDTH, [a, b, c]) == EncodeField(LENGTH_WIDTH, a) + EncodeFields(LENGTH_WIDTH, [b, c]);
  }
}
