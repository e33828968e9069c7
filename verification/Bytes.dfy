/** Bytes on the wire: big-endian integers and length-prefixed fields, the two
    shapes from which every binary format of the server is built, and the
    in-place writes that fill a buffer at a moving offset. */
module Bytes {

  datatype Option<+T> = None | Some(value: T)

  type byte = b: int | 0 <= b < 0x100
  type uint8 = byte
  type uint16 = n: int | 0 <= n < 0x1_0000
  type uint32 = n: int | 0 <= n < 0x1_0000_0000
  type uint64 = n: int | 0 <= n < 0x1_0000_0000_0000_0000

  /** 256 to the power `k`: how many values fit in `k` bytes. */
  function Capacity(k: nat): (p: nat)
    ensures p > 0
  {
    if k == 0 then 1 else 256 * Capacity(k - 1)
  }

  lemma CapacityFacts()
    ensures Capacity(2) == 0x1_0000
    ensures Capacity(4) == 0x1_0000_0000
    ensures Capacity(8) == 0x1_0000_0000_0000_0000
  {
    assert Capacity(2) == 256 * Capacity(1);
    assert Capacity(4) == 256 * Capacity(3) == 256 * (256 * Capacity(2));
    assert Capacity(6) == 256 * Capacity(5) == 256 * (256 * Capacity(4));
    assert Capacity(8) == 256 * Capacity(7) == 256 * (256 * Capacity(6));
  }

  function BigEndian(n: nat, width: nat): (s: seq<byte>)
    ensures |s| == width
  {
    if width == 0 then [] else BigEndian(n / 256, width - 1) + [n % 256]
  }

  function Value(s: seq<byte>): (n: nat)
    ensures n < Capacity(|s|)
  {
    if s == [] then 0 else
      var hi := Value(s[..|s| - 1]);
      assert hi + 1 <= Capacity(|s| - 1);
      hi * 256 + s[|s| - 1]
  }

  /** Reading back a written integer that fits its width gives the integer. */
  lemma {:induction false} ValueOfBigEndian(n: nat, width: nat)
    requires n < Capacity(width)
    ensures Value(BigEndian(n, width)) == n
  {
    if width > 0 {
      ValueOfBigEndian(n / 256, width - 1);
      assert BigEndian(n, width)[..width - 1] == BigEndian(n / 256, width - 1);
    }
  }

  /** Every byte string is the encoding of the integer it reads as. */
  lemma {:induction false} BigEndianOfValue(s: seq<byte>)
    ensures BigEndian(Value(s), |s|) == s
  {
    if s != [] {
      var hi := s[..|s| - 1];
      BigEndianOfValue(hi);
      assert Value(s) / 256 == Value(hi) && Value(s) % 256 == s[|s| - 1];
      assert s == hi + [s[|s| - 1]];
    }
  }

  lemma ValueSnoc(s: seq<byte>, b: byte)
    ensures Value(s + [b]) == Value(s) * 256 + b
  {
    assert (s + [b])[..|s|] == s;
  }

  lemma Shifted(hi: nat, p: nat, lo: nat, b: nat)
    ensures (hi * p + lo) * 256 + b == hi * (256 * p) + (lo * 256 + b)
  {
  }

  /** Numbers are read from the most significant byte on. */
  lemma {:induction false} ValueConcat(hi: seq<byte>, lo: seq<byte>)
    ensures Value(hi + lo) == Value(hi) * Capacity(|lo|) + Value(lo)
    decreases |lo|
  {
    if lo == [] {
      assert hi + lo == hi;
    } else {
      var n := |lo| - 1;
      ValueConcat(hi, lo[..n]);
      ValueSnoc(hi + lo[..n], lo[n]);
      ValueSnoc(lo[..n], lo[n]);
      assert hi + lo == hi + lo[..n] + [lo[n]] && lo == lo[..n] + [lo[n]];
      Shifted(Value(hi), Capacity(n), Value(lo[..n]), lo[n]);
    }
  }

  lemma {:induction false} SmallNumber(n: byte, width: nat)
    ensures BigEndian(n, width + 1) == seq(width, _ => 0) + [n]
    decreases width
  {
    if width > 0 {
      SmallNumber(0, width - 1);
      assert n / 256 == 0 && n % 256 == n;
      assert seq(width, _ => 0) == seq(width - 1, _ => 0) + [0];
    }
  }

  lemma ValueOfTwo(a: byte, b: byte)
    ensures Value([a]) == a && Value([a, b]) == 256 * a + b
  {
    assert [a][..0] == [] && [a, b][..1] == [a];
  }

  /******* Length-prefixed fields *******/

  /** The fields one after the other, each after its length in `width` bytes.
      A length that does not fit loses its high bytes, as in a Go integer
      conversion. */
  function EncodeFields(width: nat, fields: seq<seq<byte>>): (s: seq<byte>)
  {
    if fields == [] then [] else EncodeField(width, fields[0]) + EncodeFields(width, fields[1..])
  }

  function EncodeField(width: nat, field: seq<byte>): (s: seq<byte>)
    ensures |s| == width + |field|
  {
    BigEndian(|field|, width) + field
  }

  /** First the length, then the field. */
  lemma FieldLayout(width: nat, field: seq<byte>)
    requires |field| < Capacity(width)
    ensures var s := EncodeField(width, field); Value(s[..width]) == |field| && s[width..] == field
  {
    ValueOfBigEndian(|field|, width);
    assert EncodeField(width, field)[..width] == BigEndian(|field|, width);
  }

  /** Why reading a field stopped: no room for the length of field `index`, or
      the length of field `index` runs past the end of the data. */
  datatype Fault = NoLength(index: nat) | LengthExceedsData(index: nat)

  datatype Fields = Fields(fields: seq<seq<byte>>, rest: seq<byte>) | Truncated(fault: Fault)

  datatype Read = Good(bytes: seq<byte>, end: nat) | Bad(fault: Fault)

  /** Reads the field whose length is written at `offset`. */
  function ReadField(width: nat, data: seq<byte>, offset: nat, index: nat): (r: Read)
    requires offset <= |data|
    ensures r.Good? ==> offset + width <= r.end <= |data|
  {
    var start := offset + width;
    if |data| < start then Bad(NoLength(index))
    else
      var end := start + Value(data[offset..start]);
      if |data| < end then Bad(LengthExceedsData(index)) else Good(data[start..end], end)
  }

  /** Reads `count` fields, the first at `offset`; `index` numbers the first. */
  function DecodeFields(width: nat, data: seq<byte>, offset: nat, count: nat, index: nat := 0): (r: Fields)
    requires offset <= |data|
    ensures r.Fields? ==> |r.fields| == count
    decreases count, data
  {
    if count == 0 then Fields([], data[offset..])
    else
      match ReadField(width, data, offset, index)
      case Bad(fault) => Truncated(fault)
      case Good(bytes, end) =>
        match DecodeFields(width, data, end, count - 1, index + 1)
        case Truncated(fault) => Truncated(fault)
        case Fields(fields, rest) => Fields([bytes] + fields, rest)
  }

  lemma {:induction false} DecodeStep(width: nat, data: seq<byte>, offset: nat, count: nat, index: nat)
    requires offset <= |data| && count > 0
    ensures DecodeFields(width, data, offset, count, index) ==
            match ReadField(width, data, offset, index)
            case Bad(fault) => Truncated(fault)
            case Good(bytes, end) =>
              match DecodeFields(width, data, end, count - 1, index + 1)
              case Truncated(fault) => Truncated(fault)
              case Fields(fields, rest) => Fields([bytes] + fields, rest)
  {
  }

  ghost predicate AllFit(width: nat, fields: seq<seq<byte>>)
  {
    forall field :: field in fields ==> |field| < Capacity(width)
  }

  lemma {:induction false} EncodedFieldReads(width: nat, field: seq<byte>, tail: seq<byte>, data: seq<byte>,
                                             offset: nat, index: nat)
    requires |field| < Capacity(width)
    requires offset <= |data| && data[offset..] == EncodeField(width, field) + tail
    ensures ReadField(width, data, offset, index) == Good(field, offset + width + |field|)
    ensures data[offset + width + |field|..] == tail
  {
    var head := BigEndian(|field|, width);
    ValueOfBigEndian(|field|, width);
    HeadedFieldReads(head, field, tail, data, offset, index);
  }

  lemma {:induction false} HeadedFieldReads(head: seq<byte>, field: seq<byte>, tail: seq<byte>, data: seq<byte>,
                                            offset: nat, index: nat)
    requires Value(head) == |field| && offset <= |data| && data[offset..] == head + field + tail
    ensures ReadField(|head|, data, offset, index) == Good(field, offset + |head| + |field|)
    ensures data[offset + |head| + |field|..] == tail
  {
    FieldSlices(head, field, tail, data, offset);
  }

  lemma FieldSlices(head: seq<byte>, field: seq<byte>, tail: seq<byte>, data: seq<byte>, offset: nat)
    requires offset <= |data| && data[offset..] == head + field + tail
    ensures var start := offset + |head|; var end := start + |field|;
            end <= |data| && data[offset..start] == head && data[start..end] == field && data[end..] == tail
  {
    var s := data[offset..];
    var start := offset + |head|;
    assert data[offset..start] == s[..|head|];
    assert data[start..start + |field|] == s[|head|..|head| + |field|];
    assert data[start + |field|..] == s[|head| + |field|..];
  }

  lemma {:induction false} ReadFieldReencodes(width: nat, data: seq<byte>, offset: nat, index: nat)
    requires offset <= |data| && ReadField(width, data, offset, index).Good?
    ensures var r := ReadField(width, data, offset, index);
            |r.bytes| < Capacity(width) && data[offset..] == EncodeField(width, r.bytes) + data[r.end..]
  {
    var start := offset + width;
    var r := ReadField(width, data, offset, index);
    BigEndianOfValue(data[offset..start]);
    assert data[offset..] == data[offset..start] + data[start..r.end] + data[r.end..];
  }

  lemma Reassociate(a: seq<byte>, b: seq<byte>, c: seq<byte>)
    ensures (a + b) + c == a + (b + c)
  {
  }

  /** Decoding inverts encoding, whatever follows the fields. */
  lemma {:induction false} DecodeEncodedFields(width: nat, fields: seq<seq<byte>>, rest: seq<byte>, data: seq<byte>,
                                               offset: nat, index: nat)
    requires AllFit(width, fields)
    requires offset <= |data| && data[offset..] == EncodeFields(width, fields) + rest
    ensures DecodeFields(width, data, offset, |fields|, index) == Fields(fields, rest)
    decreases |fields|
  {
    if fields == [] {
      assert EncodeFields(width, fields) + rest == rest;
    } else {
      UnconsFields(width, fields, rest);
      EncodedFieldReads(width, fields[0], EncodeFields(width, fields[1..]) + rest, data, offset, index);
      var end := offset + width + |fields[0]|;
      DecodeEncodedFields(width, fields[1..], rest, data, end, index + 1);
      DecodeCons(width, data, offset, index, fields, end, rest);
    }
  }

  lemma {:induction false} DecodeCons(width: nat, data: seq<byte>, offset: nat, index: nat, fields: seq<seq<byte>>,
                                      end: nat, rest: seq<byte>)
    requires offset <= |data| && end <= |data| && fields != []
    requires ReadField(width, data, offset, index) == Good(fields[0], end)
    requires DecodeFields(width, data, end, |fields| - 1, index + 1) == Fields(fields[1..], rest)
    ensures DecodeFields(width, data, offset, |fields|, index) == Fields(fields, rest)
  {
    assert [fields[0]] + fields[1..] == fields;
  }

  lemma {:induction false} UnconsFields(width: nat, fields: seq<seq<byte>>, rest: seq<byte>)
    requires fields != []
    ensures EncodeFields(width, fields) + rest ==
            EncodeField(width, fields[0]) + (EncodeFields(width, fields[1..]) + rest)
  {
    Reassociate(EncodeField(width, fields[0]), EncodeFields(width, fields[1..]), rest);
  }

  /** What decoding accepts, it has read exactly: the data is the encoding of the
      fields followed by the rest. */
  lemma {:induction false} DecodedFieldsReencode(width: nat, data: seq<byte>, offset: nat, count: nat, index: nat)
    requires offset <= |data| && DecodeFields(width, data, offset, count, index).Fields?
    ensures var r := DecodeFields(width, data, offset, count, index);
            AllFit(width, r.fields) && data[offset..] == EncodeFields(width, r.fields) + r.rest
    decreases count
  {
    if count > 0 {
      var first := ReadField(width, data, offset, index);
      var deeper := DecodeFields(width, data, first.end, count - 1, index + 1);
      DecodedFieldsReencode(width, data, first.end, count - 1, index + 1);
      ReadFieldReencodes(width, data, offset, index);
      ConsField(width, first.bytes, deeper.fields, deeper.rest, data[first.end..]);
    }
  }

  lemma {:induction false} ConsField(width: nat, first: seq<byte>, fields: seq<seq<byte>>, rest: seq<byte>,
                                     tail: seq<byte>)
    requires |first| < Capacity(width) && AllFit(width, fields)
    requires tail == EncodeFields(width, fields) + rest
    ensures AllFit(width, [first] + fields)
    ensures EncodeFields(width, [first] + fields) + rest == EncodeField(width, first) + tail
  {
    assert ([first] + fields)[1..] == fields;
  }

  /******* Filling a buffer in place *******/

  /** Writes `n` big-endian into `buffer[offset..offset + width]`. */
  method PutBigEndian(buffer: array<byte>, offset: nat, n: nat, width: nat)
    requires offset + width <= buffer.Length
    modifies buffer
    ensures buffer[..offset] == old(buffer[..offset])
    ensures buffer[offset..offset + width] == BigEndian(n, width)
    ensures buffer[offset + width..] == old(buffer[offset + width..])
  {
    var rest, i := n, width;
    while i > 0
      invariant 0 <= i <= width
      invariant buffer[..offset] == old(buffer[..offset])
      invariant buffer[offset + width..] == old(buffer[offset + width..])
      invariant BigEndian(rest, i) + buffer[offset + i..offset + width] == BigEndian(n, width)
    {
      ghost var done := buffer[offset + i..offset + width];
      i := i - 1;
      buffer[offset + i] := rest % 256;
      assert buffer[offset + i..offset + width] == [rest % 256] + done;
      rest := rest / 256;
    }
  }

  /** Copies `source` into the buffer at `offset`. */
  method CopyInto(buffer: array<byte>, offset: nat, source: seq<byte>)
    requires offset + |source| <= buffer.Length
    modifies buffer
    ensures buffer[..offset] == old(buffer[..offset])
    ensures buffer[offset..offset + |source|] == source
    ensures buffer[offset + |source|..] == old(buffer[offset + |source|..])
  {
    var i := 0;
    while i < |source|
      invariant 0 <= i <= |source|
      invariant buffer[..offset] == old(buffer[..offset])
      invariant buffer[offset..offset + i] == source[..i]
      invariant buffer[offset + |source|..] == old(buffer[offset + |source|..])
    {
      buffer[offset + i] := source[i];
      i := i + 1;
    }
  }

  /** Writes one length-prefixed field at `offset` and returns where it ends. */
  method PutField(buffer: array<byte>, offset: nat, width: nat, field: seq<byte>) returns (end: nat)
    requires offset + width + |field| <= buffer.Length
    modifies buffer
    ensures end == offset + width + |field|
    ensures buffer[..end] == old(buffer[..offset]) + EncodeField(width, field)
    ensures buffer[end..] == old(buffer[end..])
  {
    PutBigEndian(buffer, offset, |field|, width);
    assert buffer[..offset + width] == buffer[..offset] + buffer[offset..offset + width];
    ghost var tail := buffer[offset + width..];
    CopyInto(buffer, offset + width, field);
    end := offset + width + |field|;
    assert buffer[..end] == buffer[..offset + width] + buffer[offset + width..end];
    assert old(buffer[end..]) == old(buffer[offset + width..])[|field|..];
  }
}
