/** The gateway's conversions between internal messages and the frames clients
    send: the 5-byte binary frame (WebSocket and QUIC alike) and the QUIC text
    form "service:message:base64". */
module ProtocolConverter {
  import opened Bytes
  import IM = InternalMessage

  /** A message as the converters create one: no names, sequence 0. */
  function NewMessage(serviceType: uint16, messageType: uint16, payload: seq<byte>, now: uint64): (m: IM.Message)
  {
    IM.Message(IM.PROTOCOL_VERSION, 0, serviceType, messageType, 0, now, |payload| % 0x1_0000_0000, [], [], [], [],
               payload)
  }

  /******* Binary frames *******/

  /** Flags, service type, message type, payload. */
  function Frame(m: IM.Message): (s: seq<byte>)
  {
    [m.flags] + BigEndian(m.serviceType, 2) + BigEndian(m.messageType, 2) + m.payload
  }

  function Unframe(data: seq<byte>, now: uint64): (r: Option<IM.Message>)
  {
    CapacityFacts();
    if |data| < 5 then None
    else Some(NewMessage(Value(data[1..3]), Value(data[3..5]), data[5..], now).(flags := data[0]))
  }

  method FromInternalBinary(m: IM.Message) returns (result: seq<byte>)
    ensures result == Frame(m)
  {
    var buffer := new byte[5 + |m.payload|](_ => 0);
    buffer[0] := m.flags;
    assert buffer[..1] == [m.flags];
    PutBigEndian(buffer, 1, m.serviceType, 2);
    assert buffer[..3] == buffer[..1] + buffer[1..3];
    PutBigEndian(buffer, 3, m.messageType, 2);
    assert buffer[..5] == buffer[..3] + buffer[3..5];
    CopyInto(buffer, 5, m.payload);
    assert buffer[..] == buffer[..5] + buffer[5..];
    result := buffer[..];
  }

  /** Both directions of the binary conversion: a frame keeps the flags, the types
      and the payload, and every frame long enough is the frame of what is read. */
  lemma FrameRoundTrip(m: IM.Message, data: seq<byte>, now: uint64)
    ensures Unframe(Frame(m), now) == Some(NewMessage(m.serviceType, m.messageType, m.payload, now).(flags := m.flags))
    ensures |data| >= 5 <==> Unframe(data, now).Some?
    ensures |data| >= 5 ==> Frame(Unframe(data, now).value) == data
  {
    CapacityFacts();
    var f := Frame(m);
    assert f[1..3] == BigEndian(m.serviceType, 2) && f[3..5] == BigEndian(m.messageType, 2) && f[5..] == m.payload;
    ValueOfBigEndian(m.serviceType, 2);
    ValueOfBigEndian(m.messageType, 2);
    if |data| >= 5 {
      BigEndianOfValue(data[1..3]);
      BigEndianOfValue(data[3..5]);
      assert data == [data[0]] + data[1..3] + data[3..5] + data[5..];
    }
  }

  /** Where the parts of a frame are. */
  lemma FrameLayout(f: byte, a: byte, b: byte, c: byte, d: byte, payload: seq<byte>, now: uint64)
    ensures Unframe([f, a, b, c, d] + payload, now) ==
            Some(IM.Message(1, f, 256 * a + b, 256 * c + d, 0, now, |payload| % 0x1_0000_0000, [], [], [], [], payload))
  {
    var data := [f, a, b, c, d] + payload;
    assert data[1..3] == [a, b] && data[3..5] == [c, d] && data[5..] == payload;
    ValueOfTwo(a, b);
    ValueOfTwo(c, d);
  }

  /** A client frame carried on by the internal format arrives cut to a multiple of
      65536 payload bytes at the declared header size, and whole at the actual one:
      a converted message has no source name to make up the length. */
  lemma ForwardedFrame(data: seq<byte>, now: uint64)
    requires 5 <= |data| <= IM.MAX_MESSAGE_SIZE - IM.ACTUAL
    ensures var m := Unframe(data, now).value;
            var kept := |m.payload| - |m.payload| % 0x1_0000;
            && IM.EncodeSpec(IM.DECLARED, m).Bytes? && IM.EncodeSpec(IM.ACTUAL, m).Bytes?
            && IM.DecodeSpec(IM.DECLARED, IM.EncodeSpec(IM.DECLARED, m).bytes) ==
               IM.Msg(m.(payloadLength := kept, payload := m.payload[..kept]))
            && IM.DecodeSpec(IM.ACTUAL, IM.EncodeSpec(IM.ACTUAL, m).bytes) == IM.Msg(m)
  {
    ForwardedDeclared(Unframe(data, now).value);
    ForwardedActual(Unframe(data, now).value);
  }

  predicate Converted(m: IM.Message)
  {
    m == NewMessage(m.serviceType, m.messageType, m.payload, m.timestamp).(flags := m.flags) &&
    |m.payload| <= IM.MAX_MESSAGE_SIZE - IM.ACTUAL
  }

  lemma ForwardedDeclared(m: IM.Message)
    requires Converted(m)
    ensures var kept := |m.payload| - |m.payload| % 0x1_0000;
            IM.EncodeSpec(IM.DECLARED, m).Bytes? &&
            IM.DecodeSpec(IM.DECLARED, IM.EncodeSpec(IM.DECLARED, m).bytes) ==
            IM.Msg(m.(payloadLength := kept, payload := m.payload[..kept]))
  {
    IM.PayloadFate(m);
    assert m.payload[..|m.payload|] == m.payload;
  }

  lemma ForwardedActual(m: IM.Message)
    requires Converted(m)
    ensures IM.EncodeSpec(IM.ACTUAL, m).Bytes? &&
            IM.DecodeSpec(IM.ACTUAL, IM.EncodeSpec(IM.ACTUAL, m).bytes) == IM.Msg(m)
  {
    IM.RoundTripIff(IM.ACTUAL, m);
  }

  /******* Decimal numbers *******/

  function Decimal(n: nat): (s: string)
    ensures |s| > 0 && AllDigits(s)
  {
    var digit := [('0' as int + n % 10) as char];
    if n < 10 then digit else Decimal(n / 10) + digit
  }

  predicate AllDigits(s: string)
  {
    forall i :: 0 <= i < |s| ==> '0' <= s[i] <= '9'
  }

  function DecimalValue(s: string): (n: nat)
    requires AllDigits(s)
  {
    if s == [] then 0 else DecimalValue(s[..|s| - 1]) * 10 + (s[|s| - 1] as int - '0' as int)
  }

  /** Base-10, 16-bit unsigned parsing; leading zeros are accepted. */
  function ParseUint16(s: string): (r: Option<uint16>)
  {
    if s != [] && AllDigits(s) && DecimalValue(s) < 0x1_0000 then Some(DecimalValue(s)) else None
  }

  lemma {:induction false} DecimalValueOfDecimal(n: nat)
    ensures DecimalValue(Decimal(n)) == n
  {
    var s := Decimal(n);
    if n < 10 {
      assert s[..|s| - 1] == [];
    } else {
      assert s[..|s| - 1] == Decimal(n / 10);
      DecimalValueOfDecimal(n / 10);
    }
  }

  lemma DecimalVectors()
    ensures Decimal(7) == "7" && Decimal(1024) == "1024"
  {
    assert Decimal(10) == Decimal(1) + "0" == "10";
    assert Decimal(102) == Decimal(10) + "2" == "102";
    assert Decimal(1024) == Decimal(102) + "4" == "1024";
  }

  /******* Base64, with padding: section 4 of RFC 4648 *******/

  type sextet = v: int | 0 <= v < 64

  /** Neither the separator of the text form nor a line break. */
  predicate Plain(c: char)
  {
    c != ':' && c != '\n' && c != '\r'
  }

  predicate PlainText(t: string)
  {
    forall i :: 0 <= i < |t| ==> Plain(t[i])
  }

  function Symbol(v: sextet): (c: char)
    ensures c != '=' && Plain(c)
  {
    if v < 26 then ('A' as int + v) as char
    else if v < 52 then ('a' as int + (v - 26)) as char
    else if v < 62 then ('0' as int + (v - 52)) as char
    else if v == 62 then '+' else '/'
  }

  function SymbolValue(c: char): (r: Option<sextet>)
    ensures r.Some? ==> Symbol(r.value) == c
  {
    if 'A' <= c <= 'Z' then Some(c as int - 'A' as int)
    else if 'a' <= c <= 'z' then Some(c as int - 'a' as int + 26)
    else if '0' <= c <= '9' then Some(c as int - '0' as int + 52)
    else if c == '+' then Some(62) else if c == '/' then Some(63) else None
  }

  lemma SymbolValueOfSymbol(v: sextet)
    ensures SymbolValue(Symbol(v)) == Some(v)
  {
  }

  /** The alphabet of table 1 of RFC 4648, in order. */
  lemma Alphabet()
    ensures seq(26, i requires 0 <= i < 26 => Symbol(i)) == "ABCDEFGHIJKLMNOPQRSTUVWXYZ"
    ensures seq(26, i requires 0 <= i < 26 => Symbol(26 + i)) == "abcdefghijklmnopqrstuvwxyz"
    ensures seq(12, i requires 0 <= i < 12 => Symbol(52 + i)) == "0123456789+/"
  {
  }

  /** The four symbols of a group of three bytes. */
  function Group(a: byte, b: byte, c: byte): (s: string)
    ensures |s| == 4 && PlainText(s)
  {
    [Symbol(a / 4), Symbol(a % 4 * 16 + b / 16), Symbol(b % 16 * 4 + c / 64), Symbol(c % 64)]
  }

  function Base64(s: seq<byte>): (t: string)
  {
    if |s| == 0 then ""
    else if |s| == 1 then Group(s[0], 0, 0)[..2] + "=="
    else if |s| == 2 then Group(s[0], s[1], 0)[..3] + "="
    else Group(s[0], s[1], s[2]) + Base64(s[3..])
  }

  /** The three bytes of four sextets. */
  function Ungroup(p: sextet, q: sextet, r: sextet, s: sextet): (t: seq<byte>)
    ensures |t| == 3
  {
    [p * 4 + q / 16, q % 16 * 16 + r / 4, r % 4 * 64 + s]
  }

  /** Decoding of groups. Padding ends the data; the bits it leaves unused are not
      looked at. */
  function Unbase64(t: string): (r: Option<seq<byte>>)
  {
    if t == [] then Some([])
    else if |t| < 4 then None
    else
      var p, q := SymbolValue(t[0]), SymbolValue(t[1]);
      if p.None? || q.None? then None
      else if t[2] == '=' then
        if t[2..] == "==" then Some(Ungroup(p.value, q.value, 0, 0)[..1]) else None
      else
        var r := SymbolValue(t[2]);
        if r.None? then None
        else if t[3] == '=' then
          if |t| == 4 then Some(Ungroup(p.value, q.value, r.value, 0)[..2]) else None
        else
          var s := SymbolValue(t[3]);
          if s.None? then None
          else
            match Unbase64(t[4..])
            case None => None
            case Some(rest) => Some(Ungroup(p.value, q.value, r.value, s.value) + rest)
  }

  /** The decoder skips line breaks wherever they stand. */
  function WithoutBreaks(t: string): (r: string)
  {
    if t == [] then []
    else if t[0] == '\n' || t[0] == '\r' then WithoutBreaks(t[1..])
    else [t[0]] + WithoutBreaks(t[1..])
  }

  function DecodeBase64(t: string): (r: Option<seq<byte>>)
  {
    Unbase64(WithoutBreaks(t))
  }

  lemma GroupInverse(a: byte, b: byte, c: byte)
    ensures Ungroup(a / 4, a % 4 * 16 + b / 16, b % 16 * 4 + c / 64, c % 64) == [a, b, c]
  {
  }

  lemma SymbolsOfGroup(a: byte, b: byte, c: byte)
    ensures var g := Group(a, b, c);
            SymbolValue(g[0]) == Some(a / 4) && SymbolValue(g[1]) == Some(a % 4 * 16 + b / 16) &&
            SymbolValue(g[2]) == Some(b % 16 * 4 + c / 64) && SymbolValue(g[3]) == Some(c % 64)
  {
    SymbolValueOfSymbol(a / 4);
    SymbolValueOfSymbol(a % 4 * 16 + b / 16);
    SymbolValueOfSymbol(b % 16 * 4 + c / 64);
    SymbolValueOfSymbol(c % 64);
  }

  lemma {:induction false} UnbaseGroup(a: byte, b: byte, c: byte, t: string, rest: seq<byte>)
    requires Unbase64(t) == Some(rest)
    ensures Unbase64(Group(a, b, c) + t) == Some([a, b, c] + rest)
  {
    SymbolsOfGroup(a, b, c);
    GroupInverse(a, b, c);
    assert (Group(a, b, c) + t)[4..] == t;
  }

  lemma {:induction false} UnbaseTail(a: byte, b: byte)
    ensures Unbase64(Group(a, 0, 0)[..2] + "==") == Some([a])
    ensures Unbase64(Group(a, b, 0)[..3] + "=") == Some([a, b])
  {
    SymbolsOfGroup(a, 0, 0);
    SymbolsOfGroup(a, b, 0);
    GroupInverse(a, 0, 0);
    GroupInverse(a, b, 0);
    var t := Group(a, 0, 0)[..2] + "==";
    assert t[2..] == "==";
    assert Ungroup(a / 4, a % 4 * 16, 0, 0)[..1] == [a];
    assert Ungroup(a / 4, a % 4 * 16 + b / 16, b % 16 * 4, 0)[..2] == [a, b];
  }

  lemma {:induction false} Unbase64OfBase64(s: seq<byte>)
    ensures Unbase64(Base64(s)) == Some(s)
  {
    if |s| == 1 {
      UnbaseTail(s[0], 0);
      assert s == [s[0]];
    } else if |s| == 2 {
      UnbaseTail(s[0], s[1]);
      assert s == [s[0], s[1]];
    } else if |s| > 2 {
      Unbase64OfBase64(s[3..]);
      UnbaseGroup(s[0], s[1], s[2], Base64(s[3..]), s[3..]);
      FirstThree(s);
    }
  }

  lemma {:induction false} FirstThree(s: seq<byte>)
    requires |s| > 2
    ensures s == [s[0], s[1], s[2]] + s[3..]
    ensures Base64(s) == Group(s[0], s[1], s[2]) + Base64(s[3..])
  {
  }

  lemma {:induction false} Base64Alphabet(s: seq<byte>)
    ensures PlainText(Base64(s))
  {
    if |s| >= 3 {
      Base64Alphabet(s[3..]);
      PlainConcat(Group(s[0], s[1], s[2]), Base64(s[3..]));
    } else if |s| == 2 {
      PlainConcat(Group(s[0], s[1], 0)[..3], "=");
    } else if |s| == 1 {
      PlainConcat(Group(s[0], 0, 0)[..2], "==");
    }
  }

  lemma PlainConcat(a: string, b: string)
    requires PlainText(a) && PlainText(b)
    ensures PlainText(a + b)
  {
  }

  lemma {:induction false} NothingToSkip(t: string)
    requires PlainText(t)
    ensures WithoutBreaks(t) == t
  {
    if t != [] {
      NothingToSkip(t[1..]);
      assert t == [t[0]] + t[1..];
    }
  }

  /** Base64 decoding inverts encoding for every byte string. */
  lemma Base64RoundTrip(s: seq<byte>)
    ensures DecodeBase64(Base64(s)) == Some(s)
  {
    Base64Alphabet(s);
    NothingToSkip(Base64(s));
    Unbase64OfBase64(s);
  }

  /** Two of the test vectors in section 10 of RFC 4648: "f" and "foobar". */
  lemma Base64Vectors()
    ensures Base64([102]) == "Zg==" && Base64([102, 111, 111, 98, 97, 114]) == "Zm9vYmFy"
  {
    var s := [102, 111, 111, 98, 97, 114];
    assert s[3..] == [98, 97, 114] && s[3..][3..] == [];
    assert Group(102, 111, 111) == "Zm9v" && Group(98, 97, 114) == "YmFy" && Group(102, 0, 0)[..2] == "Zg";
    assert Base64([98, 97, 114]) == "YmFy" + "";
  }

  /******* The text form *******/

  function Split(s: string): (parts: seq<string>)
    ensures |parts| > 0
  {
    if s == [] then [[]]
    else
      var rest := Split(s[1..]);
      if s[0] == ':' then [[]] + rest else [[s[0]] + rest[0]] + rest[1..]
  }

  lemma {:induction false} SplitFirst(a: string, rest: string)
    requires ':' !in a
    ensures Split(a + ":" + rest) == [a] + Split(rest)
  {
    var s := a + ":" + rest;
    if a == [] {
      assert s[1..] == rest;
    } else {
      SplitFirst(a[1..], rest);
      assert s[1..] == a[1..] + ":" + rest;
      assert [a[0]] + a[1..] == a;
    }
  }

  lemma {:induction false} SplitNone(a: string)
    requires ':' !in a
    ensures Split(a) == [a]
  {
    if a != [] {
      SplitNone(a[1..]);
      assert [a[0]] + a[1..] == a;
    }
  }

  function PrintText(m: IM.Message): (t: string)
  {
    Decimal(m.serviceType) + ":" + Decimal(m.messageType) + ":" + Base64(m.payload)
  }

  function ParseText(t: string, now: uint64): (r: Option<IM.Message>)
  {
    var parts := Split(t);
    if |parts| != 3 then None
    else
      var service, message, payload := ParseUint16(parts[0]), ParseUint16(parts[1]), DecodeBase64(parts[2]);
      if service.None? || message.None? || payload.None? then None
      else Some(NewMessage(service.value, message.value, payload.value, now))
  }

  /** Parsing what was printed gives back the two types and the payload, for all
      16-bit types and every payload. */
  lemma TextRoundTrip(m: IM.Message, now: uint64)
    ensures ParseText(PrintText(m), now) == Some(NewMessage(m.serviceType, m.messageType, m.payload, now))
  {
    SplitPrinted(m);
    DecimalValueOfDecimal(m.serviceType);
    DecimalValueOfDecimal(m.messageType);
    Base64RoundTrip(m.payload);
  }

  lemma {:induction false} SplitPrinted(m: IM.Message)
    ensures Split(PrintText(m)) == [Decimal(m.serviceType), Decimal(m.messageType), Base64(m.payload)]
  {
    Base64Alphabet(m.payload);
    SplitThree(Decimal(m.serviceType), Decimal(m.messageType), Base64(m.payload));
  }

  lemma {:induction false} SplitThree(a: string, b: string, c: string)
    requires ':' !in a && ':' !in b && PlainText(c)
    ensures Split(a + ":" + b + ":" + c) == [a, b, c]
  {
    SplitNone(c);
    SplitFirst(b, c);
    SplitFirst(a, b + ":" + c);
    assert a + ":" + b + ":" + c == a + ":" + (b + ":" + c);
  }

  /** A whole message in the text form. */
  lemma PrintedMessage(now: uint64)
    ensures PrintText(NewMessage(1024, 7, [102], now)) == "1024:7:Zg=="
  {
    Base64Vectors();
    DecimalVectors();
  }

  /** Two messages print alike exactly when types and payload agree. */
  lemma TextDistinguishes(m: IM.Message, n: IM.Message)
    ensures PrintText(m) == PrintText(n) <==>
            m.serviceType == n.serviceType && m.messageType == n.messageType && m.payload == n.payload
  {
    TextRoundTrip(m, 0);
    TextRoundTrip(n, 0);
  }
}
