/** The binary-framed protocol: message types, `Protocol.encode` and `Protocol.decode`. */
module Framing {
  import opened Bytes
  import Uuid

  /** A Python value that can stand in a payload. Only `Raw` is not a JSON value. */
  datatype Value =
    | Null
    | Truth(flag: bool)
    | Number(n: int)
    | Text(text: string)
    | Raw(bytes: seq<byte>)
    | Items(items: seq<Value>)
    | Fields(fields: map<string, Value>)

  type Payload = map<string, Value>

  datatype Message = Message(kind: Value, payload: Payload)

  const MAGIC: byte := 0xAA
  const VERSION: byte := 0x01
  const HEADER_SIZE := 8
  const DATA_CODE: byte := 0x0A
  const DATA: string := "data"

  /** Type names in the order of their codes: the code of TYPES[i] is i + 1. */
  const TYPES: seq<string> := [
    "login", "login_resp", "register", "new_conn", "init_conn", "ping", "pong", "error", "close",
    "data", "data_auth", "data_auth_resp", "http_new_conn", "http_resp_req", "stcp_register",
    "stcp_visitor_register", "stcp_visitor_register_resp", "stcp_new_visitor", "stcp_visitor_ready",
    "ftp_new_data", "ftp_data_ready", "remote_cmd", "remote_cmd_resp"
  ]

  function TypeOf(code: byte): (t: Option<string>) {
    if 1 <= code <= |TYPES| then Some(TYPES[code - 1]) else None
  }

  function CodeFrom(t: string, i: nat): (code: Option<byte>)
    requires i <= |TYPES|
    ensures code.Some? ==> i < code.value <= |TYPES| && TYPES[code.value - 1] == t
    ensures code.None? ==> forall j :: i <= j < |TYPES| ==> TYPES[j] != t
    decreases |TYPES| - i
  {
    if i == |TYPES| then None
    else if TYPES[i] == t then Some(i + 1)
    else CodeFrom(t, i + 1)
  }

  function CodeOf(t: string): (code: Option<byte>)
    ensures code.Some? ==> TypeOf(code.value) == Some(t)
  {
    CodeFrom(t, 0)
  }

  /** Names and codes are in bijection: no name has two codes. */
  lemma CodeOfTypeOf(code: byte, t: string)
    ensures CodeOf(t) == Some(code) <==> TypeOf(code) == Some(t)
  {
    if TypeOf(code) == Some(t) {
      assert forall i, j :: 0 <= i < j < |TYPES| ==> TYPES[i] != TYPES[j];
    }
  }

  // ----- the control-payload codec -----

  datatype Loaded = NotJson | NotObject | Object(entries: Payload)

  /** `json.dumps(d).encode()` and `json.loads(bytes.decode())`; `dumps` is None
      where the value cannot be written as JSON. */
  datatype Codec = Codec(dumps: Payload -> Option<seq<byte>>, loads: seq<byte> -> Loaded)

  ghost predicate Lawful(codec: Codec) {
    forall d: Payload :: codec.dumps(d).Some? ==> codec.loads(codec.dumps(d).value) == Object(d)
  }

  function ToDict(m: Message): Payload {
    map["type" := m.kind] + m.payload
  }

  /** Keyword names taken by the constructor; a payload with one of them cannot be built. */
  predicate HasReservedKey(d: Payload) {
    "self" in d || "msg_type" in d
  }

  // ----- encode -----

  datatype EncodeError = UnknownType | NotSerialisable | TooLong
  datatype Encoded = Frame(bytes: seq<byte>) | Failed(error: EncodeError)

  /** The eight bytes of `struct.pack(">BBBBI", MAGIC, VERSION, code, 0, length)`. */
  function Header(code: byte, length: int): (h: seq<byte>)
    requires 0 <= length < TWO_TO_32
    ensures |h| == HEADER_SIZE
  {
    [MAGIC, VERSION, code, 0] + Be32(length)
  }

  lemma HeaderReads(code: byte, length: int)
    requires 0 <= length < TWO_TO_32
    ensures Header(code, length)[..4] == [0xAA, 0x01, code, 0x00]
    ensures ReadBe32(Header(code, length)[4..]) == length
  {
    assert Header(code, length)[4..] == Be32(length);
    ReadBe32Inverts(length);
  }

  function DataMessage(connId: string, data: seq<byte>): Message {
    Message(Text(DATA), map["conn_id" := Text(connId), "data" := Raw(data)])
  }

  /** A connection id that is not a UUID is sent as sixteen zero octets. */
  function UuidBytes(connId: string): (b: seq<byte>)
    ensures |b| == Uuid.UUID_SIZE
  {
    match Uuid.Parse(connId)
    case Some(b) => b
    case None => Uuid.NIL
  }

  function EncodeData(connId: string, data: seq<byte>): Encoded {
    var length := Uuid.UUID_SIZE + |data|;
    if length >= TWO_TO_32 then Failed(TooLong)
    else Frame(Header(DATA_CODE, length) + UuidBytes(connId) + data)
  }

  function EncodeControl(codec: Codec, m: Message): Encoded {
    if !m.kind.Text? || CodeOf(m.kind.text).None? then Failed(UnknownType)
    else
      match codec.dumps(ToDict(m))
      case None => Failed(NotSerialisable)
      case Some(text) =>
        if |text| >= TWO_TO_32 then Failed(TooLong)
        else Frame(Header(CodeOf(m.kind.text).value, |text|) + text)
  }

  /** `Protocol.encode`. A DATA payload that does not hold a text id and raw bytes
      is not part of this model; it is refused. */
  function Encode(codec: Codec, m: Message): Encoded {
    if m.kind != Text(DATA) then EncodeControl(codec, m)
    else if "conn_id" in m.payload && m.payload["conn_id"].Text? && "data" in m.payload && m.payload["data"].Raw? then
      EncodeData(m.payload["conn_id"].text, m.payload["data"].bytes)
    else Failed(NotSerialisable)
  }

  /** The DATA branch as written: one pre-allocated buffer, filled in place. */
  method FillDataFrame(connId: string, data: seq<byte>) returns (buf: array<byte>)
    requires Uuid.UUID_SIZE + |data| < TWO_TO_32
    ensures fresh(buf) && EncodeData(connId, data) == Frame(buf[..])
  {
    var payloadLen := Uuid.UUID_SIZE + |data|;
    buf := new byte[HEADER_SIZE + payloadLen](_ => 0);
    var header := Header(DATA_CODE, payloadLen);
    forall i | 0 <= i < HEADER_SIZE {
      buf[i] := header[i];
    }
    var id := UuidBytes(connId);
    forall i | 0 <= i < Uuid.UUID_SIZE {
      buf[HEADER_SIZE + i] := id[i];
    }
    forall i | 0 <= i < |data| {
      buf[HEADER_SIZE + Uuid.UUID_SIZE + i] := data[i];
    }
    assert buf[..] == header + id + data;
  }

  // ----- decode -----

  /** Python returns `(None, data)`, `(None, rest)` or `(message, rest)`, or lets an
      exception escape; the first two look alike to the caller. */
  datatype Decoded =
    | NeedMore
    | Dropped(rest: seq<byte>)
    | Got(message: Message, rest: seq<byte>)
    | Raised

  /** `Message.from_dict`: the type comes out of the payload, whatever the frame code said. */
  function FromDict(d: Payload): (m: Message)
    requires "type" in d
  {
    Message(d["type"], d - {"type"})
  }

  function DecodeControl(codec: Codec, payload: seq<byte>, rest: seq<byte>): Decoded {
    match codec.loads(payload)
    case NotJson => Dropped(rest)
    case NotObject => Raised
    case Object(d) =>
      if "type" !in d then Dropped(rest)
      else if HasReservedKey(d) then Raised
      else Got(FromDict(d), rest)
  }

  function DecodePayload(codec: Codec, code: byte, payload: seq<byte>, rest: seq<byte>): Decoded {
    match TypeOf(code)
    case None => Dropped(rest)
    case Some(t) =>
      if t != DATA then DecodeControl(codec, payload, rest)
      else if |payload| < Uuid.UUID_SIZE then Dropped(rest)
      else Got(DataMessage(Uuid.Print(payload[..Uuid.UUID_SIZE]), payload[Uuid.UUID_SIZE..]), rest)
  }

  function Decode(codec: Codec, data: seq<byte>): (r: Decoded)
    ensures (r.Dropped? || r.Got?) ==> |r.rest| < |data| && r.rest == data[|data| - |r.rest|..]
  {
    if |data| < HEADER_SIZE then NeedMore
    else if data[0] != MAGIC then Dropped(data[1..])
    else
      var end := HEADER_SIZE + ReadBe32(data[4..8]);
      if |data| < end then NeedMore
      else DecodePayload(codec, data[2], data[HEADER_SIZE..end], data[end..])
  }

  /** What decode settled on some bytes it settles in the same way when more follow. */
  lemma DecodeSuffix(codec: Codec, a: seq<byte>, b: seq<byte>)
    ensures match Decode(codec, a)
            case NeedMore => true
            case Dropped(rest) => Decode(codec, a + b) == Dropped(rest + b)
            case Got(m, rest) => Decode(codec, a + b) == Got(m, rest + b)
            case Raised => Decode(codec, a + b) == Raised
  {
    var c := a + b;
    if |a| >= HEADER_SIZE {
      if a[0] != MAGIC {
        assert c[1..] == a[1..] + b;
      } else {
        assert c[4..8] == a[4..8];
        var end := HEADER_SIZE + ReadBe32(a[4..8]);
        if |a| >= end {
          assert c[HEADER_SIZE..end] == a[HEADER_SIZE..end] && c[end..] == a[end..] + b;
        }
      }
    }
  }

  /** A frame followed by anything is cut at its own end. */
  lemma DecodeFrame(codec: Codec, code: byte, payload: seq<byte>, rest: seq<byte>)
    requires |payload| < TWO_TO_32
    ensures Decode(codec, Header(code, |payload|) + payload + rest) == DecodePayload(codec, code, payload, rest)
  {
    var frame := Header(code, |payload|) + payload + rest;
    var end := HEADER_SIZE + |payload|;
    assert frame[4..8] == Be32(|payload|);
    ReadBe32Inverts(|payload|);
    assert frame[HEADER_SIZE..end] == payload && frame[end..] == rest;
  }

  /** No proper prefix of a frame is settled: decode waits for the whole of it. */
  lemma DecodeShort(codec: Codec, code: byte, payload: seq<byte>, n: nat)
    requires |payload| < TWO_TO_32 && n < HEADER_SIZE + |payload|
    ensures Decode(codec, (Header(code, |payload|) + payload)[..n]) == NeedMore
  {
    var part := (Header(code, |payload|) + payload)[..n];
    if n >= HEADER_SIZE {
      assert part[..HEADER_SIZE] == Header(code, |payload|);
      assert part[4..8] == Header(code, |payload|)[4..8] == Be32(|payload|);
      ReadBe32Inverts(|payload|);
    }
  }

  // ----- frames octet by octet -----

  /** The codes as the two ends know them: `CodeOfTypeOf` turns each equation round. */
  lemma SessionCodes()
    ensures TypeOf(0x01) == Some("login") && TypeOf(0x02) == Some("login_resp")
    ensures TypeOf(0x03) == Some("register") && TypeOf(0x04) == Some("new_conn")
    ensures TypeOf(0x05) == Some("init_conn") && TypeOf(0x06) == Some("ping") && TypeOf(0x07) == Some("pong")
    ensures TypeOf(0x08) == Some("error")
  {
  }

  lemma DataCodes()
    ensures TypeOf(0x09) == Some("close") && TypeOf(0x0A) == Some("data") && TypeOf(0x0B) == Some("data_auth")
    ensures TypeOf(0x0C) == Some("data_auth_resp") && TypeOf(0x0D) == Some("http_new_conn")
    ensures TypeOf(0x0E) == Some("http_resp_req")
  {
  }

  lemma RelayCodes()
    ensures TypeOf(0x0F) == Some("stcp_register") && TypeOf(0x10) == Some("stcp_visitor_register")
    ensures TypeOf(0x11) == Some("stcp_visitor_register_resp") && TypeOf(0x12) == Some("stcp_new_visitor")
    ensures TypeOf(0x13) == Some("stcp_visitor_ready") && TypeOf(0x14) == Some("ftp_new_data")
    ensures TypeOf(0x15) == Some("ftp_data_ready") && TypeOf(0x16) == Some("remote_cmd")
    ensures TypeOf(0x17) == Some("remote_cmd_resp")
    ensures forall code: byte :: TypeOf(code).Some? <==> 0x01 <= code <= 0x17
  {
  }

  /** A frame of that code: the magic octet, any version and flags, the length with its highest
      octet first, the payload. */
  ghost predicate FrameHolds(f: seq<byte>, code: byte, payload: seq<byte>) {
    && |f| == 8 + |payload|
    && f[0] == 0xAA && f[2] == code
    && f[4] as int * 0x100_0000 + f[5] as int * 0x1_0000 + f[6] as int * 0x100 + f[7] as int == |payload|
    && f[8..] == payload
  }

  lemma HeaderIsFrame(code: byte, payload: seq<byte>)
    requires |payload| < TWO_TO_32
    ensures var f := Header(code, |payload|) + payload;
            FrameHolds(f, code, payload) && f[1] == 0x01 && f[3] == 0x00
  {
    ReadBe32Inverts(|payload|);
    var h := Be32(|payload|);
    assert ReadBe32(h) == h[0] as int * 0x100_0000 + h[1] as int * 0x1_0000 + h[2] as int * 0x100 + h[3] as int;
  }

  /** Which control messages have a frame, what it is, and what is refused for which reason. */
  lemma ControlEncodesIff(codec: Codec, m: Message)
    requires m.kind != Text("data")
    ensures var text := codec.dumps(map["type" := m.kind] + m.payload);
            match Encode(codec, m)
            case Frame(f) =>
              && m.kind.Text? && text.Some? && |text.value| < 0x1_0000_0000
              && (exists code :: TypeOf(code) == Some(m.kind.text) && FrameHolds(f, code, text.value)) && f[1] == 0x01 && f[3] == 0x00
            case Failed(UnknownType) => !m.kind.Text? || forall code :: TypeOf(code) != Some(m.kind.text)
            case Failed(NotSerialisable) => text.None? && m.kind.Text? && exists code :: TypeOf(code) == Some(m.kind.text)
            case Failed(TooLong) =>
              text.Some? && |text.value| >= 0x1_0000_0000 && m.kind.Text? && exists code :: TypeOf(code) == Some(m.kind.text)
  {
    if m.kind.Text? {
      var code := CodeOf(m.kind.text);
      if code.Some? {
        var text := codec.dumps(ToDict(m));
        if text.Some? && |text.value| < TWO_TO_32 {
          HeaderIsFrame(code.value, text.value);
        }
      } else {
        forall c: byte
          ensures TypeOf(c) != Some(m.kind.text)
        {
          CodeOfTypeOf(c, m.kind.text);
        }
      }
    }
  }

  /** Data has a frame exactly when its length can be written: the id's octets, or sixteen zeros
      for an id that is no UUID, then the data. */
  lemma DataEncodesIff(codec: Codec, connId: string, data: seq<byte>)
    ensures match Encode(codec, DataMessage(connId, data))
            case Frame(f) =>
              && 16 + |data| < 0x1_0000_0000
              && FrameHolds(f, 0x0A, f[8..]) && f[1] == 0x01 && f[3] == 0x00 && |f| == 24 + |data| && f[24..] == data
              && match Uuid.Parse(connId) {
                   case Some(octets) => f[8..24] == octets
                   case None => forall i :: 8 <= i < 24 ==> f[i] == 0
                 }
            case Failed(error) => error.TooLong? && 16 + |data| >= 0x1_0000_0000
  {
    var id := UuidBytes(connId);
    if 16 + |data| < TWO_TO_32 {
      HeaderIsFrame(DATA_CODE, id + data);
      var f := Header(DATA_CODE, 16 + |data|) + id + data;
      assert f == Header(DATA_CODE, |id + data|) + (id + data);
      assert f[8..] == id + data && f[8..24] == id && f[24..] == data;
      assert Uuid.Parse(connId).None? ==> forall i :: 8 <= i < 24 ==> f[i] == id[i - 8];
    }
  }

  /** What becomes of a frame, whatever follows it: dropped for an unknown code, for data shorter
      than an id, and for text that is no JSON or has no type; raised for JSON that is no object and
      for a name the constructor has taken; a message otherwise. */
  lemma FrameOutcome(codec: Codec, f: seq<byte>, code: byte, payload: seq<byte>, rest: seq<byte>)
    requires FrameHolds(f, code, payload)
    ensures var r := Decode(codec, f + rest);
            if code == 0x0A then
              if |payload| < 16 then r == Dropped(rest)
              else r == Got(Message(Text("data"), map["conn_id" := Text(Uuid.Print(payload[..16])), "data" := Raw(payload[16..])]), rest)
            else if !(0x01 <= code <= 0x17) then r == Dropped(rest)
            else
              match codec.loads(payload)
              case NotJson => r == Dropped(rest)
              case NotObject => r == Raised
              case Object(d) =>
                if "type" !in d then r == Dropped(rest)
                else if "self" in d || "msg_type" in d then r == Raised
                else r == Got(Message(d["type"], map key | key in d && key != "type" :: d[key]), rest)
  {
    var data := f + rest;
    assert data[4..8] == f[4..8];
    assert ReadBe32(data[4..8]) == |payload|;
    assert data[8..8 + |payload|] == payload && data[8 + |payload|..] == rest;
    assert Decode(codec, data) == DecodePayload(codec, code, payload, rest);
    hide Decode, ReadBe32;
    assert TypeOf(0x0A) == Some(DATA);
    assert code != 0x0A && 1 <= code <= 0x17 ==> TypeOf(code).Some? && TypeOf(code).value != DATA;
    if code != 0x0A && 1 <= code <= 0x17 && codec.loads(payload).Object? {
      var d := codec.loads(payload).entries;
      assert d - {"type"} == map key | key in d && key != "type" :: d[key];
    }
  }

  /** Bytes that do not start with the magic octet lose one octet at a time. */
  lemma StrayOctet(codec: Codec, data: seq<byte>)
    requires |data| >= 8 && data[0] != 0xAA
    ensures Decode(codec, data) == Dropped(data[1..])
  {
  }

  // ----- round trips -----

  lemma DataDecodes(codec: Codec, connId: string, data: seq<byte>, rest: seq<byte>)
    requires Uuid.UUID_SIZE + |data| < TWO_TO_32
    ensures Encode(codec, DataMessage(connId, data)).Frame?
    ensures Decode(codec, Encode(codec, DataMessage(connId, data)).bytes + rest)
         == Got(DataMessage(Uuid.Print(UuidBytes(connId)), data), rest)
  {
    hide UuidBytes;
    var payload := UuidBytes(connId) + data;
    var frame := Header(DATA_CODE, |payload|) + UuidBytes(connId) + data;
    assert Encode(codec, DataMessage(connId, data)) == Frame(frame);
    assert TypeOf(DATA_CODE) == Some(DATA);
    DecodeFrame(codec, DATA_CODE, payload, rest);
    assert frame + rest == Header(DATA_CODE, |payload|) + payload + rest;
    assert payload[..Uuid.UUID_SIZE] == UuidBytes(connId) && payload[Uuid.UUID_SIZE..] == data;
  }

  /** The data survives any id; the id comes back as it went exactly when it is canonical. */
  lemma DataRoundTrip(codec: Codec, connId: string, data: seq<byte>, rest: seq<byte>)
    requires Uuid.UUID_SIZE + |data| < TWO_TO_32
    ensures Encode(codec, DataMessage(connId, data)).Frame?
    ensures var frame := Encode(codec, DataMessage(connId, data)).bytes;
            && Decode(codec, frame + rest) == Got(DataMessage(Uuid.Print(UuidBytes(connId)), data), rest)
            && (Decode(codec, frame + rest) == Got(DataMessage(connId, data), rest) <==> Uuid.IsCanonical(connId))
  {
    DataDecodes(codec, connId, data, rest);
    SameDataMessage(Uuid.Print(UuidBytes(connId)), connId, data);
    Uuid.CanonicalIff(connId);
    Uuid.PrintIsCanonical(UuidBytes(connId));
  }

  lemma SameDataMessage(a: string, b: string, data: seq<byte>)
    ensures DataMessage(a, data) == DataMessage(b, data) <==> a == b
  {
    assert DataMessage(a, data).payload["conn_id"] == Text(a) && DataMessage(b, data).payload["conn_id"] == Text(b);
  }

  /** A control message comes back as it went exactly when its payload has no key "type". */
  lemma ControlRoundTrip(codec: Codec, m: Message, rest: seq<byte>)
    requires Lawful(codec)
    requires m.kind != Text(DATA) && !HasReservedKey(m.payload)
    requires Encode(codec, m).Frame?
    ensures var r := Decode(codec, Encode(codec, m).bytes + rest);
            && r == Got(FromDict(ToDict(m)), rest)
            && (r == Got(m, rest) <==> "type" !in m.payload)
  {
    var text := codec.dumps(ToDict(m)).value;
    DecodeFrame(codec, CodeOf(m.kind.text).value, text, rest);
    if "type" !in m.payload {
      assert ToDict(m) - {"type"} == m.payload;
    }
  }
}
