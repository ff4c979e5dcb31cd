/** A concrete control-payload codec: flat JSON objects of text fields, laid out and escaped
    as `json.dumps` does it. It shows that the laws asked of a codec can be met. */
module JsonText {
  import opened Bytes
  import opened Framing
  import opened Tunnel
  import opened Wire
  import Uuid

  // ----- characters -----

  /** Printable ASCII that JSON text carries without an escape. */
  predicate PlainChar(c: char) {
    ' ' <= c <= '~' && c != '"' && c != '\\'
  }

  /** Letters of the two-character escapes. */
  function ShortEscape(c: char): Option<char> {
    match c
    case '"' => Some('"')
    case '\\' => Some('\\')
    case '\n' => Some('n')
    case '\r' => Some('r')
    case '\t' => Some('t')
    case '\U{08}' => Some('b')
    case '\U{0C}' => Some('f')
    case _ => None
  }

  function ReadShort(c: char): Option<char> {
    match c
    case '"' => Some('"')
    case '\\' => Some('\\')
    case '/' => Some('/')
    case 'n' => Some('\n')
    case 'r' => Some('\r')
    case 't' => Some('\t')
    case 'b' => Some('\U{08}')
    case 'f' => Some('\U{0C}')
    case _ => None
  }

  function Unit(n: int): string
    requires 0 <= n < 0x1_0000
  {
    "\\u" + HexText([n / 0x100, n % 0x100])
  }

  /** One character as written with `ensure_ascii`: as it is, as a short escape, or as one or
      two UTF-16 units. */
  function Escape(c: char): string {
    if PlainChar(c) then [c]
    else if ShortEscape(c).Some? then ['\\', ShortEscape(c).value]
    else if c as int < 0x1_0000 then Unit(c as int)
    else
      var v := c as int - 0x1_0000;
      Unit(0xD800 + v / 0x400) + Unit(0xDC00 + v % 0x400)
  }

  /** The unit written at the front. */
  function ReadUnit(s: string): (n: Option<int>)
    ensures n.Some? ==> |s| >= 6 && 0 <= n.value < 0x1_0000
  {
    if |s| < 6 || s[0] != '\\' || s[1] != 'u' then None
    else
      match UnHex(s[2..6])
      case None => None
      case Some(b) => Some(b[0] as int * 0x100 + b[1])
  }

  /** One character at the front, and how much text it takes. A lone surrogate, which no
      text here has, is refused; so are raw control and non-ASCII characters. */
  function ReadChar(s: string): (r: Option<(char, nat)>)
    ensures r.Some? ==> 0 < r.value.1 <= |s| && s[0] != '"'
  {
    if s == "" then None
    else if s[0] != '\\' then
      if s[0] != '"' && ' ' <= s[0] && s[0] as int < 128 then Some((s[0], 1)) else None
    else if |s| >= 2 && ReadShort(s[1]).Some? then Some((ReadShort(s[1]).value, 2))
    else
      match ReadUnit(s)
      case None => None
      case Some(n) =>
        if n < 0xD800 || 0xE000 <= n then Some((n as char, 6))
        else
          match ReadUnit(s[6..])
          case None => None
          case Some(m) =>
            if n < 0xDC00 <= m < 0xE000 then Some((((n - 0xD800) * 0x400 + (m - 0xDC00) + 0x1_0000) as char, 12))
            else None
  }

  lemma ReadUnitOf(n: int, rest: string)
    requires 0 <= n < 0x1_0000
    ensures |Unit(n)| == 6 && ReadUnit(Unit(n) + rest) == Some(n)
  {
    var b: seq<byte> := [n / 0x100, n % 0x100];
    UnHexOfHexText(b);
    assert (Unit(n) + rest)[2..6] == HexText(b);
  }

  lemma ReadPlain(c: char, rest: string)
    requires PlainChar(c)
    ensures ReadChar([c] + rest) == Some((c, 1))
  {
    assert ([c] + rest)[0] == c;
  }

  lemma ReadShortEscape(c: char, rest: string)
    requires !PlainChar(c) && ShortEscape(c).Some?
    ensures ReadChar(['\\', ShortEscape(c).value] + rest) == Some((c, 2))
  {
    var s := ['\\', ShortEscape(c).value] + rest;
    assert s[0] == '\\' && s[1] == ShortEscape(c).value;
  }

  lemma ReadSingle(c: char, rest: string)
    requires c as int < 0x1_0000
    ensures ReadChar(Unit(c as int) + rest) == Some((c, 6))
  {
    var s := Unit(c as int) + rest;
    ReadUnitOf(c as int, rest);
    assert s[0] == '\\' && s[1] == 'u';
  }

  lemma ReadPair(high: int, low: int, rest: string)
    requires 0xD800 <= high < 0xDC00 <= low < 0xE000
    ensures ReadChar(Unit(high) + Unit(low) + rest)
         == Some((((high - 0xD800) * 0x400 + (low - 0xDC00) + 0x1_0000) as char, 12))
  {
    ReadUnitOf(high, Unit(low) + rest);
    ReadUnitOf(low, rest);
    Assoc(Unit(high), Unit(low), rest);
    var s := Unit(high) + (Unit(low) + rest);
    assert s[0] == '\\' && s[1] == 'u';
    hide Unit, ReadUnit;
    assert s[6..] == Unit(low) + rest;
  }

  lemma ReadCharOfEscape(c: char, rest: string)
    ensures ReadChar(Escape(c) + rest) == Some((c, |Escape(c)|))
  {
    hide ReadChar;
    if PlainChar(c) {
      ReadPlain(c, rest);
    } else if ShortEscape(c).Some? {
      ReadShortEscape(c, rest);
    } else if c as int < 0x1_0000 {
      ReadSingle(c, rest);
    } else {
      var v := c as int - 0x1_0000;
      ReadPair(0xD800 + v / 0x400, 0xDC00 + v % 0x400, rest);
    }
  }

  lemma EscapeShape(c: char)
    ensures 1 <= |Escape(c)| <= 12
    ensures Escape(c)[0] != '"'
    ensures forall i :: 0 <= i < |Escape(c)| ==> Escape(c)[i] < 128 as char
  {
    if !PlainChar(c) && ShortEscape(c).None? {
      if c as int < 0x1_0000 {
        UnitShape(c as int);
      } else {
        var v := c as int - 0x1_0000;
        UnitShape(0xD800 + v / 0x400);
        UnitShape(0xDC00 + v % 0x400);
      }
    }
  }

  lemma UnitShape(n: int)
    requires 0 <= n < 0x1_0000
    ensures |Unit(n)| == 6 && Unit(n)[0] == '\\'
    ensures forall i :: 0 <= i < 6 ==> Unit(n)[i] < 128 as char
  {
    HexTextIsLowerHex([n / 0x100, n % 0x100]);
  }

  // ----- texts -----

  function EscapeAll(s: string): string {
    if s == "" then "" else Escape(s[0]) + EscapeAll(s[1..])
  }

  function Quote(s: string): string {
    "\"" + EscapeAll(s) + "\""
  }

  /** Characters up to the closing quote, and what follows it. */
  function ReadChars(s: string): (r: Option<(string, string)>)
    ensures r.Some? ==> |r.value.1| < |s|
    decreases |s|
  {
    if s != "" && s[0] == '"' then Some(("", s[1..]))
    else
      match ReadChar(s)
      case None => None
      case Some((c, n)) =>
        match ReadChars(s[n..])
        case None => None
        case Some((text, rest)) => Some(([c] + text, rest))
  }

  /** A quoted text at the front, and what follows it. */
  function ReadText(s: string): (r: Option<(string, string)>)
    ensures r.Some? ==> |r.value.1| < |s|
  {
    if s == "" || s[0] != '"' then None else ReadChars(s[1..])
  }

  lemma {:induction false} ReadCharsOfEscapes(s: string, rest: string)
    ensures ReadChars(EscapeAll(s) + "\"" + rest) == Some((s, rest))
  {
    var t := EscapeAll(s) + "\"" + rest;
    if s == "" {
      assert t[0] == '"' && t[1..] == rest;
    } else {
      var e, more := Escape(s[0]), EscapeAll(s[1..]) + "\"" + rest;
      EscapeShape(s[0]);
      ReadCharOfEscape(s[0], more);
      assert t == e + more;
      assert t[0] == e[0] && t[|e|..] == more;
      ReadCharsOfEscapes(s[1..], rest);
      assert s == [s[0]] + s[1..];
    }
  }

  lemma ReadTextOfQuote(s: string, rest: string)
    ensures ReadText(Quote(s) + rest) == Some((s, rest))
  {
    assert (Quote(s) + rest)[1..] == EscapeAll(s) + "\"" + rest;
    ReadCharsOfEscapes(s, rest);
  }

  predicate IsAscii(s: string) {
    forall i :: 0 <= i < |s| ==> s[i] < 128 as char
  }

  lemma {:induction false} EscapesShape(s: string)
    ensures IsAscii(EscapeAll(s)) && |EscapeAll(s)| <= 12 * |s|
  {
    if s != "" {
      EscapeShape(s[0]);
      EscapesShape(s[1..]);
    }
  }

  // ----- objects -----

  type Field = (string, string)

  function RenderFields(fields: seq<Field>): string
    requires fields != []
  {
    var more := if |fields| == 1 then "}" else ", " + RenderFields(fields[1..]);
    Quote(fields[0].0) + (": " + (Quote(fields[0].1) + more))
  }

  /** Texts under known keys. `order` stands for the insertion order of the dictionary. */
  predicate TextPayload(d: Payload, order: seq<string>) {
    forall k :: k in d ==> k in order && d[k].Text?
  }

  function FieldsOf(d: Payload, order: seq<string>): (fields: seq<Field>)
    requires forall k :: k in d ==> d[k].Text?
  {
    if order == [] then []
    else (if order[0] in d then [(order[0], d[order[0]].text)] else []) + FieldsOf(d, order[1..])
  }

  /** Fields up to the closing brace; of two with one key the last counts. */
  function ReadFields(s: string): Option<Payload>
    decreases |s|
  {
    match ReadText(s)
    case None => None
    case Some((k, s1)) =>
      if !(": " <= s1) then None
      else
        match ReadText(s1[2..])
        case None => None
        case Some((v, s2)) =>
          if s2 == "}" then Some(map[k := Text(v)])
          else if !(", " <= s2) then None
          else
            var more := ReadFields(s2[2..]);
            if more.None? then None else Some(map[k := Text(v)] + more.value)
  }

  function Ascii(s: string): seq<byte>
    requires IsAscii(s)
  {
    seq(|s|, i requires 0 <= i < |s| => s[i] as int)
  }

  function Chars(b: seq<byte>): string {
    seq(|b|, i requires 0 <= i < |b| => b[i] as char)
  }

  function Dumps(d: Payload, order: seq<string>): Option<seq<byte>> {
    if !TextPayload(d, order) then None
    else
      var fields := FieldsOf(d, order);
      if fields == [] then Some(Ascii("{}"))
      else
        RenderAscii(fields);
        Some(Ascii("{" + RenderFields(fields)))
  }

  function Loads(b: seq<byte>): Loaded {
    var s := Chars(b);
    if s == "{}" then Object(map[])
    else if !("{" <= s) then NotJson
    else
      var d := ReadFields(s[1..]);
      if d.None? then NotJson else Object(d.value)
  }

  function Json(order: seq<string>): Codec {
    Codec(d => Dumps(d, order), b => Loads(b))
  }

  lemma {:induction false} RenderAscii(fields: seq<Field>)
    requires fields != []
    ensures IsAscii(RenderFields(fields))
  {
    hide Quote;
    var key, value := Quote(fields[0].0), Quote(fields[0].1);
    var more := if |fields| == 1 then "}" else ", " + RenderFields(fields[1..]);
    QuoteShape(fields[0].0);
    QuoteShape(fields[0].1);
    if |fields| > 1 {
      RenderAscii(fields[1..]);
      AsciiConcat(", ", RenderFields(fields[1..]));
    }
    AsciiConcat(value, more);
    AsciiConcat(": ", value + more);
    AsciiConcat(key, ": " + (value + more));
  }

  lemma AsciiConcat(s: string, t: string)
    requires IsAscii(s) && IsAscii(t)
    ensures IsAscii(s + t)
  {
  }

  lemma QuoteShape(s: string)
    ensures IsAscii(Quote(s)) && |Quote(s)| <= 12 * |s| + 2
  {
    EscapesShape(s);
  }

  // ----- what is read is what was written -----

  function ToMap(fields: seq<Field>): Payload {
    if fields == [] then map[] else map[fields[0].0 := Text(fields[0].1)] + ToMap(fields[1..])
  }

  /** One field at the front. */
  lemma ReadFieldsStep(k: string, v: string, rest: string)
    ensures rest == "}" ==> ReadFields(Quote(k) + (": " + (Quote(v) + rest))) == Some(map[k := Text(v)])
    ensures rest != "}" && ", " <= rest && ReadFields(rest[2..]).Some? ==>
              ReadFields(Quote(k) + (": " + (Quote(v) + rest))) == Some(map[k := Text(v)] + ReadFields(rest[2..]).value)
  {
    hide Quote, ReadText;
    var s1 := ": " + (Quote(v) + rest);
    ReadTextOfQuote(k, s1);
    assert s1[2..] == Quote(v) + rest && s1[..2] == ": ";
    ReadTextOfQuote(v, rest);
  }

  lemma {:induction false} ReadFieldsOfRender(fields: seq<Field>)
    requires fields != []
    ensures ReadFields(RenderFields(fields)) == Some(ToMap(fields))
  {
    hide Quote, ReadFields;
    var k, v := fields[0].0, fields[0].1;
    var rest := if |fields| == 1 then "}" else ", " + RenderFields(fields[1..]);
    ReadFieldsStep(k, v, rest);
    if |fields| == 1 {
      assert ToMap(fields[1..]) == map[];
      assert map[k := Text(v)] + map[] == map[k := Text(v)];
    } else {
      var more := RenderFields(fields[1..]);
      assert rest == ", " + more && rest[..2] == ", " && rest[2..] == more;
      ReadFieldsOfRender(fields[1..]);
    }
  }

  lemma {:induction false} ToMapOfFields(d: Payload, order: seq<string>)
    requires forall k :: k in d ==> d[k].Text?
    ensures var m := ToMap(FieldsOf(d, order));
            forall k :: (k in m <==> k in d && k in order) && (k in m ==> m[k] == d[k])
  {
    if order != [] {
      ToMapOfFields(d, order[1..]);
      var k0, tail := order[0], FieldsOf(d, order[1..]);
      if k0 in d {
        var fields := [(k0, d[k0].text)] + tail;
        assert FieldsOf(d, order) == fields && fields[1..] == tail;
        assert ToMap(fields) == map[k0 := d[k0]] + ToMap(tail);
      } else {
        assert FieldsOf(d, order) == tail;
      }
    }
  }

  lemma LoadsText(fields: seq<Field>)
    requires fields != [] && IsAscii("{" + RenderFields(fields))
    ensures Loads(Ascii("{" + RenderFields(fields))) == Object(ToMap(fields))
  {
    ReadFieldsOfRender(fields);
    var text := "{" + RenderFields(fields);
    assert Chars(Ascii(text)) == text;
    assert text[1..] == RenderFields(fields) && text[..1] == "{";
    assert text[1] == '"';
  }

  /** Every payload of texts is written, and read back as it was, whatever the characters, the
      keys and their order. */
  lemma DumpsLoads(d: Payload, order: seq<string>)
    requires TextPayload(d, order)
    ensures Dumps(d, order).Some? && Loads(Dumps(d, order).value) == Object(d)
  {
    var fields := FieldsOf(d, order);
    ToMapOfFields(d, order);
    assert ToMap(fields) == d;
    if fields == [] {
      assert Chars(Ascii("{}")) == "{}";
    } else {
      RenderAscii(fields);
      LoadsText(fields);
    }
  }

  /** So the codec meets what is asked of one. */
  lemma JsonLawful(order: seq<string>)
    ensures Lawful(Json(order))
  {
    forall d: Payload | Dumps(d, order).Some?
      ensures Loads(Dumps(d, order).value) == Object(d)
    {
      DumpsLoads(d, order);
    }
  }

  // ----- the tunnel's own messages -----

  /** Keys in the order in which the messages of the tunnel are built. */
  const ORDER: seq<string> := ["type", "proxy_name", "conn_id"]
  const NAME_LIMIT := 0x100_0000

  lemma {:induction false} RenderLength(fields: seq<Field>, n: nat)
    requires fields != [] && forall i :: 0 <= i < |fields| ==> |fields[i].0| <= n && |fields[i].1| <= n
    ensures |RenderFields(fields)| <= |fields| * (24 * n + 8)
  {
    hide Quote;
    QuoteShape(fields[0].0);
    QuoteShape(fields[0].1);
    if |fields| > 1 {
      RenderLength(fields[1..], n);
      assert (|fields| - 1) * (24 * n + 8) + (24 * n + 8) == |fields| * (24 * n + 8);
    }
  }

  lemma {:induction false} FieldsShort(d: Payload, order: seq<string>, n: nat)
    requires forall k :: k in d ==> d[k].Text? && |d[k].text| <= n
    requires forall i :: 0 <= i < |order| ==> |order[i]| <= n
    ensures |FieldsOf(d, order)| <= |order|
    ensures var fields := FieldsOf(d, order);
            forall i :: 0 <= i < |fields| ==> |fields[i].0| <= n && |fields[i].1| <= n
  {
    if order != [] {
      FieldsShort(d, order[1..], n);
    }
  }

  lemma DumpsShort(d: Payload)
    requires TextPayload(d, ORDER) && forall k :: k in d ==> |d[k].text| <= NAME_LIMIT
    ensures Dumps(d, ORDER).Some? && |Dumps(d, ORDER).value| < TWO_TO_32
  {
    var fields := FieldsOf(d, ORDER);
    FieldsShort(d, ORDER, NAME_LIMIT);
    if fields != [] {
      RenderLength(fields, NAME_LIMIT);
      assert |fields| * (24 * NAME_LIMIT + 8) <= 3 * (24 * NAME_LIMIT + 8);
    }
  }

  /** A control message about one connection, of texts that are not overlong, can be framed. */
  lemma TextEncodes(code: byte, kind: string, payload: Payload)
    requires TypeOf(code) == Some(kind) && kind != DATA && |kind| <= NAME_LIMIT
    requires TextPayload(payload, ORDER) && forall k :: k in payload ==> |payload[k].text| <= NAME_LIMIT
    requires "type" !in payload
    ensures Encode(Json(ORDER), Message(Text(kind), payload)).Frame?
  {
    var m := Message(Text(kind), payload);
    CodeOfTypeOf(code, kind);
    assert ORDER[0] == "type";
    assert Json(ORDER).dumps(ToDict(m)) == Dumps(ToDict(m), ORDER);
    DumpsShort(ToDict(m));
  }

  lemma PacketSendable(p: Packet)
    requires !p.Data? && Uuid.IsCanonical(p.id)
    requires p.NewConn? ==> |p.proxy| <= NAME_LIMIT
    ensures Sendable(Json(ORDER), p)
  {
    assert ORDER[1] == "proxy_name" && ORDER[2] == "conn_id";
    match p
    case NewConn(id, proxy) =>
      TextEncodes(0x04, "new_conn", map["proxy_name" := Text(proxy), "conn_id" := Text(id)]);
    case InitConn(id) =>
      TextEncodes(0x05, "init_conn", map["conn_id" := Text(id)]);
    case Close(id) =>
      TextEncodes(0x09, "close", map["conn_id" := Text(id)]);
  }

  /** New connections get uuid4 ids, and names and heads fit in one frame. */
  ghost predicate EventsFit(events: seq<ByteEvent>) {
    forall e :: e in events && e.BDo? && e.action.AUserConnects? ==>
      && Uuid.IsCanonical(e.action.id)
      && |e.action.proxy| <= NAME_LIMIT
      && Uuid.UUID_SIZE + |e.action.head| < TWO_TO_32
  }

  lemma FittingEventsOk(events: seq<ByteEvent>)
    requires EventsFit(events)
    ensures EventsOk(Json(ORDER), events)
  {
    forall e | e in events && e.BDo?
      ensures ActionOk(Json(ORDER), e.action)
    {
      if e.action.AUserConnects? {
        PacketSendable(NewConn(e.action.id, e.action.proxy));
        PacketSendable(InitConn(e.action.id));
        PacketSendable(Close(e.action.id));
      }
    }
  }

  /** End-to-end transparency with nothing assumed of the codec. */
  lemma EndToEndOnJson(bulk: bool, proxies: set<string>, events: seq<ByteEvent>, id: Id)
    requires EventsFit(events)
    ensures TransparentOnBytes(Json(ORDER), BRun(Json(ORDER), bulk, proxies, events), bulk, id)
  {
    JsonLawful(ORDER);
    FittingEventsOk(events);
    EndToEndOnBytes(Json(ORDER), bulk, proxies, events, id);
  }
}
