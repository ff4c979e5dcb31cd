/** The loop both ends run on every stream: append what was read, decode until
    there is no message, keep the rest. */
module ReadLoop {
  import opened Bytes
  import opened Framing

  /** Reference reading of a byte string: every message in it, bad pieces skipped. */
  function Drain(codec: Codec, data: seq<byte>): seq<Message>
    decreases |data|
  {
    match Decode(codec, data)
    case Got(m, rest) => [m] + Drain(codec, rest)
    case Dropped(rest) => Drain(codec, rest)
    case _ => []
  }

  datatype Turn = Turn(messages: seq<Message>, buffer: seq<byte>, raised: bool)

  /** What the inner loop does to a buffer: it stops at the first decode without a
      message, also when that decode only threw a bad piece away. */
  function InnerLoop(codec: Codec, data: seq<byte>): Turn
    decreases |data|
  {
    match Decode(codec, data)
    case Got(m, rest) =>
      var t := InnerLoop(codec, rest);
      t.(messages := [m] + t.messages)
    case Dropped(rest) => Turn([], rest, false)
    case NeedMore => Turn([], data, false)
    case Raised => Turn([], data, true)
  }

  datatype Reader = Reader(handed: seq<Message>, buffer: seq<byte>, raised: bool)

  const START := Reader([], [], false)

  /** One iteration of the outer loop; an escaped exception ends the reading. */
  function Feed(codec: Codec, r: Reader, data: seq<byte>): Reader {
    if r.raised then r.(buffer := r.buffer + data)
    else
      var t := InnerLoop(codec, r.buffer + data);
      Reader(r.handed + t.messages, t.buffer, t.raised)
  }

  function ReadAll(codec: Codec, chunks: seq<seq<byte>>): Reader {
    if chunks == [] then START
    else Feed(codec, ReadAll(codec, chunks[..|chunks| - 1]), chunks[|chunks| - 1])
  }

  // ----- refinement of the reference reading -----

  /** The reader can still account for everything: whatever follows, the messages
      handed on and those in the buffer are those of the whole stream. */
  ghost predicate Accounts(codec: Codec, received: seq<byte>, handed: seq<Message>, buffer: seq<byte>) {
    forall more: seq<byte> :: Drain(codec, received + more) == handed + Drain(codec, buffer + more)
  }

  lemma AccountsNow(codec: Codec, received: seq<byte>, handed: seq<Message>, buffer: seq<byte>)
    requires Accounts(codec, received, handed, buffer)
    ensures Drain(codec, received) == handed + Drain(codec, buffer)
  {
    assert received + [] == received && buffer + [] == buffer;
  }

  lemma AccountsMore(codec: Codec, received: seq<byte>, handed: seq<Message>, buffer: seq<byte>, data: seq<byte>)
    requires Accounts(codec, received, handed, buffer)
    ensures Accounts(codec, received + data, handed, buffer + data)
  {
    forall more: seq<byte>
      ensures Drain(codec, received + data + more) == handed + Drain(codec, buffer + data + more)
    {
      Assoc(received, data, more);
      Assoc(buffer, data, more);
    }
  }

  lemma AccountsGot(codec: Codec, received: seq<byte>, handed: seq<Message>, buffer: seq<byte>)
    requires Accounts(codec, received, handed, buffer)
    requires Decode(codec, buffer).Got?
    ensures Accounts(codec, received, handed + [Decode(codec, buffer).message], Decode(codec, buffer).rest)
  {
    var d := Decode(codec, buffer);
    forall more: seq<byte>
      ensures Drain(codec, received + more) == handed + [d.message] + Drain(codec, d.rest + more)
    {
      DecodeSuffix(codec, buffer, more);
      Assoc(handed, [d.message], Drain(codec, d.rest + more));
    }
  }

  lemma AccountsDropped(codec: Codec, received: seq<byte>, handed: seq<Message>, buffer: seq<byte>)
    requires Accounts(codec, received, handed, buffer)
    requires Decode(codec, buffer).Dropped?
    ensures Accounts(codec, received, handed, Decode(codec, buffer).rest)
  {
    var d := Decode(codec, buffer);
    forall more: seq<byte>
      ensures Drain(codec, received + more) == handed + Drain(codec, d.rest + more)
    {
      DecodeSuffix(codec, buffer, more);
    }
  }

  lemma {:induction false} AccountsInnerLoop(codec: Codec, received: seq<byte>, handed: seq<Message>, buffer: seq<byte>)
    requires Accounts(codec, received, handed, buffer)
    ensures var t := InnerLoop(codec, buffer); Accounts(codec, received, handed + t.messages, t.buffer)
    decreases |buffer|
  {
    var d := Decode(codec, buffer);
    match d
    case Got(m, rest) =>
      AccountsGot(codec, received, handed, buffer);
      AccountsInnerLoop(codec, received, handed + [m], rest);
      var t := InnerLoop(codec, rest);
      assert handed + ([m] + t.messages) == handed + [m] + t.messages;
    case Dropped(rest) =>
      AccountsDropped(codec, received, handed, buffer);
      assert handed + [] == handed;
    case _ =>
      assert handed + [] == handed;
  }

  lemma {:induction false} ReadAllAccounts(codec: Codec, chunks: seq<seq<byte>>)
    ensures var r := ReadAll(codec, chunks); Accounts(codec, Flatten(chunks), r.handed, r.buffer)
  {
    hide InnerLoop, Drain;
    if chunks != [] {
      var before, data := chunks[..|chunks| - 1], chunks[|chunks| - 1];
      var r := ReadAll(codec, before);
      ReadAllAccounts(codec, before);
      AccountsMore(codec, Flatten(before), r.handed, r.buffer, data);
      if !r.raised {
        AccountsInnerLoop(codec, Flatten(before) + data, r.handed, r.buffer + data);
      }
      FlattenSnoc(before, data);
      SplitLast(chunks);
    }
  }

  /** For any bytes in any chunks, garbage included: handed on ++ D(buffer) == D(received). */
  lemma ReadAllRefinesDrain(codec: Codec, chunks: seq<seq<byte>>)
    ensures var r := ReadAll(codec, chunks);
            r.handed + Drain(codec, r.buffer) == Drain(codec, Flatten(chunks))
  {
    var r := ReadAll(codec, chunks);
    ReadAllAccounts(codec, chunks);
    AccountsNow(codec, Flatten(chunks), r.handed, r.buffer);
  }

  // ----- when a turn leaves complete messages behind -----

  /** The pieces that decode cuts off a byte string, one after the other, to the first that
      is not complete. */
  function Pieces(codec: Codec, data: seq<byte>): (pieces: seq<Decoded>)
    ensures forall i :: 0 <= i < |pieces| ==> pieces[i].Got? || pieces[i].Dropped?
    decreases |data|
  {
    var d := Decode(codec, data);
    if d.Got? || d.Dropped? then [d] + Pieces(codec, d.rest) else []
  }

  /** A bad piece stands ahead of a message. */
  ghost predicate BadPieceAhead(codec: Codec, data: seq<byte>) {
    var pieces := Pieces(codec, data);
    exists i, j :: 0 <= i < j < |pieces| && pieces[i].Dropped? && pieces[j].Got?
  }

  ghost predicate AllDropped(pieces: seq<Decoded>) {
    forall i :: 0 <= i < |pieces| ==> pieces[i].Dropped?
  }

  lemma AllDroppedCons(d: Decoded, more: seq<Decoded>)
    ensures AllDropped([d] + more) <==> d.Dropped? && AllDropped(more)
  {
    var all := [d] + more;
    assert all[0] == d && forall i :: 0 <= i < |more| ==> all[i + 1] == more[i];
    assert forall i :: 0 < i < |all| ==> all[i] == more[i - 1];
  }

  /** The reference reading is empty exactly when no piece is a message. */
  lemma {:induction false} NoMessages(codec: Codec, data: seq<byte>)
    ensures Drain(codec, data) == [] <==> AllDropped(Pieces(codec, data))
    decreases |data|
  {
    var d := Decode(codec, data);
    if d.Got? || d.Dropped? {
      NoMessages(codec, d.rest);
      AllDroppedCons(d, Pieces(codec, d.rest));
    }
  }

  /** A bad piece at the front stands ahead of a message exactly when there is one behind it. */
  lemma BadPieceFirst(codec: Codec, data: seq<byte>)
    requires Decode(codec, data).Dropped?
    ensures BadPieceAhead(codec, data) <==> Drain(codec, Decode(codec, data).rest) != []
  {
    var d := Decode(codec, data);
    var pieces, more := Pieces(codec, data), Pieces(codec, d.rest);
    NoMessages(codec, d.rest);
    assert pieces == [d] + more;
    if Drain(codec, d.rest) != [] {
      var j :| 0 <= j < |more| && !more[j].Dropped?;
      assert pieces[0].Dropped? && pieces[j + 1].Got?;
    } else {
      assert forall j :: 0 < j < |pieces| ==> pieces[j] == more[j - 1];
    }
  }

  /** A message at the front changes nothing about what stands behind it. */
  lemma BadPieceLater(codec: Codec, data: seq<byte>)
    requires Decode(codec, data).Got?
    ensures BadPieceAhead(codec, data) <==> BadPieceAhead(codec, Decode(codec, data).rest)
  {
    hide Decode;
    var d := Decode(codec, data);
    var pieces, more := Pieces(codec, data), Pieces(codec, d.rest);
    assert pieces == [d] + more;
    if BadPieceAhead(codec, data) {
      var i, j :| 0 <= i < j < |pieces| && pieces[i].Dropped? && pieces[j].Got?;
      assert more[i - 1].Dropped? && more[j - 1].Got?;
    }
    if BadPieceAhead(codec, d.rest) {
      var i, j :| 0 <= i < j < |more| && more[i].Dropped? && more[j].Got?;
      assert pieces[i + 1].Dropped? && pieces[j + 1].Got?;
    }
  }

  /** One turn hands on every message in the buffer unless a bad piece stands ahead of one. */
  lemma {:induction false} HandsOnAllIff(codec: Codec, data: seq<byte>)
    ensures InnerLoop(codec, data).messages == Drain(codec, data) <==> !BadPieceAhead(codec, data)
    decreases |data|
  {
    match Decode(codec, data)
    case Got(m, rest) =>
      HandsOnAllIff(codec, rest);
      BadPieceLater(codec, data);
      var t, d := InnerLoop(codec, rest).messages, Drain(codec, rest);
      assert [m] + t == [m] + d ==> t == ([m] + t)[1..] && d == ([m] + d)[1..];
    case Dropped(_) => BadPieceFirst(codec, data);
    case _ => assert Pieces(codec, data) == [];
  }

  /** Bytes that read as one message, whatever follows them. */
  ghost predicate IsFrame(codec: Codec, frame: seq<byte>, m: Message) {
    |frame| >= HEADER_SIZE && forall tail: seq<byte> :: Decode(codec, frame + tail) == Got(m, tail)
  }

  lemma DataIsFrame(codec: Codec, connId: string, data: seq<byte>)
    requires Uuid.UUID_SIZE + |data| < TWO_TO_32
    ensures IsFrame(codec, Encode(codec, DataMessage(connId, data)).bytes,
                    DataMessage(Uuid.Print(UuidBytes(connId)), data))
  {
    forall tail: seq<byte>
      ensures Decode(codec, Encode(codec, DataMessage(connId, data)).bytes + tail)
           == Got(DataMessage(Uuid.Print(UuidBytes(connId)), data), tail)
    {
      DataDecodes(codec, connId, data, tail);
    }
  }

  /** What one turn makes of stray bytes, a frame and what follows: it drops one stray byte and
      nothing more, or hands the frame on first. */
  lemma StrayTurn(codec: Codec, strays: seq<byte>, frame: seq<byte>, m: Message, tail: seq<byte>)
    requires IsFrame(codec, frame, m) && MAGIC !in strays
    ensures var t := InnerLoop(codec, strays + frame + tail);
            if strays == [] then t.messages != [] && t.messages[0] == m
            else t == Turn([], strays[1..] + frame + tail, false)
  {
    var data := strays + frame + tail;
    if strays == [] {
      assert data == frame + tail;
    } else {
      assert data[0] == strays[0] && data[1..] == strays[1..] + frame + tail;
    }
  }

  /** How things stand after a first read of stray bytes and a frame, and n further reads. */
  ghost predicate Delayed(r: Reader, strays: seq<byte>, frame: seq<byte>, m: Message, n: nat, tail: seq<byte>) {
    && (n < |strays| ==> r == Reader([], strays[n + 1..] + frame + tail, false))
    && (n == |strays| ==> r.handed != [] && r.handed[0] == m)
  }

  lemma DelayedMore(codec: Codec, r: Reader, strays: seq<byte>, frame: seq<byte>, m: Message, n: nat, tail: seq<byte>, last: seq<byte>)
    requires IsFrame(codec, frame, m) && MAGIC !in strays
    requires n < |strays| && Delayed(r, strays, frame, m, n, tail)
    ensures Delayed(Feed(codec, r, last), strays, frame, m, n + 1, tail + last)
  {
    var left := strays[n + 1..];
    Assoc(left + frame, tail, last);
    StrayTurn(codec, left, frame, m, tail + last);
    var t := InnerLoop(codec, left + frame + (tail + last));
    assert [] + t.messages == t.messages;
    assert left != [] ==> left[1..] == strays[n + 2..];
  }

  /** Stray bytes ahead of a complete frame delay it by one further read each: the first read
      and every one after it drop one of them and hand nothing on, until none is left; the next
      read hands the frame on first, whatever has come behind it. */
  lemma {:induction false} StrayBytesDelay(codec: Codec, strays: seq<byte>, frame: seq<byte>, m: Message, more: seq<seq<byte>>)
    requires IsFrame(codec, frame, m) && MAGIC !in strays && |more| <= |strays|
    ensures var r := ReadAll(codec, [strays + frame] + more);
            && (|more| < |strays| ==> r == Reader([], strays[|more| + 1..] + frame + Flatten(more), false))
            && (|more| == |strays| ==> r.handed != [] && r.handed[0] == m)
    decreases |more|
  {
    var chunks := [strays + frame] + more;
    if more == [] {
      assert chunks[..0] == [] && [] + (strays + frame) == strays + frame + [];
      StrayTurn(codec, strays, frame, m, []);
      var t := InnerLoop(codec, strays + frame + []);
      assert [] + t.messages == t.messages;
    } else {
      var before, last := more[..|more| - 1], more[|more| - 1];
      StrayBytesDelay(codec, strays, frame, m, before);
      SplitLast(more);
      FlattenSnoc(before, last);
      assert chunks[..|chunks| - 1] == [strays + frame] + before;
      DelayedMore(codec, ReadAll(codec, [strays + frame] + before), strays, frame, m, |before|, Flatten(before), last);
    }
  }

  /** So it is for every DATA frame, whatever its id. */
  lemma StrayBytesDelayData(codec: Codec, strays: seq<byte>, connId: string, data: seq<byte>, more: seq<seq<byte>>)
    requires Uuid.UUID_SIZE + |data| < TWO_TO_32 && MAGIC !in strays && |more| <= |strays|
    ensures var frame := Encode(codec, DataMessage(connId, data)).bytes;
            var r := ReadAll(codec, [strays + frame] + more);
            && (|more| < |strays| ==> r == Reader([], strays[|more| + 1..] + frame + Flatten(more), false))
            && (|more| == |strays| ==> r.handed != [] && r.handed[0] == DataMessage(Uuid.Print(UuidBytes(connId)), data))
  {
    DataIsFrame(codec, connId, data);
    StrayBytesDelay(codec, strays, Encode(codec, DataMessage(connId, data)).bytes,
                    DataMessage(Uuid.Print(UuidBytes(connId)), data), more);
  }

  // ----- well-formed streams -----

  /** A message that encodes and comes back as it went. */
  ghost predicate Frames(codec: Codec, m: Message) {
    && Encode(codec, m).Frame?
    && forall rest: seq<byte> :: Decode(codec, Encode(codec, m).bytes + rest) == Got(m, rest)
  }

  function FrameOf(codec: Codec, m: Message): seq<byte> {
    match Encode(codec, m)
    case Frame(bytes) => bytes
    case Failed(_) => []
  }

  function EncodeAll(codec: Codec, ms: seq<Message>): seq<byte> {
    if ms == [] then [] else FrameOf(codec, ms[0]) + EncodeAll(codec, ms[1..])
  }

  lemma {:induction false} EncodeAllSnoc(codec: Codec, ms: seq<Message>, m: Message)
    ensures EncodeAll(codec, ms + [m]) == EncodeAll(codec, ms) + FrameOf(codec, m)
  {
    if ms == [] {
      assert [m][1..] == [];
      assert EncodeAll(codec, [m]) == FrameOf(codec, m);
    } else {
      assert (ms + [m])[1..] == ms[1..] + [m];
      EncodeAllSnoc(codec, ms[1..], m);
      Assoc(FrameOf(codec, ms[0]), EncodeAll(codec, ms[1..]), FrameOf(codec, m));
    }
  }

  lemma CutFirst<T>(first: seq<T>, others: seq<T>, got: seq<T>, coming: seq<T>)
    requires got + coming == first + others && |got| >= |first|
    ensures got == first + got[|first|..] && got[|first|..] + coming == others
  {
    assert (got + coming)[..|first|] == got[..|first|] == first;
    assert (got + coming)[|first|..] == got[|first|..] + coming;
  }

  /** Decoding a prefix of a well-formed stream either takes its first frame off or waits. */
  lemma DecodeStreamPrefix(codec: Codec, ms: seq<Message>, buffer: seq<byte>, tail: seq<byte>)
    requires forall m :: m in ms ==> Frames(codec, m)
    requires buffer + tail == EncodeAll(codec, ms)
    ensures match Decode(codec, buffer)
            case NeedMore => (ms == [] ==> buffer == []) && (ms != [] ==> |buffer| < |FrameOf(codec, ms[0])|)
            case Got(m, rest) => ms != [] && m == ms[0] && rest + tail == EncodeAll(codec, ms[1..])
            case _ => false
  {
    assert Decode(codec, []) == NeedMore;
    hide Encode, Decode;
    if ms == [] {
      assert buffer == [];
    } else {
      var frame, others := FrameOf(codec, ms[0]), EncodeAll(codec, ms[1..]);
      assert Frames(codec, ms[0]);
      assert Decode(codec, frame + others) == Got(ms[0], others);
      if |buffer| >= |frame| {
        CutFirst(frame, others, buffer, tail);
      } else {
        DecodeSuffix(codec, buffer, tail);
      }
    }
  }

  lemma OneMore<T>(s: seq<T>, k: nat)
    requires k < |s|
    ensures [s[0]] + s[1..][..k] == s[..k + 1] && s[1..][k..] == s[k + 1..]
    ensures k + 1 < |s| ==> s[1..][k] == s[k + 1]
  {
  }

  /** The first n messages have been handed on, and what is left is short of the next frame. */
  ghost predicate UpTo(codec: Codec, r: Reader, ms: seq<Message>, n: nat, tail: seq<byte>) {
    && n <= |ms|
    && r.handed == ms[..n]
    && !r.raised
    && r.buffer + tail == EncodeAll(codec, ms[n..])
    && (n == |ms| ==> r.buffer == [])
    && (n < |ms| ==> |r.buffer| < |FrameOf(codec, ms[n])|)
  }

  function AfterTurn(codec: Codec, data: seq<byte>): Reader {
    var t := InnerLoop(codec, data);
    Reader(t.messages, t.buffer, t.raised)
  }

  /** One turn on a prefix of a well-formed stream gets to the last complete frame. */
  lemma {:induction false} InnerLoopStreamPrefix(codec: Codec, ms: seq<Message>, buffer: seq<byte>, tail: seq<byte>)
    returns (n: nat)
    requires forall m :: m in ms ==> Frames(codec, m)
    requires buffer + tail == EncodeAll(codec, ms)
    ensures UpTo(codec, AfterTurn(codec, buffer), ms, n, tail)
    decreases |buffer|
  {
    DecodeStreamPrefix(codec, ms, buffer, tail);
    match Decode(codec, buffer)
    case Got(m, rest) =>
      var k := InnerLoopStreamPrefix(codec, ms[1..], rest, tail);
      n := k + 1;
      OneMore(ms, k);
    case NeedMore =>
      n := 0;
      assert ms[..0] == [] && ms[0..] == ms;
  }

  lemma TakeThen<T>(s: seq<T>, k: nat, j: nat)
    requires k + j <= |s|
    ensures s[..k] + s[k..][..j] == s[..k + j] && s[k..][j..] == s[k + j..]
    ensures k + j < |s| ==> s[k..][j] == s[k + j]
  {
  }

  /** What one turn gets to, counted from the start. */
  lemma UpToLater(codec: Codec, handed: seq<Message>, t: Reader, ms: seq<Message>, k: nat, j: nat, tail: seq<byte>)
    requires k <= |ms| && handed == ms[..k] && UpTo(codec, t, ms[k..], j, tail)
    ensures UpTo(codec, t.(handed := handed + t.handed), ms, k + j, tail)
  {
    TakeThen(ms, k, j);
  }

  lemma StartUpTo(codec: Codec, ms: seq<Message>)
    requires forall m :: m in ms ==> Frames(codec, m)
    ensures UpTo(codec, START, ms, 0, EncodeAll(codec, ms))
  {
    assert ms[..0] == [] && ms[0..] == ms && [] + EncodeAll(codec, ms) == EncodeAll(codec, ms);
    if ms != [] {
      assert Frames(codec, ms[0]);
      assert Decode(codec, FrameOf(codec, ms[0]) + []) == Got(ms[0], []);
      assert Decode(codec, []) == NeedMore;
      assert FrameOf(codec, ms[0]) != [];
    }
  }

  lemma FeedUpTo(codec: Codec, r: Reader, ms: seq<Message>, k: nat, data: seq<byte>, tail: seq<byte>) returns (n: nat)
    requires forall m :: m in ms ==> Frames(codec, m)
    requires UpTo(codec, r, ms, k, data + tail)
    ensures UpTo(codec, Feed(codec, r, data), ms, n, tail)
  {
    hide EncodeAll, FrameOf;
    Assoc(r.buffer, data, tail);
    var j := InnerLoopStreamPrefix(codec, ms[k..], r.buffer + data, tail);
    n := k + j;
    UpToLater(codec, r.handed, AfterTurn(codec, r.buffer + data), ms, k, j, tail);
  }

  /** No stall: on any prefix of concatenated frames, in any chunks, every complete frame
      has been handed on after each read and the buffer is a proper prefix of the next. */
  lemma {:induction false} NoStall(codec: Codec, ms: seq<Message>, chunks: seq<seq<byte>>, tail: seq<byte>)
    returns (n: nat)
    requires forall m :: m in ms ==> Frames(codec, m)
    requires Flatten(chunks) + tail == EncodeAll(codec, ms)
    ensures n <= |ms|
    ensures var r := ReadAll(codec, chunks);
            && r.handed == ms[..n]
            && !r.raised
            && r.buffer + tail == EncodeAll(codec, ms[n..])
            && (n == |ms| ==> r.buffer == [])
            && (n < |ms| ==> |r.buffer| < |FrameOf(codec, ms[n])|)
    decreases |chunks|
  {
    if chunks == [] {
      n := 0;
      StartUpTo(codec, ms);
      assert [] + tail == tail;
      assert UpTo(codec, START, ms, 0, tail);
    } else {
      var before, data := chunks[..|chunks| - 1], chunks[|chunks| - 1];
      FlattenSnoc(before, data);
      SplitLast(chunks);
      Assoc(Flatten(before), data, tail);
      var k := NoStall(codec, ms, before, data + tail);
      n := FeedUpTo(codec, ReadAll(codec, before), ms, k, data, tail);
    }
  }

  // ----- a frame that raises -----

  /** A whole control frame whose text is JSON but no object, or an object with a type and with a
      name that the constructor has taken. */
  ghost predicate RaisingFrame(codec: Codec, f: seq<byte>) {
    exists code: byte, payload ::
      && FrameHolds(f, code, payload)
      && 0x01 <= code <= 0x17 && code != 0x0A
      && (match codec.loads(payload)
          case NotJson => false
          case NotObject => true
          case Object(d) => "type" in d && ("self" in d || "msg_type" in d))
  }

  lemma FrameRaises(codec: Codec, f: seq<byte>, rest: seq<byte>)
    requires RaisingFrame(codec, f)
    ensures Decode(codec, f + rest) == Raised
  {
    hide Decode, FrameHolds;
    var code: byte, payload :| FrameHolds(f, code, payload) && 0x01 <= code <= 0x17 && code != 0x0A
      && (match codec.loads(payload)
          case NotJson => false
          case NotObject => true
          case Object(d) => "type" in d && ("self" in d || "msg_type" in d));
    FrameOutcome(codec, f, code, payload, rest);
  }

  lemma {:induction false} LoopRaises(codec: Codec, ms: seq<Message>, f: seq<byte>, rest: seq<byte>)
    requires RaisingFrame(codec, f) && forall m :: m in ms ==> Frames(codec, m)
    ensures var t := InnerLoop(codec, EncodeAll(codec, ms) + f + rest); t.messages == ms && t.raised
  {
    hide FrameHolds, RaisingFrame, Decode, Encode;
    var data := EncodeAll(codec, ms) + f + rest;
    if ms == [] {
      FrameRaises(codec, f, rest);
      assert data == f + rest;
    } else {
      var first, more := FrameOf(codec, ms[0]), EncodeAll(codec, ms[1..]) + f + rest;
      LoopRaises(codec, ms[1..], f, rest);
      assert data == first + more;
      assert Frames(codec, ms[0]);
      assert Decode(codec, first + more) == Got(ms[0], more);
    }
  }

  /** Such a frame ends the reading for good: the messages ahead of it are handed on, and nothing
      of what follows it, or comes later, ever is. */
  lemma {:induction false} RaiseEndsReading(codec: Codec, chunks: seq<seq<byte>>, data: seq<byte>, ms: seq<Message>,
                                            f: seq<byte>, rest: seq<byte>, more: seq<seq<byte>>)
    requires RaisingFrame(codec, f) && forall m :: m in ms ==> Frames(codec, m)
    requires !ReadAll(codec, chunks).raised && ReadAll(codec, chunks).buffer + data == EncodeAll(codec, ms) + f + rest
    ensures var r := ReadAll(codec, chunks + [data] + more);
            r.raised && r.handed == ReadAll(codec, chunks).handed + ms
    decreases |more|
  {
    var start := chunks + [data];
    hide EncodeAll, RaisingFrame, InnerLoop;
    if more == [] {
      LoopRaises(codec, ms, f, rest);
      assert start + more == start && start[..|chunks|] == chunks;
    } else {
      var before, last := more[..|more| - 1], more[|more| - 1];
      RaiseEndsReading(codec, chunks, data, ms, f, rest, before);
      assert (start + more)[..|start + more| - 1] == start + before;
    }
  }

  // ----- the loop itself -----

  /** One stream end: `buffer` is the local variable of the read loop, `handed`
      the messages passed to the handler, in order. */
  class FrameReader {
    const codec: Codec
    var buffer: seq<byte>
    var handed: seq<Message>
    var raised: bool

    ghost function View(): Reader
      reads this
    {
      Reader(handed, buffer, raised)
    }

    constructor (codec: Codec)
      ensures this.codec == codec && View() == START
    {
      this.codec := codec;
      buffer, handed, raised := [], [], false;
    }

    /** The body of the outer loop for one non-empty read. */
    method OnRead(data: seq<byte>)
      requires !raised
      modifies this
      ensures View() == Feed(codec, old(View()), data)
    {
      buffer := buffer + data;
      ghost var all := buffer;
      while true
        invariant !raised
        invariant Feed(codec, old(View()), data).raised == InnerLoop(codec, buffer).raised
        invariant InnerLoop(codec, all).buffer == InnerLoop(codec, buffer).buffer
        invariant old(handed) + InnerLoop(codec, all).messages == handed + InnerLoop(codec, buffer).messages
        decreases |buffer|
      {
        match Decode(codec, buffer) {
          case Got(message, rest) =>
            ghost var t := InnerLoop(codec, rest);
            assert handed + ([message] + t.messages) == handed + [message] + t.messages;
            buffer := rest;
            handed := handed + [message];
          case Dropped(rest) =>
            buffer := rest;
            break;
          case NeedMore =>
            break;
          case Raised =>
            raised := true;
            break;
        }
      }
    }
  }
}
