/** Rewriting of FTP control replies: the server's passive-mode ports are replaced by
    public ones, line by line, on a stream that arrives in arbitrary pieces. */
module FtpReply {
  import opened Bytes
  import opened Patterns

  const CR: byte := 13
  const LF: byte := 10

  /** `line.upper()`, as text. */
  function UpperText(s: seq<byte>): (u: string)
    ensures |u| == |s|
  {
    if s == [] then ""
    else [if 'a' as int <= s[0] <= 'z' as int then (s[0] - 32) as char else s[0] as char] + UpperText(s[1..])
  }

  /** `needle in s`. */
  predicate Contains(s: string, needle: string) {
    needle <= s || (s != "" && Contains(s[1..], needle))
  }

  const PASV_MARK := "227 ENTERING PASSIVE MODE"
  const EPSV_MARK := "229 ENTERING " + "EXTENDED PASSIVE MODE"

  predicate IsPasv(line: seq<byte>) {
    Contains(UpperText(line), PASV_MARK)
  }

  predicate IsEpsv(line: seq<byte>) {
    Contains(UpperText(line), EPSV_MARK)
  }

  /** n numbers between commas, closed by a parenthesis, as pattern and as text. */
  function NumbersPattern(n: nat): Pattern {
    if n == 0 then [] else [Num, Lit(if n == 1 then CLOSE else COMMA)] + NumbersPattern(n - 1)
  }

  function NumbersText(ds: seq<seq<byte>>): seq<byte> {
    if ds == [] then [] else ds[0] + [if |ds| == 1 then CLOSE else COMMA] + NumbersText(ds[1..])
  }

  /** n bars, a number, a bar and the closing parenthesis. */
  function BarsPattern(n: nat): Pattern {
    if n == 0 then [Num, Lit(BAR)] + [Lit(CLOSE)] else [Lit(BAR)] + BarsPattern(n - 1)
  }

  function BarsNumber(n: nat, d: seq<byte>): seq<byte> {
    if n == 0 then d + [BAR] + [CLOSE] else [BAR] + BarsNumber(n - 1, d)
  }

  const TUPLE_SIZE: nat := 6
  const BAR_COUNT: nat := 3

  /** (h1,h2,h3,h4,p1,p2) of section 4.1.2 of RFC 959. */
  const TUPLE: Pattern := [Lit(OPEN)] + NumbersPattern(TUPLE_SIZE)

  /** (|||port|) of section 3 of RFC 2428, and the two-bar form that is tried first. */
  const BARS: Pattern := [Lit(OPEN)] + BarsPattern(BAR_COUNT)
  const TWO_BARS: Pattern := [Lit(OPEN)] + BarsPattern(BAR_COUNT - 1)

  /** The public address, octet by octet, and the outcome of the k-th listener request. */
  datatype Env = Env(octets: seq<seq<byte>>, ports: nat -> Option<nat>)

  /** `ports(k)`, with 0 and None alike. */
  function PortFor(env: Env, k: nat): (p: Option<nat>)
    ensures p.Some? ==> p.value > 0
  {
    if env.ports(k).Some? && env.ports(k).value > 0 then env.ports(k) else None
  }

  /** The octets in use: a public address without four parts is replaced by the loopback. */
  function Octets(env: Env): (o: seq<seq<byte>>)
    ensures |o| == 4
  {
    if |env.octets| == 4 then env.octets else [Decimal(127), Decimal(0), Decimal(0), Decimal(1)]
  }

  function TupleText(o: seq<seq<byte>>, port: nat): seq<byte> {
    [OPEN] + NumbersText(o + [Decimal(port / 256), Decimal(port % 256)])
  }

  function BarsText(port: nat): seq<byte> {
    [OPEN] + BarsNumber(BAR_COUNT, Decimal(port))
  }

  /** The line with its listener request, if it makes one; k counts the requests. */
  function RewritePasv(env: Env, line: seq<byte>, k: nat): (seq<byte>, nat) {
    if Search(TUPLE, line).None? then (line, k)
    else
      match PortFor(env, k)
      case None => (line, k + 1)
      case Some(port) => (Substitute(TUPLE, line, TupleText(Octets(env), port)), k + 1)
  }

  function BarsRewritten(line: seq<byte>, port: nat): seq<byte> {
    var once := Substitute(TWO_BARS, line, BarsText(port));
    if once == line then Substitute(BARS, line, BarsText(port)) else once
  }

  function RewriteEpsv(env: Env, line: seq<byte>, k: nat): (seq<byte>, nat) {
    if Search(BARS, line).None? then (line, k)
    else
      match PortFor(env, k)
      case None => (line, k + 1)
      case Some(port) => (BarsRewritten(line, port), k + 1)
  }

  function RewriteLine(env: Env, line: seq<byte>, k: nat): (seq<byte>, nat) {
    if IsPasv(line) then RewritePasv(env, line, k)
    else if IsEpsv(line) then RewriteEpsv(env, line, k)
    else (line, k)
  }

  // ----- lines -----

  /** `buf.find(b"\r\n")`. */
  function FindCrlf(buf: seq<byte>): (i: Option<nat>)
    ensures i.Some? ==> i.value + 2 <= |buf| && buf[i.value] == CR && buf[i.value + 1] == LF
  {
    if |buf| < 2 then None
    else if buf[0] == CR && buf[1] == LF then Some(0)
    else
      match FindCrlf(buf[1..])
      case None => None
      case Some(i) => Some(i + 1)
  }

  datatype Pumped = Pumped(out: seq<byte>, rest: seq<byte>, k: nat)

  /** Every complete line of the buffer, rewritten in order; the rest stays. */
  function Pump(env: Env, buf: seq<byte>, k: nat): Pumped
    decreases |buf|
  {
    match FindCrlf(buf)
    case None => Pumped([], buf, k)
    case Some(i) =>
      var (line, k') := RewriteLine(env, buf[..i + 2], k);
      var p := Pump(env, buf[i + 2..], k');
      p.(out := line + p.out)
  }

  lemma {:induction false} FindCrlfStays(buf: seq<byte>, more: seq<byte>)
    requires FindCrlf(buf).Some?
    ensures FindCrlf(buf + more) == FindCrlf(buf)
  {
    if !(buf[0] == CR && buf[1] == LF) {
      FindCrlfStays(buf[1..], more);
      assert (buf + more)[1..] == buf[1..] + more;
    }
  }

  lemma PumpNothing(env: Env, buf: seq<byte>, k: nat)
    requires FindCrlf(buf).None?
    ensures Pump(env, buf, k) == Pumped([], buf, k)
  {
  }

  lemma PumpLine(env: Env, buf: seq<byte>, k: nat)
    requires FindCrlf(buf).Some?
    ensures var n := FindCrlf(buf).value + 2;
            var (line, k') := RewriteLine(env, buf[..n], k);
            var p := Pump(env, buf[n..], k');
            Pump(env, buf, k) == p.(out := line + p.out)
  {
    hide RewriteLine;
  }

  lemma CutWithin<T>(s: seq<T>, more: seq<T>, n: nat)
    requires n <= |s|
    ensures (s + more)[..n] == s[..n] && (s + more)[n..] == s[n..] + more
  {
  }

  /** Rewriting more bytes later gives what rewriting all of them at once gives. */
  lemma {:induction false} PumpAppend(env: Env, buf: seq<byte>, more: seq<byte>, k: nat)
    ensures var p := Pump(env, buf, k);
            var q := Pump(env, p.rest + more, p.k);
            Pump(env, buf + more, k) == q.(out := p.out + q.out)
    decreases |buf|
  {
    hide Pump, RewriteLine, FindCrlf;
    match FindCrlf(buf)
    case None =>
      PumpNothing(env, buf, k);
      var q := Pump(env, buf + more, k);
      assert [] + q.out == q.out;
    case Some(i) =>
      FindCrlfStays(buf, more);
      CutWithin(buf, more, i + 2);
      PumpLine(env, buf, k);
      PumpLine(env, buf + more, k);
      var (line, k') := RewriteLine(env, buf[..i + 2], k);
      PumpAppend(env, buf[i + 2..], more, k');
      var p := Pump(env, buf[i + 2..], k');
      Assoc(line, p.out, Pump(env, p.rest + more, p.k).out);
  }

  // ----- chunks -----

  /** `ftp_resp_buffer`, everything returned so far, and the listener requests made. */
  datatype Reply = Reply(buffer: seq<byte>, out: seq<byte>, k: nat)

  const FRESH := Reply([], [], 0)

  function Handle(env: Env, r: Reply, data: seq<byte>): Reply {
    var p := Pump(env, r.buffer + data, r.k);
    Reply(p.rest, r.out + p.out, p.k)
  }

  function HandleAll(env: Env, chunks: seq<seq<byte>>): Reply {
    if chunks == [] then FRESH
    else Handle(env, HandleAll(env, chunks[..|chunks| - 1]), chunks[|chunks| - 1])
  }

  /** However the stream is cut, output, residue and requests are those of the uncut stream. */
  lemma {:induction false} ChunkingIsIrrelevant(env: Env, chunks: seq<seq<byte>>)
    ensures var p := Pump(env, Flatten(chunks), 0);
            HandleAll(env, chunks) == Reply(p.rest, p.out, p.k)
  {
    if chunks != [] {
      var before, data := chunks[..|chunks| - 1], chunks[|chunks| - 1];
      ChunkingIsIrrelevant(env, before);
      PumpAppend(env, Flatten(before), data, 0);
      FlattenSnoc(before, data);
      SplitLast(chunks);
    }
  }

  /** Two cuts of one stream cannot be told apart. */
  lemma SameStreamSameReply(env: Env, chunks: seq<seq<byte>>, others: seq<seq<byte>>)
    requires Flatten(chunks) == Flatten(others)
    ensures HandleAll(env, chunks) == HandleAll(env, others)
  {
    ChunkingIsIrrelevant(env, chunks);
    ChunkingIsIrrelevant(env, others);
  }

  /** What has been returned is never taken back. */
  lemma OutputGrows(env: Env, stream: seq<byte>, more: seq<byte>)
    ensures Pump(env, stream, 0).out <= Pump(env, stream + more, 0).out
  {
    PumpAppend(env, stream, more, 0);
  }

  // ----- what becomes of each line -----

  /** A line: ends in CR LF and has none before. */
  ghost predicate IsLine(line: seq<byte>) {
    FindCrlf(line) == Some(|line| - 2)
  }

  /** The complete lines of a buffer, and what is left after them. */
  function SplitLines(buf: seq<byte>): seq<seq<byte>>
    decreases |buf|
  {
    match FindCrlf(buf)
    case None => []
    case Some(i) => [buf[..i + 2]] + SplitLines(buf[i + 2..])
  }

  function Residue(buf: seq<byte>): seq<byte>
    decreases |buf|
  {
    match FindCrlf(buf)
    case None => buf
    case Some(i) => Residue(buf[i + 2..])
  }

  /** The lines after rewriting. */
  function RewriteAll(env: Env, lines: seq<seq<byte>>, k: nat): (r: seq<seq<byte>>)
    ensures |r| == |lines|
  {
    if lines == [] then []
    else
      var r := RewriteLine(env, lines[0], k);
      [r.0] + RewriteAll(env, lines[1..], r.1)
  }

  lemma {:induction false} FirstLine(buf: seq<byte>)
    requires FindCrlf(buf).Some?
    ensures IsLine(buf[..FindCrlf(buf).value + 2])
  {
    var line := buf[..FindCrlf(buf).value + 2];
    if !(buf[0] == CR && buf[1] == LF) {
      FirstLine(buf[1..]);
      assert line[1..] == buf[1..][..FindCrlf(buf[1..]).value + 2];
    }
  }

  lemma TakeLine(buf: seq<byte>)
    requires FindCrlf(buf).Some?
    ensures var n := FindCrlf(buf).value + 2;
            SplitLines(buf) == [buf[..n]] + SplitLines(buf[n..])
  {
  }

  lemma TakeResidue(buf: seq<byte>)
    requires FindCrlf(buf).Some?
    ensures Residue(buf) == Residue(buf[FindCrlf(buf).value + 2..])
  {
  }

  lemma NoLine(buf: seq<byte>)
    requires FindCrlf(buf).None?
    ensures SplitLines(buf) == [] && Residue(buf) == buf && Flatten(SplitLines(buf)) == []
  {
  }

  /** Consumed lines ++ residue is the stream; the residue holds no complete line. */
  lemma {:induction false} LinesAndResidue(buf: seq<byte>)
    ensures Flatten(SplitLines(buf)) + Residue(buf) == buf
    ensures FindCrlf(Residue(buf)).None?
    ensures forall line :: line in SplitLines(buf) ==> IsLine(line)
    decreases |buf|
  {
    hide FindCrlf, SplitLines, Residue, Flatten, IsLine;
    if FindCrlf(buf).None? {
      NoLine(buf);
      assert [] + buf == buf;
    } else {
      var n := FindCrlf(buf).value + 2;
      var line, rest := buf[..n], buf[n..];
      FirstLine(buf);
      TakeLine(buf);
      TakeResidue(buf);
      LinesAndResidue(rest);
      FlattenCons(line, SplitLines(rest));
      Assoc(line, Flatten(SplitLines(rest)), Residue(rest));
      assert line + rest == buf;
    }
  }

  lemma FlattenCons(line: seq<byte>, lines: seq<seq<byte>>)
    ensures Flatten([line] + lines) == line + Flatten(lines)
  {
    assert ([line] + lines)[1..] == lines;
  }

  /** The output is the consumed lines, each rewritten, in order. */
  lemma {:induction false} PumpIsLineByLine(env: Env, buf: seq<byte>, k: nat)
    ensures var p := Pump(env, buf, k);
            p.rest == Residue(buf) && p.out == Flatten(RewriteAll(env, SplitLines(buf), k))
    decreases |buf|
  {
    match FindCrlf(buf)
    case None =>
    case Some(i) =>
      var line, rest := buf[..i + 2], buf[i + 2..];
      var r := RewriteLine(env, line, k);
      PumpIsLineByLine(env, rest, r.1);
      assert ([line] + SplitLines(rest))[1..] == SplitLines(rest);
      FlattenCons(r.0, RewriteAll(env, SplitLines(rest), r.1));
  }

  /** A line that is not a passive reply passes unchanged, in its place. */
  lemma {:induction false} OtherLinesPass(env: Env, lines: seq<seq<byte>>, k: nat, i: nat)
    requires i < |lines| && !IsPasv(lines[i]) && !IsEpsv(lines[i])
    ensures RewriteAll(env, lines, k)[i] == lines[i]
  {
    var r := RewriteLine(env, lines[0], k);
    if i > 0 {
      OtherLinesPass(env, lines[1..], r.1, i - 1);
    }
  }

  // ----- the port that the FTP user reads -----

  /** The port in a 227 line: the fifth and sixth number of its first tuple. */
  function PasvPort(line: seq<byte>): Option<nat> {
    PortOf(Search(TUPLE, line))
  }

  function PortOf(numbers: Option<seq<seq<byte>>>): Option<nat> {
    match numbers
    case None => None
    case Some(g) => if |g| != 6 || !AllDigits(g[4]) || !AllDigits(g[5]) then None else Some(ReadDecimal(g[4]) * 256 + ReadDecimal(g[5]))
  }

  /** The port in a 229 line: the number of its first three-bar group. */
  function EpsvPort(line: seq<byte>): Option<nat> {
    match Search(BARS, line)
    case None => None
    case Some(g) => if |g| != 1 || !AllDigits(g[0]) then None else Some(ReadDecimal(g[0]))
  }

  ghost predicate NumericAddress(o: seq<seq<byte>>) {
    |o| == 4 && forall i :: 0 <= i < |o| ==> o[i] != [] && AllDigits(o[i])
  }

  /** The first number of a list, in the pattern and in the text. */
  lemma FirstNumber(ds: seq<seq<byte>>, rest: seq<byte>)
    requires ds != []
    ensures var stop := if |ds| == 1 then CLOSE else COMMA;
            && !IsDigit(stop)
            && NumbersPattern(|ds|) == [Num, Lit(stop)] + NumbersPattern(|ds| - 1)
            && NumbersText(ds) + rest == ds[0] + [stop] + (NumbersText(ds[1..]) + rest)
            && |NumbersText(ds)| == |ds[0]| + 1 + |NumbersText(ds[1..])|
  {
    var stop := if |ds| == 1 then CLOSE else COMMA;
    Assoc(ds[0] + [stop], NumbersText(ds[1..]), rest);
  }

  lemma NoNumbers(rest: seq<byte>)
    ensures MatchAt(NumbersPattern(0), NumbersText([]) + rest) == Match(|NumbersText([])|, [])
  {
  }

  lemma {:induction false} NumbersMatch(ds: seq<seq<byte>>, rest: seq<byte>)
    requires forall i :: 0 <= i < |ds| ==> ds[i] != [] && AllDigits(ds[i])
    ensures MatchAt(NumbersPattern(|ds|), NumbersText(ds) + rest) == Match(|NumbersText(ds)|, ds)
  {
    hide MatchAt, NumbersPattern, NumbersText;
    if ds == [] {
      NoNumbers(rest);
    } else {
      var stop := if |ds| == 1 then CLOSE else COMMA;
      FirstNumber(ds, rest);
      NumbersMatch(ds[1..], rest);
      MatchNum(NumbersPattern(|ds| - 1), ds[0], stop, NumbersText(ds[1..]) + rest);
      assert ds == [ds[0]] + ds[1..];
    }
  }

  lemma {:induction false} NumbersPatternShape(n: nat)
    ensures forall i :: 0 <= i < |NumbersPattern(n)| ==> NumbersPattern(n)[i] != Lit(OPEN)
  {
    if n > 0 {
      NumbersPatternShape(n - 1);
    }
  }

  lemma {:induction false} BarsPatternShape(n: nat)
    ensures forall i :: 0 <= i < |BarsPattern(n)| ==> BarsPattern(n)[i] != Lit(OPEN)
  {
    if n > 0 {
      BarsPatternShape(n - 1);
    }
  }

  lemma PatternsParenthesised()
    ensures Parenthesised(TUPLE) && Parenthesised(BARS) && Parenthesised(TWO_BARS)
  {
    NumbersPatternShape(TUPLE_SIZE);
    BarsPatternShape(BAR_COUNT);
    BarsPatternShape(BAR_COUNT - 1);
  }

  lemma BarsPatternStep(n: nat, s: seq<byte>)
    requires n > 0
    ensures MatchAt(BarsPattern(n), s).Match? <==> s != [] && s[0] == BAR && MatchAt(BarsPattern(n - 1), s[1..]).Match?
  {
    assert BarsPattern(n)[1..] == BarsPattern(n - 1);
  }

  lemma GroupStep(n: nat, s: seq<byte>)
    ensures MatchAt([Lit(OPEN)] + BarsPattern(n), s).Match?
       <==> s != [] && s[0] == OPEN && MatchAt(BarsPattern(n), s[1..]).Match?
  {
    assert ([Lit(OPEN)] + BarsPattern(n))[1..] == BarsPattern(n);
  }

  /** The two bar groups cannot start at one place: they part at the third character after the parenthesis. */
  lemma TwoBarsAt(s: seq<byte>)
    requires MatchAt(TWO_BARS, s).Match?
    ensures |s| > 3 && IsDigit(s[3])
    ensures MatchAt(BARS, s).Fail?
  {
    GroupStep(2, s);
    BarsPatternStep(2, s[1..]);
    BarsPatternStep(1, s[1..][1..]);
    assert s[1..][1..][1..] == s[3..];
    assert DigitRun(s[3..]) > 0;
    GroupStep(3, s);
    BarsPatternStep(3, s[1..]);
    BarsPatternStep(2, s[1..][1..]);
    BarsPatternStep(1, s[3..]);
  }

  lemma BarsTextShape(port: nat)
    ensures |BarsText(port)| > 3 && BarsText(port)[0] == OPEN && BarsText(port)[3] == BAR
  {
    var d := Decimal(port);
    assert BarsNumber(3, d) == [BAR] + BarsNumber(2, d);
    assert BarsNumber(2, d) == [BAR] + BarsNumber(1, d);
    assert BarsNumber(1, d) == [BAR] + BarsNumber(0, d);
  }

  lemma TupleTextReads(o: seq<seq<byte>>, port: nat)
    requires NumericAddress(o)
    ensures Reads(TUPLE, TupleText(o, port), o + [Decimal(port / 256), Decimal(port % 256)])
  {
    var ds := o + [Decimal(port / 256), Decimal(port % 256)];
    forall rest: seq<byte>
      ensures MatchAt(TUPLE, TupleText(o, port) + rest) == Match(|TupleText(o, port)|, ds)
    {
      NumbersMatch(ds, rest);
      MatchLit(NumbersPattern(TUPLE_SIZE), OPEN, NumbersText(ds) + rest);
      Assoc([OPEN], NumbersText(ds), rest);
    }
  }

  lemma {:induction false} BarsMatch(n: nat, d: seq<byte>, rest: seq<byte>)
    requires d != [] && AllDigits(d)
    ensures MatchAt(BarsPattern(n), BarsNumber(n, d) + rest) == Match(|BarsNumber(n, d)|, [d])
  {
    if n == 0 {
      assert MatchAt([], rest) == Match(0, []);
      MatchLit([], CLOSE, rest);
      assert [Lit(CLOSE)] + [] == [Lit(CLOSE)];
      MatchNum([Lit(CLOSE)], d, BAR, [CLOSE] + rest);
      Assoc(d + [BAR], [CLOSE], rest);
      assert [d] + [] == [d];
    } else {
      BarsMatch(n - 1, d, rest);
      MatchLit(BarsPattern(n - 1), BAR, BarsNumber(n - 1, d) + rest);
      Assoc([BAR], BarsNumber(n - 1, d), rest);
    }
  }

  lemma BarsTextMatches(port: nat, rest: seq<byte>)
    ensures MatchAt(BARS, BarsText(port) + rest) == Match(|BarsText(port)|, [Decimal(port)])
  {
    var d := Decimal(port);
    BarsMatch(3, d, rest);
    MatchLit(BarsPattern(BAR_COUNT), OPEN, BarsNumber(BAR_COUNT, d) + rest);
    Assoc([OPEN], BarsNumber(BAR_COUNT, d), rest);
  }

  lemma BarsTextReads(port: nat)
    ensures Reads(BARS, BarsText(port), [Decimal(port)])
  {
    forall rest: seq<byte>
      ensures MatchAt(BARS, BarsText(port) + rest) == Match(|BarsText(port)|, [Decimal(port)])
    {
      BarsTextMatches(port, rest);
    }
  }

  /** A part of an address that the reply can carry: it ends no number and no group, and the
      substitution takes it as it is. */
  predicate PlainPart(d: seq<byte>) {
    OPEN !in d && CLOSE !in d && COMMA !in d && BACKSLASH !in d
  }

  /** With another address the user finds no port in the line at all. */
  lemma PasvHides(env: Env, line: seq<byte>, k: nat)
    requires Search(TUPLE, line).Some? && PortFor(env, k).Some?
    requires !NumericAddress(Octets(env)) && forall d :: d in Octets(env) ==> PlainPart(d)
    ensures PasvPort(RewritePasv(env, line, k).0) == None
  {
    var port := PortFor(env, k).value;
    PatternsParenthesised();
    TupleTextHides(Octets(env), port);
    SubstituteHides(TUPLE, line, TupleText(Octets(env), port));
  }

  lemma TupleTextHides(o: seq<seq<byte>>, port: nat)
    requires |o| == 4 && !NumericAddress(o) && forall d :: d in o ==> PlainPart(d)
    ensures Unreadable(TUPLE, TupleText(o, port))
  {
    var ds := o + [Decimal(port / 256), Decimal(port % 256)];
    assert exists i :: 0 <= i < |ds| && !(ds[i] != [] && AllDigits(ds[i])) by {
      var i :| 0 <= i < |o| && !(o[i] != [] && AllDigits(o[i]));
      assert ds[i] == o[i];
    }
    NoOpenIn(ds);
    assert TupleText(o, port)[1..] == NumbersText(ds);
    forall rest: seq<byte>
      ensures MatchAt(TUPLE, TupleText(o, port) + rest).Fail?
    {
      NumbersFail(ds, rest);
      FailLit(NumbersPattern(TUPLE_SIZE), OPEN, NumbersText(ds) + rest);
      Assoc([OPEN], NumbersText(ds), rest);
    }
  }

  lemma DigitsArePlain(d: seq<byte>)
    requires AllDigits(d)
    ensures PlainPart(d)
  {
    forall b | b in d
      ensures IsDigit(b)
    {
    }
  }

  lemma {:induction false} NoOpenIn(ds: seq<seq<byte>>)
    requires forall i :: 0 <= i < |ds| ==> AllDigits(ds[i]) || PlainPart(ds[i])
    ensures OPEN !in NumbersText(ds)
  {
    if ds != [] {
      if AllDigits(ds[0]) {
        DigitsArePlain(ds[0]);
      }
      NoOpenIn(ds[1..]);
    }
  }

  lemma {:induction false} NumbersFail(ds: seq<seq<byte>>, rest: seq<byte>)
    requires forall i :: 0 <= i < |ds| ==> AllDigits(ds[i]) || PlainPart(ds[i])
    requires exists i :: 0 <= i < |ds| && !(ds[i] != [] && AllDigits(ds[i]))
    ensures MatchAt(NumbersPattern(|ds|), NumbersText(ds) + rest).Fail?
  {
    hide MatchAt, NumbersPattern, NumbersText;
    var stop := if |ds| == 1 then CLOSE else COMMA;
    var tail := NumbersText(ds[1..]);
    FirstNumber(ds, rest);
    if ds[0] != [] && AllDigits(ds[0]) {
      NumbersFail(ds[1..], rest);
      FailAfterNum(NumbersPattern(|ds| - 1), ds[0], stop, tail + rest);
    } else {
      FailNum(NumbersPattern(|ds| - 1), ds[0], stop, tail + rest);
    }
  }

  lemma PortOfNumbers(o: seq<seq<byte>>, high: nat, low: nat)
    requires |o| == 4
    ensures PortOf(Some(o + [Decimal(high), Decimal(low)])) == Some(high * 256 + low)
  {
    ReadDecimalInverts(high);
    ReadDecimalInverts(low);
  }

  lemma PasvReads(env: Env, line: seq<byte>, k: nat)
    requires NumericAddress(Octets(env)) && Search(TUPLE, line).Some? && PortFor(env, k).Some?
    ensures var port := PortFor(env, k).value;
            Search(TUPLE, RewritePasv(env, line, k).0) == Some(Octets(env) + [Decimal(port / 256), Decimal(port % 256)])
  {
    var port := PortFor(env, k).value;
    TupleTextReads(Octets(env), port);
    PatternsParenthesised();
    SubstituteReads(TUPLE, line, TupleText(Octets(env), port), Octets(env) + [Decimal(port / 256), Decimal(port % 256)]);
  }

  /** A rewritten 227 line reads as the public port exactly when the public address is numeric;
      both numbers of the port are bytes. */
  lemma PasvRoundTrip(env: Env, line: seq<byte>, k: nat)
    requires Search(TUPLE, line).Some? && PortFor(env, k).Some?
    requires forall d :: d in Octets(env) ==> PlainPart(d)
    ensures var port := PortFor(env, k).value;
            && (PasvPort(RewritePasv(env, line, k).0) == Some(port) <==> NumericAddress(Octets(env)))
            && (port < 0x1_0000 ==> 0 <= port / 256 < 256 && 0 <= port % 256 < 256)
  {
    var port := PortFor(env, k).value;
    if NumericAddress(Octets(env)) {
      PasvReads(env, line, k);
      PortOfNumbers(Octets(env), port / 256, port % 256);
    } else {
      PasvHides(env, line, k);
    }
  }

  /** The line has both kinds of bar group and a three-bar one comes first. */
  predicate ThreeBarsAhead(line: seq<byte>) {
    line != []
    && (if MatchAt(TWO_BARS, line).Match? then false
        else if MatchAt(BARS, line).Match? then Search(TWO_BARS, line).Some?
        else ThreeBarsAhead(line[1..]))
  }

  lemma {:induction false} NoTwoBars(line: seq<byte>)
    requires Search(TWO_BARS, line).None?
    ensures !ThreeBarsAhead(line)
  {
    if line != [] {
      NoTwoBars(line[1..]);
    }
  }

  /** A two-bar substitution shows its own text first, or the three-bar group ahead of it. */
  lemma {:induction false} TwoBarsThenRead(line: seq<byte>, port: nat)
    requires Search(TWO_BARS, line).Some?
    ensures var once := Substitute(TWO_BARS, line, BarsText(port));
            && once != line
            && Search(BARS, once) == if ThreeBarsAhead(line) then Search(BARS, line) else Some([Decimal(port)])
  {
    var text := BarsText(port);
    var once := Substitute(TWO_BARS, line, text);
    match MatchAt(TWO_BARS, line)
    case Match(n, _) =>
      BarsTextMatches(port, Substitute(TWO_BARS, line[n..], text));
      TwoBarsAt(line);
      BarsTextShape(port);
      assert once[3] == text[3] == BAR;
    case Fail =>
      PatternsParenthesised();
      BarsTextShape(port);
      var a, x, y := SubstituteSplit(TWO_BARS, line, text);
      MatchBefore(BARS, a, x, y);
      TwoBarsThenRead(line[1..], port);
      assert once[1..] == Substitute(TWO_BARS, line[1..], text);
  }

  /** A rewritten 229 line reads as the public port exactly when no three-bar group stands
      ahead of a two-bar one, or the old port was the public port already. */
  lemma EpsvRoundTripIff(env: Env, line: seq<byte>, k: nat)
    requires EpsvPort(line).Some? && PortFor(env, k).Some?
    ensures var port := PortFor(env, k).value;
            EpsvPort(RewriteEpsv(env, line, k).0) == Some(port)
            <==> (!ThreeBarsAhead(line) || EpsvPort(line) == Some(port))
  {
    var port := PortFor(env, k).value;
    ReadDecimalInverts(port);
    if Search(TWO_BARS, line).Some? {
      TwoBarsThenRead(line, port);
    } else {
      SubstituteNothing(TWO_BARS, line, BarsText(port));
      BarsTextReads(port);
      PatternsParenthesised();
      SubstituteReads(BARS, line, BarsText(port), [Decimal(port)]);
      NoTwoBars(line);
    }
  }

  lemma {:induction false} SearchFinds(p: Pattern, a: seq<byte>, s: seq<byte>)
    requires p != [] && MatchAt(p, s).Match?
    ensures Search(p, a + s).Some?
  {
    if a == [] {
      assert a + s == s;
    } else if MatchAt(p, a + s).Fail? {
      assert (a + s)[1..] == a[1..] + s;
      SearchFinds(p, a[1..], s);
    }
  }

  /** A reply with (|||old|) ahead of (||other|): the second group is rewritten, the user still
      reads the server's private port. */
  lemma EpsvKeepsOldPort(env: Env, private: nat, other: nat, k: nat)
    requires PortFor(env, k).Some? && PortFor(env, k).value != private
    ensures var line := BarsText(private) + ([OPEN] + BarsNumber(2, Decimal(other))) + [CR, LF];
            EpsvPort(line) == Some(private) && EpsvPort(RewriteEpsv(env, line, k).0) == Some(private)
  {
    var d := Decimal(other);
    var tail := [OPEN] + BarsNumber(2, d) + [CR, LF];
    var line := BarsText(private) + ([OPEN] + BarsNumber(2, d)) + [CR, LF];
    Assoc(BarsText(private), [OPEN] + BarsNumber(2, d), [CR, LF]);
    BarsTextMatches(private, tail);
    BarsTextShape(private);
    ReadDecimalInverts(private);
    BarsMatch(2, d, [CR, LF]);
    MatchLit(BarsPattern(2), OPEN, BarsNumber(2, d) + [CR, LF]);
    Assoc([OPEN], BarsNumber(2, d), [CR, LF]);
    SearchFinds(TWO_BARS, BarsText(private), tail);
    if MatchAt(TWO_BARS, line).Match? {
      TwoBarsAt(line);
      assert false;
    }
    TwoBarsThenRead(line, PortFor(env, k).value);
  }

  // ----- the private ports asked for -----

  /** The port that the service named, and that the client is to connect to. */
  function AsksFor(line: seq<byte>): Option<nat> {
    if IsPasv(line) then PasvPort(line) else if IsEpsv(line) then EpsvPort(line) else None
  }

  /** The ports that go out with the listener requests, line by line. */
  function Asked(lines: seq<seq<byte>>): seq<nat> {
    if lines == [] then []
    else (match AsksFor(lines[0]) case Some(port) => [port] case None => []) + Asked(lines[1..])
  }

  lemma {:induction false} NumbersFound(p: Pattern, s: seq<byte>)
    ensures MatchAt(p, s).Match? ==> |MatchAt(p, s).numbers| == Nums(p)
    decreases |p|
  {
    if p != [] && s != [] {
      match p[0]
      case Lit(_) => NumbersFound(p[1..], s[1..]);
      case Num => NumbersFound(p[1..], s[DigitRun(s)..]);
    }
  }

  /** The groups of a pattern. */
  function Nums(p: Pattern): nat {
    if p == [] then 0 else (if p[0].Num? then 1 else 0) + Nums(p[1..])
  }

  lemma {:induction false} SearchNumbers(p: Pattern, s: seq<byte>)
    ensures Search(p, s).Some? ==> |Search(p, s).value| == Nums(p) && forall g :: g in Search(p, s).value ==> AllDigits(g)
  {
    if s != [] {
      NumbersFound(p, s);
      SearchNumbers(p, s[1..]);
    }
  }

  lemma {:induction false} NumbersPatternNums(n: nat)
    ensures Nums(NumbersPattern(n)) == n
  {
    if n > 0 {
      NumbersPatternNums(n - 1);
      var p := NumbersPattern(n);
      assert p[1..][1..] == NumbersPattern(n - 1);
    }
  }

  lemma {:induction false} BarsPatternNums(n: nat)
    ensures Nums(BarsPattern(n)) == 1
  {
    if n > 0 {
      BarsPatternNums(n - 1);
      assert BarsPattern(n)[1..] == BarsPattern(n - 1);
    } else {
      assert BarsPattern(0)[1..] == [Lit(BAR), Lit(CLOSE)] && [Lit(BAR), Lit(CLOSE)][1..] == [Lit(CLOSE)];
    }
  }

  /** A line asks for a listener exactly when it names a port. */
  lemma AskIff(env: Env, line: seq<byte>, k: nat)
    ensures RewriteLine(env, line, k).1 == k + |Asked([line])|
    ensures Search(TUPLE, line).Some? <==> PasvPort(line).Some?
    ensures Search(BARS, line).Some? <==> EpsvPort(line).Some?
  {
    hide Search, MatchAt, IsPasv, IsEpsv, Substitute, BarsRewritten, NumbersPattern, BarsPattern;
    SearchNumbers(TUPLE, line);
    SearchNumbers(BARS, line);
    NumbersPatternNums(TUPLE_SIZE);
    BarsPatternNums(BAR_COUNT);
    assert TUPLE[1..] == NumbersPattern(TUPLE_SIZE) && BARS[1..] == BarsPattern(BAR_COUNT);
    assert [line][1..] == [];
  }

  /** The requests counted in a stream are those whose ports its lines name. */
  lemma {:induction false} RequestsAreAsked(env: Env, buf: seq<byte>, k: nat)
    ensures Pump(env, buf, k).k == k + |Asked(SplitLines(buf))|
    decreases |buf|
  {
    if FindCrlf(buf).None? {
      NoLine(buf);
    } else {
      var n := FindCrlf(buf).value + 2;
      PumpLine(env, buf, k);
      TakeLine(buf);
      AskIff(env, buf[..n], k);
      RequestsAreAsked(env, buf[n..], RewriteLine(env, buf[..n], k).1);
      AskedCons(buf[..n], SplitLines(buf[n..]));
    }
  }

  lemma AskedNothing()
    ensures Asked([]) == []
  {
  }

  lemma AskedCons(line: seq<byte>, lines: seq<seq<byte>>)
    ensures Asked([line] + lines) == Asked([line]) + Asked(lines)
  {
    assert ([line] + lines)[1..] == lines && [line][1..] == [];
  }

  // ----- the handler -----

  class FtpControl {
    const env: Env
    var buffer: seq<byte>
    var asked: seq<nat>   // the private ports of the listener requests
    ghost var out: seq<byte>

    ghost function View(): Reply
      reads this
    {
      Reply(buffer, out, |asked|)
    }

    constructor (env: Env)
      ensures this.env == env && View() == FRESH && asked == []
    {
      this.env := env;
      buffer, asked, out := [], [], [];
    }

    method Rewrite(line: seq<byte>) returns (newLine: seq<byte>)
      modifies this`asked
      ensures (newLine, |asked|) == RewriteLine(env, line, old(|asked|))
      ensures asked == old(asked) + Asked([line])
    {
      AskIff(env, line, |asked|);
      assert [line][1..] == [];
      newLine := line;
      if IsPasv(line) {
        var internalPort := PasvPort(line);
        if internalPort.Some? {
          newLine := RewritePasv(env, line, |asked|).0;
          asked := asked + [internalPort.value];
        }
      } else if IsEpsv(line) {
        var internalPort := EpsvPort(line);
        if internalPort.Some? {
          newLine := RewriteEpsv(env, line, |asked|).0;
          asked := asked + [internalPort.value];
        }
      }
    }

    /** `_handle_ftp_response`: returns what goes to the FTP user now. */
    method HandleResponse(data: seq<byte>) returns (result: seq<byte>)
      modifies this
      ensures View() == Handle(env, old(View()), data)
      ensures out == old(out) + result
      ensures asked == old(asked) + Asked(SplitLines(old(buffer) + data))
    {
      hide Pump, RewriteLine, SplitLines, Asked;
      var buf := buffer + data;
      result := [];
      assert [] + Pump(env, buf, |asked|).out == Pump(env, buf, |asked|).out;
      ghost var all := Pump(env, buf, |asked|);
      ghost var ports := Asked(SplitLines(buf));
      while true
        invariant buffer == old(buffer) && out == old(out)
        invariant var p := Pump(env, buf, |asked|); p.(out := result + p.out) == all
        invariant asked + Asked(SplitLines(buf)) == old(asked) + ports
        decreases |buf|
      {
        var lineEnd := FindCrlf(buf);
        if lineEnd.None? {
          break;
        }
        var line := buf[..lineEnd.value + 2];
        PumpLine(env, buf, |asked|);
        TakeLine(buf);
        AskedCons(line, SplitLines(buf[lineEnd.value + 2..]));
        buf := buf[lineEnd.value + 2..];
        Assoc(asked, Asked([line]), Asked(SplitLines(buf)));
        var newLine := Rewrite(line);
        Assoc(result, newLine, Pump(env, buf, |asked|).out);
        result := result + newLine;
      }
      assert result + [] == result;
      PumpNothing(env, buf, |asked|);
      NoLine(buf);
      assert Asked([]) == [] by { AskedNothing(); }
      assert asked + [] == asked;
      buffer := buf;
      out := out + result;
    }
  }
}
