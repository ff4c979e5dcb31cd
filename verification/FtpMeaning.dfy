/** What becomes of each kind of FTP reply line, said of the bytes of the stream: where the
    marks of the two passive replies stand, what the line then reads, and how many listeners
    are asked for. */
module FtpMeaning {
  import opened Bytes
  import opened Patterns
  import opened FtpReply

  // ----- marks -----

  const PASSIVE := "227 Entering Passive Mode"
  const EXTENDED := "229 Entering " + "Extended Passive Mode"

  /** The same character, or the same letter in the other case. */
  predicate SameLetter(b: byte, c: char) {
    || b == c as int
    || ('a' <= c <= 'z' && b == c as int - 32)
    || ('A' <= c <= 'Z' && b == c as int + 32)
  }

  /** The text stands somewhere in the line, in any letter case. */
  ghost predicate Says(line: seq<byte>, text: string) {
    exists i :: 0 <= i <= |line| - |text| && SaysAt(line, text, i)
  }

  ghost predicate SaysAt(line: seq<byte>, text: string, i: nat)
    requires i <= |line| - |text|
  {
    forall j :: 0 <= j < |text| ==> SameLetter(line[i + j], text[j])
  }

  function UpperOf(c: char): char {
    if 'a' <= c <= 'z' then (c as int - 32) as char else c
  }

  lemma {:induction false} UpperTextAt(s: seq<byte>, i: nat)
    requires i < |s|
    ensures UpperText(s)[i] == UpperOf(s[i] as char)
  {
    if i > 0 {
      UpperTextAt(s[1..], i - 1);
    }
  }

  /** One text is the other in upper case. */
  ghost predicate Uppers(text: string, mark: string) {
    |text| == |mark| && forall j :: 0 <= j < |text| ==> text[j] < 128 as char && mark[j] == UpperOf(text[j])
  }

  lemma MarkAhead(line: seq<byte>, text: string, mark: string)
    requires Uppers(text, mark)
    ensures mark <= UpperText(line) <==> |text| <= |line| && SaysAt(line, text, 0)
  {
    if |text| <= |line| {
      var u := UpperText(line);
      forall j | 0 <= j < |text|
        ensures u[j] == mark[j] <==> SameLetter(line[0 + j], text[j])
      {
        UpperTextAt(line, j);
        SameUpper(line[j], text[j]);
      }
      hide UpperText, UpperOf, SameLetter;
      assert mark <= u <==> forall j :: 0 <= j < |text| ==> u[j] == mark[j];
    }
  }

  lemma SameUpper(b: byte, c: char)
    requires c < 128 as char
    ensures UpperOf(b as char) == UpperOf(c) <==> SameLetter(b, c)
  {
  }

  lemma SaysFirst(line: seq<byte>, text: string)
    requires line != []
    ensures Says(line, text) <==> (|text| <= |line| && SaysAt(line, text, 0)) || Says(line[1..], text)
  {
    forall i: nat | i <= |line| - 1 - |text|
      ensures SaysAt(line, text, i + 1) <==> SaysAt(line[1..], text, i)
    {
      forall j | 0 <= j < |text|
        ensures SameLetter(line[i + 1 + j], text[j]) <==> SameLetter(line[1..][i + j], text[j])
      {
      }
    }
    if Says(line, text) {
      var i :| 0 <= i <= |line| - |text| && SaysAt(line, text, i);
      if i > 0 {
        assert SaysAt(line[1..], text, i - 1);
      }
    }
  }

  lemma {:induction false} MarkIff(line: seq<byte>, text: string, mark: string)
    requires Uppers(text, mark) && text != ""
    ensures Contains(UpperText(line), mark) <==> Says(line, text)
  {
    MarkAhead(line, text, mark);
    if line != [] {
      assert UpperText(line)[1..] == UpperText(line[1..]);
      SaysFirst(line, text);
      MarkIff(line[1..], text, mark);
    }
  }

  lemma PassiveIff(line: seq<byte>)
    ensures IsPasv(line) <==> Says(line, PASSIVE)
  {
    PassiveUppers();
    MarkIff(line, PASSIVE, PASV_MARK);
  }

  lemma ExtendedIff(line: seq<byte>)
    ensures IsEpsv(line) <==> Says(line, EXTENDED)
  {
    ExtendedUppers();
    MarkIff(line, EXTENDED, EPSV_MARK);
  }

  lemma PassiveUppers()
    ensures Uppers(PASSIVE, PASV_MARK)
  {
  }

  lemma EnteringUppers()
    ensures Uppers("229 Entering ", "229 ENTERING ")
  {
  }

  lemma ModeUppers()
    ensures Uppers("Extended Passive Mode", "EXTENDED PASSIVE MODE")
  {
  }

  lemma ExtendedUppers()
    ensures Uppers(EXTENDED, EPSV_MARK)
  {
    EnteringUppers();
    ModeUppers();
    hide Uppers;
    UppersConcat("229 Entering ", "229 ENTERING ", "Extended Passive Mode", "EXTENDED PASSIVE MODE");
  }

  lemma UppersConcat(s: string, t: string, s': string, t': string)
    requires Uppers(s, t) && Uppers(s', t')
    ensures Uppers(s + s', t + t')
  {
  }

  // ----- lines in a stream -----

  /** A line with its line end, and no other line end in it. */
  ghost predicate CompleteLine(line: seq<byte>) {
    && |line| >= 2 && line[|line| - 2] == 13 && line[|line| - 1] == 10
    && forall i :: 0 <= i < |line| - 2 ==> !(line[i] == 13 && line[i + 1] == 10)
  }

  lemma {:induction false} FindsLine(line: seq<byte>, rest: seq<byte>)
    requires CompleteLine(line)
    ensures FindCrlf(line + rest) == Some(|line| - 2)
  {
    var s := line + rest;
    assert s[0] == line[0] && s[1] == line[1];
    if |line| > 2 {
      assert s[1..] == line[1..] + rest;
      FindsLine(line[1..], rest);
    }
  }

  /** The first line of a stream, on its own. */
  lemma PumpFirst(env: Env, line: seq<byte>, rest: seq<byte>, k: nat)
    requires CompleteLine(line)
    ensures var r := RewriteLine(env, line, k);
            var p := Pump(env, rest, r.1);
            Pump(env, line + rest, k) == p.(out := r.0 + p.out)
  {
    FindsLine(line, rest);
    PumpLine(env, line + rest, k);
    assert (line + rest)[..|line|] == line && (line + rest)[|line|..] == rest;
  }

  // ----- one group in a line -----

  /** A group between texts that open no parenthesis is found. */
  lemma SearchesOne(p: Pattern, pre: seq<byte>, group: seq<byte>, post: seq<byte>)
    requires Parenthesised(p) && OPEN !in pre && group != []
    requires MatchAt(p, group + post).Match?
    ensures Search(p, pre + group + post) == Some(MatchAt(p, group + post).numbers)
  {
    Assoc(pre, group, post);
    SearchSkips(p, pre, group + post);
  }

  lemma {:induction false} SubstituteSkips(p: Pattern, pre: seq<byte>, rest: seq<byte>, text: seq<byte>)
    requires Parenthesised(p) && OPEN !in pre
    ensures Substitute(p, pre + rest, text) == pre + Substitute(p, rest, text)
  {
    if pre == [] {
      assert pre + rest == rest && [] + Substitute(p, rest, text) == Substitute(p, rest, text);
    } else {
      var s := pre + rest;
      assert s[0] == pre[0] && s[1..] == pre[1..] + rest;
      SubstituteSkips(p, pre[1..], rest, text);
      Assoc([pre[0]], pre[1..], Substitute(p, rest, text));
      assert pre == [pre[0]] + pre[1..];
    }
  }

  /** It alone is replaced. */
  lemma SubstitutesOne(p: Pattern, pre: seq<byte>, group: seq<byte>, post: seq<byte>, text: seq<byte>)
    requires Parenthesised(p) && OPEN !in pre && OPEN !in post && group != []
    requires MatchAt(p, group + post).Match? && MatchAt(p, group + post).length == |group|
    ensures Substitute(p, pre + group + post, text) == pre + text + post
  {
    Assoc(pre, group, post);
    SubstituteSkips(p, pre, group + post, text);
    assert (group + post)[|group|..] == post;
    SubstituteSkips(p, post, [], text);
    assert post + [] == post && Substitute(p, [], text) == [];
    Assoc(pre, text, post);
  }

  // ----- 227 -----

  /** (a,b,c,d,e,f) */
  function Six(a: seq<byte>, b: seq<byte>, c: seq<byte>, d: seq<byte>, e: seq<byte>, f: seq<byte>): seq<byte> {
    [40] + (a + [44] + (b + [44] + (c + [44] + (d + [44] + (e + [44] + (f + [41]))))))
  }

  predicate Digits(s: seq<byte>) {
    s != [] && forall i :: 0 <= i < |s| ==> 48 <= s[i] <= 57
  }

  lemma SixIs(a: seq<byte>, b: seq<byte>, c: seq<byte>, d: seq<byte>, e: seq<byte>, f: seq<byte>)
    ensures Six(a, b, c, d, e, f) == [OPEN] + NumbersText([a, b, c, d, e, f])
  {
    assert [f][1..] == [];
    assert f + [41] + [] == f + [41];
    assert NumbersText([f]) == f + [41];
    assert [e, f][1..] == [f];
    assert [d, e, f][1..] == [e, f];
    assert [c, d, e, f][1..] == [d, e, f];
    assert [b, c, d, e, f][1..] == [c, d, e, f];
    assert [a, b, c, d, e, f][1..] == [b, c, d, e, f];
    assert NumbersText([e, f]) == e + [44] + NumbersText([f]);
    assert NumbersText([d, e, f]) == d + [44] + NumbersText([e, f]);
    assert NumbersText([c, d, e, f]) == c + [44] + NumbersText([d, e, f]);
    assert NumbersText([b, c, d, e, f]) == b + [44] + NumbersText([c, d, e, f]);
  }

  lemma SixMatches(ds: seq<seq<byte>>, post: seq<byte>)
    requires |ds| == 6 && forall i :: 0 <= i < 6 ==> Digits(ds[i])
    ensures var group := [OPEN] + NumbersText(ds);
            MatchAt(TUPLE, group + post) == Match(|group|, ds)
  {
    assert forall i :: 0 <= i < 6 ==> ds[i] != [] && AllDigits(ds[i]);
    NumbersMatch(ds, post);
    MatchLit(NumbersPattern(TUPLE_SIZE), OPEN, NumbersText(ds) + post);
    Assoc([OPEN], NumbersText(ds), post);
  }

  /** The public address as the reply shows it: its four parts, or the loopback's. */
  function Shown(env: Env): (o: seq<seq<byte>>)
    ensures |o| == 4
  {
    if |env.octets| == 4 then env.octets else [[49, 50, 55], [48], [48], [49]]
  }

  lemma ShownOctets(env: Env)
    ensures Octets(env) == Shown(env)
  {
    assert Decimal(127) == Decimal(12) + [55] && Decimal(12) == Decimal(1) + [50];
    assert Decimal(127) == [49, 50, 55];
  }

  /** A 227 reply with one tuple, somewhere in the stream. It asks for one listener. If that is
      granted, the line comes out with the public address and the public port in the tuple's place
      and nothing else changed; if not, as it was. */
  lemma PassiveReply(env: Env, pre: seq<byte>, ds: seq<seq<byte>>, post: seq<byte>, rest: seq<byte>, k: nat)
    requires OPEN !in pre && OPEN !in post
    requires |ds| == 6 && forall i :: 0 <= i < 6 ==> Digits(ds[i])
    requires forall d :: d in env.octets ==> BACKSLASH !in d
    requires var line := pre + Six(ds[0], ds[1], ds[2], ds[3], ds[4], ds[5]) + post;
             CompleteLine(line) && Says(line, PASSIVE)
    ensures var line := pre + Six(ds[0], ds[1], ds[2], ds[3], ds[4], ds[5]) + post;
            var o, p := Shown(env), Pump(env, rest, k + 1);
            Pump(env, line + rest, k) == p.(out :=
              (match env.ports(k)
               case Some(port) =>
                 if port == 0 then line
                 else pre + Six(o[0], o[1], o[2], o[3], Decimal(port / 256), Decimal(port % 256)) + post
               case None => line) + p.out)
  {
    hide Says, CompleteLine, IsPasv, Search, Substitute, MatchAt, Parenthesised, NumbersText;
    var group := Six(ds[0], ds[1], ds[2], ds[3], ds[4], ds[5]);
    var line, o := pre + group + post, Shown(env);
    SixIs(ds[0], ds[1], ds[2], ds[3], ds[4], ds[5]);
    assert ds == [ds[0], ds[1], ds[2], ds[3], ds[4], ds[5]];
    SixMatches(ds, post);
    PatternsParenthesised();
    SearchesOne(TUPLE, pre, group, post);
    PassiveIff(line);
    ShownOctets(env);
    if env.ports(k).Some? && env.ports(k).value > 0 {
      var port := env.ports(k).value;
      var text := TupleText(o, port);
      SixIs(o[0], o[1], o[2], o[3], Decimal(port / 256), Decimal(port % 256));
      assert o + [Decimal(port / 256), Decimal(port % 256)]
          == [o[0], o[1], o[2], o[3], Decimal(port / 256), Decimal(port % 256)];
      SubstitutesOne(TUPLE, pre, group, post, text);
    }
    PumpFirst(env, line, rest, k);
  }

  /** A 227 reply without a tuple is as it was, and asks for nothing. */
  lemma PassiveReplyWithoutTuple(env: Env, line: seq<byte>, rest: seq<byte>, k: nat)
    requires CompleteLine(line) && Says(line, PASSIVE) && OPEN !in line
    ensures var p := Pump(env, rest, k); Pump(env, line + rest, k) == p.(out := line + p.out)
  {
    PassiveIff(line);
    PatternsParenthesised();
    SearchSkips(TUPLE, line, []);
    assert line + [] == line;
    PumpFirst(env, line, rest, k);
  }

  // ----- 229 -----

  /** (|||n|) */
  function ThreeBars(n: seq<byte>): seq<byte> {
    [40, 124, 124, 124] + n + [124, 41]
  }

  lemma ThreeBarsIs(n: seq<byte>)
    ensures ThreeBars(n) == [OPEN] + BarsNumber(BAR_COUNT, n)
  {
    assert BarsNumber(0, n) == n + [BAR] + [CLOSE];
    assert BarsNumber(1, n) == [BAR] + BarsNumber(0, n);
    assert BarsNumber(2, n) == [BAR] + BarsNumber(1, n);
    assert BarsNumber(3, n) == [BAR] + BarsNumber(2, n);
  }

  lemma ThreeBarsMatch(n: seq<byte>, post: seq<byte>)
    requires Digits(n)
    ensures MatchAt(BARS, ThreeBars(n) + post) == Match(|ThreeBars(n)|, [n])
    ensures MatchAt(TWO_BARS, ThreeBars(n) + post).Fail?
  {
    ThreeBarsIs(n);
    BarsMatch(BAR_COUNT, n, post);
    MatchLit(BarsPattern(BAR_COUNT), OPEN, BarsNumber(BAR_COUNT, n) + post);
    Assoc([OPEN], BarsNumber(BAR_COUNT, n), post);
    if MatchAt(TWO_BARS, ThreeBars(n) + post).Match? {
      TwoBarsAt(ThreeBars(n) + post);
      assert false;
    }
  }

  lemma NoTwoBarsIn(pre: seq<byte>, n: seq<byte>, post: seq<byte>)
    requires OPEN !in pre && OPEN !in post && Digits(n)
    ensures Search(TWO_BARS, pre + ThreeBars(n) + post).None?
  {
    var tail := ThreeBars(n) + post;
    PatternsParenthesised();
    ThreeBarsMatch(n, post);
    Assoc(pre, ThreeBars(n), post);
    SearchSkips(TWO_BARS, pre, tail);
    assert OPEN !in n by {
      assert forall b :: b in n ==> 48 <= b <= 57;
    }
    assert OPEN !in tail[1..];
    SearchSkips(TWO_BARS, tail[1..], []);
    assert tail[1..] + [] == tail[1..];
  }

  /** The same of a 229 reply with one three-bar group. */
  lemma ExtendedReply(env: Env, pre: seq<byte>, n: seq<byte>, post: seq<byte>, rest: seq<byte>, k: nat)
    requires OPEN !in pre && OPEN !in post && Digits(n)
    requires var line := pre + ThreeBars(n) + post;
             CompleteLine(line) && Says(line, EXTENDED) && !Says(line, PASSIVE)
    ensures var line, p := pre + ThreeBars(n) + post, Pump(env, rest, k + 1);
            Pump(env, line + rest, k) == p.(out :=
              (match env.ports(k)
               case Some(port) => if port == 0 then line else pre + ThreeBars(Decimal(port)) + post
               case None => line) + p.out)
  {
    var group := ThreeBars(n);
    var line := pre + group + post;
    PatternsParenthesised();
    ThreeBarsMatch(n, post);
    NoTwoBarsIn(pre, n, post);
    SearchesOne(BARS, pre, group, post);
    PassiveIff(line);
    ExtendedIff(line);
    if env.ports(k).Some? && env.ports(k).value > 0 {
      var port := env.ports(k).value;
      ThreeBarsIs(Decimal(port));
      SubstituteNothing(TWO_BARS, line, BarsText(port));
      SubstitutesOne(BARS, pre, group, post, BarsText(port));
    }
    PumpFirst(env, line, rest, k);
  }

  // ----- the port that a request names -----

  lemma SplitFirst(line: seq<byte>, rest: seq<byte>)
    requires CompleteLine(line)
    ensures SplitLines(line + rest) == [line] + SplitLines(rest)
  {
    FindsLine(line, rest);
    TakeLine(line + rest);
    assert (line + rest)[..|line|] == line && (line + rest)[|line|..] == rest;
  }

  lemma AskedOne(line: seq<byte>)
    ensures Asked([line]) == match AsksFor(line) case Some(port) => [port] case None => []
  {
    var none: seq<seq<byte>> := [line][1..];
    assert none == [];
  }

  /** The request for a 227 reply with one tuple names the port that the service gave: the fifth
      number times 256, and the sixth. */
  lemma PassiveAsks(pre: seq<byte>, ds: seq<seq<byte>>, post: seq<byte>, rest: seq<byte>)
    requires OPEN !in pre && OPEN !in post
    requires |ds| == 6 && forall i :: 0 <= i < 6 ==> Digits(ds[i])
    requires var line := pre + Six(ds[0], ds[1], ds[2], ds[3], ds[4], ds[5]) + post;
             CompleteLine(line) && Says(line, PASSIVE)
    ensures AllDigits(ds[4]) && AllDigits(ds[5])
    ensures var line := pre + Six(ds[0], ds[1], ds[2], ds[3], ds[4], ds[5]) + post;
            Asked(SplitLines(line + rest)) == [ReadDecimal(ds[4]) * 256 + ReadDecimal(ds[5])] + Asked(SplitLines(rest))
  {
    hide Says, CompleteLine, IsPasv, Search, MatchAt, Parenthesised, NumbersText, SplitLines;
    var group := Six(ds[0], ds[1], ds[2], ds[3], ds[4], ds[5]);
    var line := pre + group + post;
    SixIs(ds[0], ds[1], ds[2], ds[3], ds[4], ds[5]);
    assert ds == [ds[0], ds[1], ds[2], ds[3], ds[4], ds[5]];
    SixMatches(ds, post);
    PatternsParenthesised();
    SearchesOne(TUPLE, pre, group, post);
    PassiveIff(line);
    SplitFirst(line, rest);
    AskedCons(line, SplitLines(rest));
    AskedOne(line);
  }

  /** The request for a 229 reply with one three-bar group names the port between the bars. */
  lemma ExtendedAsks(pre: seq<byte>, n: seq<byte>, post: seq<byte>, rest: seq<byte>)
    requires OPEN !in pre && OPEN !in post && Digits(n)
    requires var line := pre + ThreeBars(n) + post;
             CompleteLine(line) && Says(line, EXTENDED) && !Says(line, PASSIVE)
    ensures Asked(SplitLines(pre + ThreeBars(n) + post + rest)) == [ReadDecimal(n)] + Asked(SplitLines(rest))
  {
    hide Says, CompleteLine, IsPasv, IsEpsv, Search, MatchAt, Parenthesised, SplitLines;
    var line := pre + ThreeBars(n) + post;
    PatternsParenthesised();
    ThreeBarsMatch(n, post);
    SearchesOne(BARS, pre, ThreeBars(n), post);
    PassiveIff(line);
    ExtendedIff(line);
    SplitFirst(line, rest);
    AskedCons(line, SplitLines(rest));
    AskedOne(line);
  }

  // ----- any passive reply, any other line -----

  /** Whatever else a 227 reply holds, tuples of any number included: once its listener is
      granted, the line that comes out reads as the public port, if the public address is numeric. */
  lemma PassiveReplyReads(env: Env, line: seq<byte>, rest: seq<byte>, k: nat, port: nat)
    requires CompleteLine(line) && Says(line, PASSIVE) && Search(TUPLE, line).Some?
    requires env.ports(k) == Some(port) && port > 0
    requires forall i :: 0 <= i < 4 ==> Digits(Shown(env)[i])
    ensures var p := Pump(env, rest, k + 1);
            exists line' :: PasvPort(line') == Some(port) && Pump(env, line + rest, k) == p.(out := line' + p.out)
  {
    PassiveIff(line);
    ShownOctets(env);
    assert NumericAddress(Octets(env));
    forall d | d in Octets(env)
      ensures PlainPart(d)
    {
      DigitsArePlain(d);
    }
    PasvRoundTrip(env, line, k);
    PumpFirst(env, line, rest, k);
    assert PasvPort(RewriteLine(env, line, k).0) == Some(port);
  }

  /** Whatever else a 229 reply holds: the line that comes out reads as the public port, unless a
      three-bar group stands ahead of a two-bar one. */
  lemma ExtendedReplyReads(env: Env, line: seq<byte>, rest: seq<byte>, k: nat, port: nat)
    requires CompleteLine(line) && Says(line, EXTENDED) && !Says(line, PASSIVE)
    requires EpsvPort(line).Some? && !ThreeBarsAhead(line)
    requires env.ports(k) == Some(port) && port > 0
    ensures var p := Pump(env, rest, k + 1);
            exists line' :: EpsvPort(line') == Some(port) && Pump(env, line + rest, k) == p.(out := line' + p.out)
  {
    PassiveIff(line);
    ExtendedIff(line);
    EpsvRoundTripIff(env, line, k);
    PumpFirst(env, line, rest, k);
    assert EpsvPort(RewriteLine(env, line, k).0) == Some(port);
  }

  /** A line with neither mark is as it was, and asks for nothing. */
  lemma OtherLine(env: Env, line: seq<byte>, rest: seq<byte>, k: nat)
    requires CompleteLine(line) && !Says(line, PASSIVE) && !Says(line, EXTENDED)
    ensures var p := Pump(env, rest, k); Pump(env, line + rest, k) == p.(out := line + p.out)
  {
    PassiveIff(line);
    ExtendedIff(line);
    PumpFirst(env, line, rest, k);
  }

  /** So at any place in the stream, however it arrives: after complete lines have come, the next
      line comes out as it does at the head of a stream, with the requests made so far. */
  lemma InStream(env: Env, chunks: seq<seq<byte>>, before: seq<byte>, more: seq<byte>)
    requires Flatten(chunks) == before + more && Pump(env, before, 0).rest == []
    ensures var b := Pump(env, before, 0);
            var p := Pump(env, more, b.k);
            HandleAll(env, chunks) == Reply(p.rest, b.out + p.out, p.k)
  {
    ChunkingIsIrrelevant(env, chunks);
    PumpAppend(env, before, more, 0);
    assert [] + more == more;
  }
}
