/** The regular expressions of the FTP rewriting: literals and digit runs, where a digit
    run is never followed by a digit, so matching needs no backtracking. */
module Patterns {
  import opened Bytes

  datatype Token = Lit(b: byte) | Num

  type Pattern = seq<Token>

  const OPEN: byte := '(' as int
  const CLOSE: byte := ')' as int
  const COMMA: byte := ',' as int
  const BAR: byte := '|' as int
  const BACKSLASH: byte := '\\' as int

  datatype Match = Fail | Match(length: nat, numbers: seq<seq<byte>>)

  /** Length of the digit run at the start. */
  function DigitRun(s: seq<byte>): (n: nat)
    ensures n <= |s| && AllDigits(s[..n]) && (n < |s| ==> !IsDigit(s[n]))
  {
    if s == [] || !IsDigit(s[0]) then 0 else 1 + DigitRun(s[1..])
  }

  /** `re.match`: the pattern at the start of s, with its groups. */
  function MatchAt(p: Pattern, s: seq<byte>): (m: Match)
    ensures m.Match? ==> |p| <= m.length <= |s| && forall g :: g in m.numbers ==> AllDigits(g)
    decreases |p|
  {
    if p == [] then Match(0, [])
    else
      match p[0]
      case Lit(b) =>
        if s == [] || s[0] != b then Fail
        else
          (match MatchAt(p[1..], s[1..])
           case Fail => Fail
           case Match(n, gs) => Match(n + 1, gs))
      case Num =>
        var n := DigitRun(s);
        if n == 0 then Fail
        else
          match MatchAt(p[1..], s[n..])
          case Fail => Fail
          case Match(k, gs) => Match(n + k, [s[..n]] + gs)
  }

  /** `re.search`: groups of the first match. */
  function Search(p: Pattern, s: seq<byte>): Option<seq<seq<byte>>> {
    if s == [] then None
    else
      match MatchAt(p, s)
      case Match(_, gs) => Some(gs)
      case Fail => Search(p, s[1..])
  }

  /** `re.sub`: every match, left to right, replaced by text. */
  function Substitute(p: Pattern, s: seq<byte>, text: seq<byte>): seq<byte>
    requires p != []
  {
    if s == [] then []
    else
      match MatchAt(p, s)
      case Match(n, _) => text + Substitute(p, s[n..], text)
      case Fail => [s[0]] + Substitute(p, s[1..], text)
  }

  /** The patterns here open with a parenthesis and have no other. */
  ghost predicate Parenthesised(p: Pattern) {
    && |p| > 0
    && p[0] == Lit(OPEN)
    && forall i :: 0 < i < |p| ==> p[i] != Lit(OPEN)
  }

  lemma {:induction false} RunBlocked(a: seq<byte>, x: seq<byte>)
    ensures DigitRun(a + [OPEN] + x) == DigitRun(a)
  {
    var s := a + [OPEN] + x;
    if a == [] {
      assert s[0] == OPEN;
    } else {
      assert s[0] == a[0];
      if IsDigit(a[0]) {
        assert s[1..] == a[1..] + [OPEN] + x;
        RunBlocked(a[1..], x);
      }
    }
  }

  /** A match cannot run into an opening parenthesis, so what follows one is irrelevant. */
  lemma {:induction false} MatchBlocked(p: Pattern, a: seq<byte>, x: seq<byte>, y: seq<byte>)
    requires forall i :: 0 <= i < |p| ==> p[i] != Lit(OPEN)
    ensures MatchAt(p, a + [OPEN] + x) == MatchAt(p, a + [OPEN] + y)
    decreases |p|
  {
    var s, t := a + [OPEN] + x, a + [OPEN] + y;
    if p != [] {
      match p[0]
      case Lit(b) =>
        if a == [] {
          assert s[0] == OPEN && t[0] == OPEN;
        } else {
          assert s[0] == a[0] && t[0] == a[0];
          assert s[1..] == a[1..] + [OPEN] + x && t[1..] == a[1..] + [OPEN] + y;
          MatchBlocked(p[1..], a[1..], x, y);
        }
      case Num =>
        RunBlocked(a, x);
        RunBlocked(a, y);
        var n := DigitRun(a);
        assert s[..n] == a[..n] && t[..n] == a[..n];
        assert s[n..] == a[n..] + [OPEN] + x && t[n..] == a[n..] + [OPEN] + y;
        MatchBlocked(p[1..], a[n..], x, y);
    }
  }

  lemma MatchBefore(p: Pattern, a: seq<byte>, x: seq<byte>, y: seq<byte>)
    requires Parenthesised(p) && a != []
    ensures MatchAt(p, a + [OPEN] + x) == MatchAt(p, a + [OPEN] + y)
  {
    var s, t := a + [OPEN] + x, a + [OPEN] + y;
    assert s[0] == a[0] && t[0] == a[0];
    assert s[1..] == a[1..] + [OPEN] + x && t[1..] == a[1..] + [OPEN] + y;
    MatchBlocked(p[1..], a[1..], x, y);
  }

  /** Where a first match lies, the string and its substitution part company there. */
  lemma {:induction false} SubstituteSplit(p: Pattern, s: seq<byte>, text: seq<byte>)
    returns (a: seq<byte>, x: seq<byte>, y: seq<byte>)
    requires Parenthesised(p) && text != [] && text[0] == OPEN
    requires Search(p, s).Some?
    ensures s == a + [OPEN] + x && Substitute(p, s, text) == a + [OPEN] + y
    ensures a == [] <==> MatchAt(p, s).Match?
  {
    match MatchAt(p, s)
    case Match(n, _) =>
      a, x, y := [], s[1..], text[1..] + Substitute(p, s[n..], text);
      assert s[0] == OPEN;
      assert s == [] + [OPEN] + x;
      assert text == [OPEN] + text[1..];
    case Fail =>
      a, x, y := SubstituteSplit(p, s[1..], text);
      a := [s[0]] + a;
      assert s == [s[0]] + s[1..];
  }

  lemma {:induction false} SubstituteNothing(p: Pattern, s: seq<byte>, text: seq<byte>)
    requires p != [] && Search(p, s).None?
    ensures Substitute(p, s, text) == s
  {
    if s != [] {
      SubstituteNothing(p, s[1..], text);
    }
  }

  /** A text that reads as these numbers whatever follows it. */
  ghost predicate Reads(p: Pattern, text: seq<byte>, numbers: seq<seq<byte>>) {
    && text != []
    && text[0] == OPEN
    && forall rest: seq<byte> :: MatchAt(p, text + rest) == Match(|text|, numbers)
  }

  /** After a substitution the first thing to be read is the substituted text. */
  lemma {:induction false} SubstituteReads(p: Pattern, s: seq<byte>, text: seq<byte>, numbers: seq<seq<byte>>)
    requires Parenthesised(p) && Reads(p, text, numbers)
    requires Search(p, s).Some?
    ensures Search(p, Substitute(p, s, text)) == Some(numbers)
  {
    match MatchAt(p, s)
    case Match(n, _) =>
      assert MatchAt(p, text + Substitute(p, s[n..], text)) == Match(|text|, numbers);
    case Fail =>
      SubstituteReads(p, s[1..], text, numbers);
      var a, x, y := SubstituteSplit(p, s, text);
      MatchBefore(p, a, x, y);
      assert Substitute(p, s, text)[1..] == Substitute(p, s[1..], text);
  }

  /** A search passes over what has no opening parenthesis. */
  lemma {:induction false} SearchSkips(p: Pattern, t: seq<byte>, rest: seq<byte>)
    requires Parenthesised(p) && OPEN !in t
    ensures Search(p, t + rest) == Search(p, rest)
  {
    if t == [] {
      assert t + rest == rest;
    } else {
      assert (t + rest)[0] == t[0] && (t + rest)[1..] == t[1..] + rest;
      SearchSkips(p, t[1..], rest);
    }
  }

  /** A text that never matches, whatever follows it, and opens one parenthesis only. */
  ghost predicate Unreadable(p: Pattern, text: seq<byte>) {
    && text != []
    && text[0] == OPEN
    && OPEN !in text[1..]
    && forall rest: seq<byte> :: MatchAt(p, text + rest).Fail?
  }

  /** After every match was replaced by an unreadable text nothing is left to read. */
  lemma {:induction false} SubstituteHides(p: Pattern, s: seq<byte>, text: seq<byte>)
    requires Parenthesised(p) && Unreadable(p, text)
    ensures Search(p, Substitute(p, s, text)).None?
    decreases |s|
  {
    if s != [] {
      match MatchAt(p, s)
      case Match(n, _) =>
        var tail := Substitute(p, s[n..], text);
        SubstituteHides(p, s[n..], text);
        assert MatchAt(p, text + tail).Fail?;
        assert (text + tail)[1..] == text[1..] + tail;
        SearchSkips(p, text[1..], tail);
      case Fail =>
        SubstituteHides(p, s[1..], text);
        FailStays(p, s, text);
        assert Substitute(p, s, text)[1..] == Substitute(p, s[1..], text);
    }
  }

  /** Where the pattern does not match, it does not match after the substitution either. */
  lemma FailStays(p: Pattern, s: seq<byte>, text: seq<byte>)
    requires Parenthesised(p) && text != [] && text[0] == OPEN
    requires s != [] && MatchAt(p, s).Fail?
    ensures MatchAt(p, Substitute(p, s, text)).Fail?
  {
    if Search(p, s).None? {
      SubstituteNothing(p, s, text);
    } else {
      var a, x, y := SubstituteSplit(p, s, text);
      MatchBefore(p, a, x, y);
    }
  }

  // ----- numbers in text -----

  lemma {:induction false} DigitRunStops(d: seq<byte>, stop: byte, rest: seq<byte>)
    requires AllDigits(d) && !IsDigit(stop)
    ensures DigitRun(d + [stop] + rest) == |d|
  {
    var s := d + [stop] + rest;
    if d == [] {
      assert s[0] == stop;
    } else {
      assert s[0] == d[0] && s[1..] == d[1..] + [stop] + rest;
      DigitRunStops(d[1..], stop, rest);
    }
  }

  lemma MatchLit(p: Pattern, b: byte, s: seq<byte>)
    requires MatchAt(p, s).Match?
    ensures MatchAt([Lit(b)] + p, [b] + s) == Match(MatchAt(p, s).length + 1, MatchAt(p, s).numbers)
  {
    assert ([Lit(b)] + p)[1..] == p && ([b] + s)[1..] == s;
  }

  /** One digit run and its delimiter in front of a match. */
  lemma MatchNum(p: Pattern, d: seq<byte>, stop: byte, s: seq<byte>)
    requires d != [] && AllDigits(d) && !IsDigit(stop)
    requires MatchAt(p, s).Match?
    ensures MatchAt([Num, Lit(stop)] + p, d + [stop] + s)
         == Match(|d| + 1 + MatchAt(p, s).length, [d] + MatchAt(p, s).numbers)
  {
    var whole, text := [Num, Lit(stop)] + p, d + [stop] + s;
    DigitRunStops(d, stop, s);
    MatchLit(p, stop, s);
    assert whole[1..] == [Lit(stop)] + p;
    assert text[..|d|] == d && text[|d|..] == [stop] + s;
  }

  lemma FailLit(p: Pattern, b: byte, s: seq<byte>)
    requires MatchAt(p, s).Fail?
    ensures MatchAt([Lit(b)] + p, [b] + s).Fail?
  {
    assert ([Lit(b)] + p)[1..] == p && ([b] + s)[1..] == s;
  }

  /** One digit run and its delimiter in front of what does not match. */
  lemma FailAfterNum(p: Pattern, d: seq<byte>, stop: byte, s: seq<byte>)
    requires d != [] && AllDigits(d) && !IsDigit(stop)
    requires MatchAt(p, s).Fail?
    ensures MatchAt([Num, Lit(stop)] + p, d + [stop] + s).Fail?
  {
    var whole, text := [Num, Lit(stop)] + p, d + [stop] + s;
    DigitRunStops(d, stop, s);
    FailLit(p, stop, s);
    assert whole[1..] == [Lit(stop)] + p;
    assert text[|d|..] == [stop] + s;
  }

  /** Something that is not a digit run, up to its delimiter, does not match. */
  lemma FailNum(p: Pattern, d: seq<byte>, stop: byte, s: seq<byte>)
    requires d == [] || !AllDigits(d)
    requires stop !in d && !IsDigit(stop)
    ensures MatchAt([Num, Lit(stop)] + p, d + [stop] + s).Fail?
  {
    var whole, text := [Num, Lit(stop)] + p, d + [stop] + s;
    var n := DigitRun(text);
    assert whole[1..] == [Lit(stop)] + p;
    assert d + ([stop] + s) == text;
    if d == [] {
      assert text[0] == stop;
    } else {
      RunWithin(d, [stop] + s);
      assert n < |d| && text[n] == d[n];
      assert d[n] in d;
      assert text[n..][0] == d[n];
    }
  }

  lemma {:induction false} RunWithin(d: seq<byte>, rest: seq<byte>)
    requires !AllDigits(d)
    ensures DigitRun(d + rest) < |d|
  {
    assert (d + rest)[0] == d[0] && (d + rest)[1..] == d[1..] + rest;
    if IsDigit(d[0]) {
      RunWithin(d[1..], rest);
    }
  }
}
