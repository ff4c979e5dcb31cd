/** Text form of a UUID (section 4 of RFC 9562) against its 16 octets. */
module Uuid {
  import opened Bytes

  const UUID_SIZE := 16
  const NIL: seq<byte> := [0, 0, 0, 0, 0, 0, 0, 0, 0, 0, 0, 0, 0, 0, 0, 0]

  /** `str(uuid.UUID(bytes=b))`: lower-case groups of 8, 4, 4, 4 and 12 digits. */
  function Print(b: seq<byte>): (s: string)
    requires |b| == UUID_SIZE
    ensures |s| == 36
  {
    HexText(b[..4]) + "-" + HexText(b[4..6]) + "-" + HexText(b[6..8]) + "-" + HexText(b[8..10]) + "-" + HexText(b[10..])
  }

  function DropHyphens(s: string): string {
    if s == "" then ""
    else if s[0] == '-' then DropHyphens(s[1..])
    else [s[0]] + DropHyphens(s[1..])
  }

  /** `uuid.UUID(s).bytes`, or None where it raises ValueError: hyphens anywhere
      are skipped, then exactly 32 digits of either case are wanted. */
  function Parse(s: string): (b: Option<seq<byte>>)
    ensures b.Some? ==> |b.value| == UUID_SIZE
  {
    var digits := DropHyphens(s);
    if |digits| != 32 then None else UnHex(digits)
  }

  predicate IsHyphenAt(i: int) {
    i == 8 || i == 13 || i == 18 || i == 23
  }

  /** The form that `uuid4` produces, decided character by character. */
  predicate IsCanonical(s: string) {
    && |s| == 36
    && forall i :: 0 <= i < 36 ==> if IsHyphenAt(i) then s[i] == '-' else IsLowerHex(s[i])
  }

  lemma {:induction false} DropHyphensConcat(a: string, b: string)
    ensures DropHyphens(a + b) == DropHyphens(a) + DropHyphens(b)
  {
    if a == "" {
      assert a + b == b;
    } else {
      assert (a + b)[1..] == a[1..] + b;
      DropHyphensConcat(a[1..], b);
    }
  }

  lemma {:induction false} DropHyphensKeepsDigits(s: string)
    requires forall i :: 0 <= i < |s| ==> s[i] != '-'
    ensures DropHyphens(s) == s
  {
    if s != "" {
      DropHyphensKeepsDigits(s[1..]);
      assert s == [s[0]] + s[1..];
    }
  }

  lemma {:induction false} DropHyphensTrailing(before: string)
    ensures DropHyphens(before + "-") == DropHyphens(before)
  {
    if before == "" {
      assert before + "-" == "-" && "-"[1..] == "";
    } else {
      assert (before + "-")[1..] == before[1..] + "-";
      DropHyphensTrailing(before[1..]);
    }
  }

  lemma {:induction false} DropHyphensGroup(before: string, group: string)
    requires forall i :: 0 <= i < |group| ==> group[i] != '-'
    ensures DropHyphens(before + "-" + group) == DropHyphens(before) + group
  {
    var left := before + "-";
    DropHyphensTrailing(before);
    DropHyphensKeepsDigits(group);
    DropHyphensConcat(left, group);
  }

  lemma DropHyphensGroups(a: string, b: string, c: string, d: string, e: string)
    requires forall i :: 0 <= i < |a| ==> a[i] != '-'
    requires forall i :: 0 <= i < |b| ==> b[i] != '-'
    requires forall i :: 0 <= i < |c| ==> c[i] != '-'
    requires forall i :: 0 <= i < |d| ==> d[i] != '-'
    requires forall i :: 0 <= i < |e| ==> e[i] != '-'
    ensures DropHyphens(a + "-" + b + "-" + c + "-" + d + "-" + e) == a + b + c + d + e
  {
    DropHyphensKeepsDigits(a);
    DropHyphensGroup(a, b);
    DropHyphensGroup(a + "-" + b, c);
    DropHyphensGroup(a + "-" + b + "-" + c, d);
    DropHyphensGroup(a + "-" + b + "-" + c + "-" + d, e);
  }

  /** Text without hyphens reads as an id exactly when it is its 32 digits, in either case. */
  lemma ParseIff(s: string, b: seq<byte>)
    requires |b| == UUID_SIZE && '-' !in s
    ensures Parse(s) == Some(b) <==> DigitsOf(s, b)
  {
    DropHyphensKeepsDigits(s);
    UnHexIff(s, b);
  }

  /** A hyphen makes no difference, wherever it stands. */
  lemma HyphensDoNotMatter(before: string, after: string)
    ensures Parse(before + "-" + after) == Parse(before + after)
  {
    DropHyphensConcat(before + "-", after);
    DropHyphensTrailing(before);
    DropHyphensConcat(before, after);
  }

  lemma ParsePrint(b: seq<byte>)
    requires |b| == UUID_SIZE
    ensures Parse(Print(b)) == Some(b)
  {
    var g0, g1, g2, g3, g4 := b[..4], b[4..6], b[6..8], b[8..10], b[10..];
    HexTextIsLowerHex(g0);
    HexTextIsLowerHex(g1);
    HexTextIsLowerHex(g2);
    HexTextIsLowerHex(g3);
    HexTextIsLowerHex(g4);
    DropHyphensGroups(HexText(g0), HexText(g1), HexText(g2), HexText(g3), HexText(g4));
    HexTextConcat(g0, g1);
    HexTextConcat(g0 + g1, g2);
    HexTextConcat(g0 + g1 + g2, g3);
    HexTextConcat(g0 + g1 + g2 + g3, g4);
    assert b == g0 + g1 + g2 + g3 + g4;
    UnHexOfHexText(b);
  }

  /** Where the digits of octet k stand in the text. */
  function PlaceOf(k: nat): nat {
    2 * k + (if k < 4 then 0 else if k < 6 then 1 else if k < 8 then 2 else if k < 10 then 3 else 4)
  }

  /** The text of an id, digit by digit. */
  lemma PrintReads(b: seq<byte>, k: nat)
    requires |b| == UUID_SIZE && k < UUID_SIZE
    ensures Print(b)[PlaceOf(k)] == "0123456789abcdef"[b[k] / 16]
    ensures Print(b)[PlaceOf(k) + 1] == "0123456789abcdef"[b[k] % 16]
  {
    var g0, g1, g2, g3, g4 := HexText(b[..4]), HexText(b[4..6]), HexText(b[6..8]), HexText(b[8..10]), HexText(b[10..]);
    assert Print(b)[..8] == g0 && Print(b)[9..13] == g1 && Print(b)[14..18] == g2;
    assert Print(b)[19..23] == g3 && Print(b)[24..] == g4;
    hide Print, HexText, HexDigit;
    if k < 4 {
      HexTextAt(b[..4], k);
    } else if k < 6 {
      HexTextAt(b[4..6], k - 4);
    } else if k < 8 {
      HexTextAt(b[6..8], k - 6);
    } else if k < 10 {
      HexTextAt(b[8..10], k - 8);
    } else {
      HexTextAt(b[10..], k - 10);
    }
  }

  lemma PrintIsCanonical(b: seq<byte>)
    requires |b| == UUID_SIZE
    ensures IsCanonical(Print(b))
  {
    HexTextIsLowerHex(b[..4]);
    HexTextIsLowerHex(b[4..6]);
    HexTextIsLowerHex(b[6..8]);
    HexTextIsLowerHex(b[8..10]);
    HexTextIsLowerHex(b[10..]);
  }

  /** The text of a part is the part of the text. */
  lemma HexTextPart(b: seq<byte>, i: nat, j: nat)
    requires i <= j <= |b|
    ensures HexText(b[i..j]) == HexText(b)[2 * i..2 * j]
  {
    hide HexText;
    ThreeParts(b, i, j);
    HexTextOfThree(b[..i], b[i..j], b[j..]);
  }

  lemma ThreeParts<T>(s: seq<T>, i: nat, j: nat)
    requires i <= j <= |s|
    ensures s == s[..i] + s[i..j] + s[j..] && |s[..i] + s[i..j]| == j
  {
  }

  lemma HexTextOfThree(x: seq<byte>, y: seq<byte>, z: seq<byte>)
    ensures HexText(x + y + z)[2 * |x|..2 * |x + y|] == HexText(y)
  {
    hide HexText;
    HexTextConcat(x, y);
    HexTextConcat(x + y, z);
    Middle(HexText(x), HexText(y), HexText(z));
  }

  lemma Middle<T>(x: seq<T>, y: seq<T>, z: seq<T>)
    ensures (x + y + z)[|x|..|x| + |y|] == y
  {
  }

  function Hyphenate(digits: string): string
    requires |digits| == 2 * UUID_SIZE
  {
    digits[..8] + "-" + digits[8..12] + "-" + digits[12..16] + "-" + digits[16..20] + "-" + digits[20..]
  }

  lemma PrintHyphenates(b: seq<byte>)
    requires |b| == UUID_SIZE
    ensures Print(b) == Hyphenate(HexText(b))
  {
    hide HexText;
    HexTextPart(b, 0, 4);
    HexTextPart(b, 4, 6);
    HexTextPart(b, 6, 8);
    HexTextPart(b, 8, 10);
    HexTextPart(b, 10, UUID_SIZE);
    assert b[..4] == b[0..4] && b[10..] == b[10..UUID_SIZE];
  }

  /** In canonical text the hyphens are where Print puts them. */
  lemma CanonicalDigits(s: string)
    requires IsCanonical(s)
    ensures var digits := DropHyphens(s);
            && |digits| == 2 * UUID_SIZE
            && (forall i :: 0 <= i < |digits| ==> IsLowerHex(digits[i]))
            && Hyphenate(digits) == s
  {
    var a, b, c, d, e := s[..8], s[9..13], s[14..18], s[19..23], s[24..];
    assert s == a + "-" + b + "-" + c + "-" + d + "-" + e;
    DropHyphensGroups(a, b, c, d, e);
    var digits := a + b + c + d + e;
    assert DropHyphens(s) == digits;
    assert forall i :: 0 <= i < 32 ==> digits[i] == s[i + (if i < 8 then 0 else if i < 12 then 1 else if i < 16 then 2 else if i < 20 then 3 else 4)];
    assert digits[..8] == a && digits[8..12] == b && digits[12..16] == c && digits[16..20] == d && digits[20..] == e;
  }

  lemma PrintParse(s: string)
    requires IsCanonical(s)
    ensures Parse(s).Some? && Print(Parse(s).value) == s
  {
    var digits := DropHyphens(s);
    CanonicalDigits(s);
    HexTextOfUnHex(digits);
    PrintHyphenates(UnHex(digits).value);
  }

  /** Printing gives an identifier back exactly when it was in canonical form. */
  lemma CanonicalIff(s: string)
    ensures IsCanonical(s) <==> Parse(s).Some? && Print(Parse(s).value) == s
  {
    if IsCanonical(s) {
      PrintParse(s);
    } else if Parse(s).Some? {
      PrintIsCanonical(Parse(s).value);
    }
  }
}
