/** Octets, big-endian lengths, hexadecimal and decimal text. */
module Bytes {

  type byte = b: int | 0 <= b < 0x100

  datatype Option<+T> = None | Some(value: T)

  const TWO_TO_32: int := 0x1_0000_0000

  /** The four octets of `struct.pack(">I", n)`. */
  function Be32(n: int): (s: seq<byte>)
    requires 0 <= n < TWO_TO_32
    ensures |s| == 4
  {
    [n / 0x100_0000, n / 0x1_0000 % 0x100, n / 0x100 % 0x100, n % 0x100]
  }

  function ReadBe32(s: seq<byte>): (n: int)
    requires |s| == 4
    ensures 0 <= n < TWO_TO_32
  {
    ((s[0] as int * 0x100 + s[1] as int) * 0x100 + s[2] as int) * 0x100 + s[3] as int
  }

  lemma ReadBe32Inverts(n: int)
    requires 0 <= n < TWO_TO_32
    ensures ReadBe32(Be32(n)) == n
  {
    var a, b := n / 0x100, n / 0x1_0000;
    assert b == a / 0x100 && n / 0x100_0000 == b / 0x100;
    assert n == a * 0x100 + n % 0x100 && a == b * 0x100 + a % 0x100;
    assert b == b / 0x100 * 0x100 + b % 0x100;
  }

  /** Concatenation of a sequence of chunks. */
  function Flatten<T>(chunks: seq<seq<T>>): seq<T> {
    if chunks == [] then [] else chunks[0] + Flatten(chunks[1..])
  }

  lemma {:induction false} FlattenSnoc<T>(chunks: seq<seq<T>>, last: seq<T>)
    ensures Flatten(chunks + [last]) == Flatten(chunks) + last
  {
    if chunks == [] {
      assert [last][1..] == [];
    } else {
      assert (chunks + [last])[1..] == chunks[1..] + [last];
      FlattenSnoc(chunks[1..], last);
    }
  }

  lemma Assoc<T>(a: seq<T>, b: seq<T>, c: seq<T>)
    ensures a + b + c == a + (b + c)
  {
  }

  lemma SplitLast<T>(s: seq<T>)
    requires s != []
    ensures s == s[..|s| - 1] + [s[|s| - 1]]
  {
  }

  // ----- hexadecimal -----

  predicate IsLowerHex(c: char) {
    '0' <= c <= '9' || 'a' <= c <= 'f'
  }

  function HexDigit(n: int): (c: char)
    requires 0 <= n < 16
    ensures IsLowerHex(c)
  {
    if n < 10 then '0' + n as char else 'a' + (n - 10) as char
  }

  /** Value of a hexadecimal digit of either case. */
  function HexValue(c: char): (v: Option<int>)
    ensures v.Some? ==> 0 <= v.value < 16
  {
    if '0' <= c <= '9' then Some(c as int - '0' as int)
    else if 'a' <= c <= 'f' then Some(c as int - 'a' as int + 10)
    else if 'A' <= c <= 'F' then Some(c as int - 'A' as int + 10)
    else None
  }

  function HexText(b: seq<byte>): (s: string)
    ensures |s| == 2 * |b|
  {
    if b == [] then "" else [HexDigit(b[0] / 16), HexDigit(b[0] % 16)] + HexText(b[1..])
  }

  /** Two digits an octet, the higher half first. */
  lemma {:induction false} HexTextAt(b: seq<byte>, k: nat)
    requires k < |b|
    ensures HexText(b)[2 * k] == "0123456789abcdef"[b[k] / 16]
    ensures HexText(b)[2 * k + 1] == "0123456789abcdef"[b[k] % 16]
  {
    if k == 0 {
      assert forall n :: 0 <= n < 16 ==> HexDigit(n) == "0123456789abcdef"[n];
    } else {
      HexTextAt(b[1..], k - 1);
    }
  }

  /** Reads pairs of hexadecimal digits. */
  function UnHex(s: string): (b: Option<seq<byte>>)
    ensures b.Some? ==> 2 * |b.value| == |s|
  {
    if s == "" then Some([])
    else if |s| == 1 || HexValue(s[0]).None? || HexValue(s[1]).None? then None
    else
      var tail := UnHex(s[2..]);
      if tail.None? then None
      else Some([HexValue(s[0]).value * 16 + HexValue(s[1]).value] + tail.value)
  }

  lemma {:induction false} UnHexOfHexText(b: seq<byte>)
    ensures UnHex(HexText(b)) == Some(b)
  {
    if b != [] {
      UnHexOfHexText(b[1..]);
      var s := HexText(b);
      assert s[2..] == HexText(b[1..]);
      assert HexValue(s[0]).value * 16 + HexValue(s[1]).value == b[0];
      assert b == [b[0]] + b[1..];
    }
  }

  /** A hexadecimal digit of that value, in either case. */
  predicate HexMeans(c: char, v: int) {
    0 <= v < 16 && (c == "0123456789abcdef"[v] || c == "0123456789ABCDEF"[v])
  }

  lemma HexValueIff(c: char, v: int)
    ensures HexValue(c) == Some(v) <==> HexMeans(c, v)
  {
    if '0' <= c <= '9' {
      assert c == "0123456789abcdef"[c as int - '0' as int];
    } else if 'a' <= c <= 'f' {
      assert c == "0123456789abcdef"[c as int - 'a' as int + 10];
    } else if 'A' <= c <= 'F' {
      assert c == "0123456789ABCDEF"[c as int - 'A' as int + 10];
    }
  }

  /** The text is the two digits of each octet, in either case. */
  ghost predicate DigitsOf(s: string, b: seq<byte>) {
    |s| == 2 * |b| && forall k :: 0 <= k < |b| ==> HexMeans(s[2 * k], b[k] / 16) && HexMeans(s[2 * k + 1], b[k] % 16)
  }

  lemma DigitsOfFirst(s: string, b: seq<byte>)
    requires |s| == 2 * |b| && b != []
    ensures DigitsOf(s, b) <==> HexMeans(s[0], b[0] / 16) && HexMeans(s[1], b[0] % 16) && DigitsOf(s[2..], b[1..])
  {
    hide HexMeans;
    var t, c := s[2..], b[1..];
    assert forall k :: 0 <= k < |c| ==> t[2 * k] == s[2 * (k + 1)] && t[2 * k + 1] == s[2 * (k + 1) + 1] && c[k] == b[k + 1];
    if DigitsOf(t, c) && HexMeans(s[0], b[0] / 16) && HexMeans(s[1], b[0] % 16) {
      forall k | 0 <= k < |b|
        ensures HexMeans(s[2 * k], b[k] / 16) && HexMeans(s[2 * k + 1], b[k] % 16)
      {
        if k > 0 {
          assert HexMeans(t[2 * (k - 1)], c[k - 1] / 16) && HexMeans(t[2 * (k - 1) + 1], c[k - 1] % 16);
        }
      }
    }
  }

  lemma UnHexFirst(s: string, b: seq<byte>)
    requires |s| == 2 * |b| && b != []
    ensures UnHex(s) == Some(b) <==>
              HexValue(s[0]) == Some(b[0] as int / 16) && HexValue(s[1]) == Some(b[0] as int % 16) && UnHex(s[2..]) == Some(b[1..])
  {
    assert b == [b[0]] + b[1..];
  }

  /** Text reads as octets exactly when it holds their two digits each. */
  lemma {:induction false} UnHexIff(s: string, b: seq<byte>)
    ensures UnHex(s) == Some(b) <==> DigitsOf(s, b)
  {
    if |s| == 2 * |b| && b != [] {
      UnHexIff(s[2..], b[1..]);
      HexValueIff(s[0], b[0] / 16);
      HexValueIff(s[1], b[0] % 16);
      DigitsOfFirst(s, b);
      UnHexFirst(s, b);
      hide UnHex, HexValue, HexMeans, DigitsOf;
    }
  }

  lemma HexPair(c: char, d: char)
    requires IsLowerHex(c) && IsLowerHex(d)
    ensures HexValue(c).Some? && HexValue(d).Some?
    ensures var n := HexValue(c).value * 16 + HexValue(d).value;
            HexDigit(n / 16) == c && HexDigit(n % 16) == d
  {
  }

  lemma {:induction false} HexTextOfUnHex(s: string)
    requires |s| % 2 == 0
    requires forall i :: 0 <= i < |s| ==> IsLowerHex(s[i])
    ensures UnHex(s).Some? && HexText(UnHex(s).value) == s
  {
    if s != "" {
      HexTextOfUnHex(s[2..]);
      HexPair(s[0], s[1]);
      var b := UnHex(s).value;
      assert b == [HexValue(s[0]).value * 16 + HexValue(s[1]).value] + UnHex(s[2..]).value;
      assert b[1..] == UnHex(s[2..]).value;
      assert s == [s[0], s[1]] + s[2..];
    }
  }

  lemma {:induction false} HexTextIsLowerHex(b: seq<byte>)
    ensures forall i :: 0 <= i < |HexText(b)| ==> IsLowerHex(HexText(b)[i])
  {
    if b != [] {
      HexTextIsLowerHex(b[1..]);
    }
  }

  lemma {:induction false} HexTextConcat(a: seq<byte>, b: seq<byte>)
    ensures HexText(a + b) == HexText(a) + HexText(b)
  {
    if a == [] {
      assert a + b == b;
    } else {
      assert (a + b)[1..] == a[1..] + b;
      HexTextConcat(a[1..], b);
    }
  }

  // ----- decimal -----

  predicate IsDigit(b: byte) {
    '0' as int <= b <= '9' as int
  }

  predicate AllDigits(s: seq<byte>) {
    forall i :: 0 <= i < |s| ==> IsDigit(s[i])
  }

  function Decimal(n: nat): (s: seq<byte>)
    ensures |s| >= 1 && AllDigits(s)
  {
    if n < 10 then ['0' as int + n] else Decimal(n / 10) + ['0' as int + n % 10]
  }

  function ReadDecimal(s: seq<byte>): nat
    requires AllDigits(s)
  {
    if s == [] then 0 else ReadDecimal(s[..|s| - 1]) * 10 + (s[|s| - 1] - '0' as int)
  }

  function TenTo(n: nat): (p: nat)
    ensures p > 0
  {
    if n == 0 then 1 else 10 * TenTo(n - 1)
  }

  lemma Carry(d: int, p: int, r: int, last: int)
    ensures (d * p + r) * 10 + last == d * (10 * p) + (r * 10 + last)
  {
  }

  /** The first digit counts the highest power of ten. */
  lemma {:induction false} ReadDecimalFromLeft(s: seq<byte>)
    requires AllDigits(s) && s != []
    ensures ReadDecimal(s) == (s[0] as int - '0' as int) * TenTo(|s| - 1) + ReadDecimal(s[1..])
  {
    if |s| == 1 {
      assert s[..0] == [] && s[1..] == [];
      assert ReadDecimal(s) == ReadDecimal([]) * 10 + (s[0] - '0' as int);
    } else {
      var before, after := s[..|s| - 1], s[1..];
      ReadDecimalFromLeft(before);
      assert before[1..] == after[..|after| - 1];
      var first, last, p := s[0] as int - '0' as int, s[|s| - 1] as int - '0' as int, TenTo(|before| - 1);
      assert TenTo(|s| - 1) == 10 * p;
      assert ReadDecimal(s) == ReadDecimal(before) * 10 + last;
      assert ReadDecimal(after) == ReadDecimal(before[1..]) * 10 + last;
      hide ReadDecimal, TenTo;
      Carry(first, p, ReadDecimal(before[1..]), last);
    }
  }

  /** A number is written without leading zeros. */
  lemma {:induction false} NoLeadingZero(n: nat)
    requires n > 0
    ensures '1' as int <= Decimal(n)[0] as int
  {
    if n >= 10 {
      NoLeadingZero(n / 10);
    }
  }

  lemma {:induction false} ReadDecimalInverts(n: nat)
    ensures ReadDecimal(Decimal(n)) == n
  {
    var s := Decimal(n);
    if n >= 10 {
      ReadDecimalInverts(n / 10);
      assert s[..|s| - 1] == Decimal(n / 10);
    } else {
      assert s[..0] == [];
    }
  }
}
