/**
 String operations the widget relies on: JavaScript's `String.prototype.trim`,
 the decimal rendering of an integer inside a template literal, and the
 "Page p of n" label built from two such renderings.
 */
module Text {

  /**
   The code points `trim` removes: the WhiteSpace and LineTerminator
   productions of ECMA-262 (tab, vertical tab, form feed, space, no-break
   space, byte order mark, the Unicode space separators, line feed, carriage
   return, line and paragraph separators).
   */
  predicate IsWhitespace(c: char) {
    var n := c as int;
    || n == 0x09 || n == 0x0A || n == 0x0B || n == 0x0C || n == 0x0D
    || n == 0x20 || n == 0xA0 || n == 0x1680
    || (0x2000 <= n <= 0x200A)
    || n == 0x2028 || n == 0x2029 || n == 0x202F || n == 0x205F
    || n == 0x3000 || n == 0xFEFF
  }

  /** Every character of `s` is whitespace. */
  predicate AllWhitespace(s: string) {
    forall i :: 0 <= i < |s| ==> IsWhitespace(s[i])
  }

  /** `s` neither starts nor ends with whitespace. */
  predicate Trimmed(s: string) {
    s == [] || (!IsWhitespace(s[0]) && !IsWhitespace(s[|s| - 1]))
  }

  /** Removes the leading whitespace of `s`. */
  function TrimStart(s: string): (r: string)
    ensures |r| <= |s|
    ensures r == [] || !IsWhitespace(r[0])
  {
    if s != [] && IsWhitespace(s[0]) then TrimStart(s[1..]) else s
  }

  /** What `TrimStart` removes is a prefix made of whitespace only. */
  lemma {:induction false} TrimStartSpec(s: string)
    ensures var r := TrimStart(s);
      r == s[|s| - |r|..] && AllWhitespace(s[..|s| - |r|])
  {
    if s != [] && IsWhitespace(s[0]) {
      TrimStartSpec(s[1..]);
      var r := TrimStart(s);
      assert s[1..][..|s| - 1 - |r|] == s[1..|s| - |r|];
    }
  }

  /** Removes the trailing whitespace of `s`. */
  function TrimEnd(s: string): (r: string)
    ensures |r| <= |s|
    ensures r == [] || !IsWhitespace(r[|r| - 1])
  {
    if s != [] && IsWhitespace(s[|s| - 1]) then TrimEnd(s[..|s| - 1]) else s
  }

  /** What `TrimEnd` removes is a suffix made of whitespace only. */
  lemma {:induction false} TrimEndSpec(s: string)
    ensures var r := TrimEnd(s);
      r == s[..|r|] && AllWhitespace(s[|r|..])
  {
    if s != [] && IsWhitespace(s[|s| - 1]) {
      TrimEndSpec(s[..|s| - 1]);
      var r := TrimEnd(s);
      assert s[..|s| - 1][|r|..] == s[|r|..|s| - 1];
    }
  }

  /** `s.trim()`: `s` without its leading and trailing whitespace. */
  function Trim(s: string): (r: string)
    ensures Trimmed(r) && |r| <= |s|
  {
    var a := TrimStart(s);
    var r := TrimEnd(a);
    TrimEndSpec(a);
    assert r != [] ==> r[0] == a[0];
    r
  }

  /**
   `s.trim()` is the slice `s[i..i + |r|]` left once the whitespace on both
   ends is removed.
   */
  lemma TrimSlice(s: string) returns (i: nat)
    ensures var r := Trim(s);
      && i <= |s| - |r| && r == s[i..i + |r|]
      && AllWhitespace(s[..i]) && AllWhitespace(s[i + |r|..])
  {
    var a := TrimStart(s);
    var r := TrimEnd(a);
    TrimStartSpec(s);
    TrimEndSpec(a);
    i := |s| - |a|;
    assert r == a[..|r|] == s[i..i + |r|];
    assert a[|r|..] == s[i + |r|..];
  }

  /** A query is blank when nothing is left of it after trimming. */
  predicate Blank(s: string) {
    |Trim(s)| < 1
  }

  /** A string is blank exactly when it consists of whitespace only. */
  lemma BlankIffAllWhitespace(s: string)
    ensures Blank(s) <==> AllWhitespace(s)
  {
    var r := Trim(s);
    var i := TrimSlice(s);
    if r == [] {
      forall j | 0 <= j < |s|
        ensures IsWhitespace(s[j])
      {
        if j < i {
          assert s[..i][j] == s[j];
        } else {
          assert s[i..][j - i] == s[j];
        }
      }
    } else {
      assert s[i] == r[0];
    }
  }

  /** Trimming twice removes nothing more than trimming once. */
  lemma TrimIdempotent(s: string)
    ensures Trim(Trim(s)) == Trim(s)
  {
  }

  // ---------------------------------------------------------------------
  // Decimal rendering of integers, as `${n}` produces it for integers of
  // magnitude below 1e21 (larger numbers switch to exponent notation, which
  // is not modelled)
  // ---------------------------------------------------------------------

  predicate IsDigit(c: char) {
    '0' <= c <= '9'
  }

  predicate AllDigits(s: string) {
    forall i :: 0 <= i < |s| ==> IsDigit(s[i])
  }

  function DigitChar(d: nat): (c: char)
    requires d < 10
    ensures IsDigit(c)
  {
    ('0' as int + d) as char
  }

  function DigitValue(c: char): (d: nat)
    requires IsDigit(c)
    ensures d < 10 && DigitChar(d) == c
  {
    c as int - '0' as int
  }

  /** The decimal digits of `n`, most significant first, without leading zeros. */
  function NatToString(n: nat): (r: string)
    ensures |r| >= 1 && AllDigits(r)
    ensures r[0] == '0' ==> n == 0
  {
    if n < 10 then [DigitChar(n)] else NatToString(n / 10) + [DigitChar(n % 10)]
  }

  /** Reads a non-empty string of decimal digits as a natural number. */
  function ParseNat(s: string): nat
    requires |s| >= 1 && AllDigits(s)
  {
    if |s| == 1 then DigitValue(s[0])
    else ParseNat(s[..|s| - 1]) * 10 + DigitValue(s[|s| - 1])
  }

  /** Reading back the rendering of `n` gives `n`. */
  lemma {:induction false} NatRoundTrip(n: nat)
    ensures ParseNat(NatToString(n)) == n
  {
    var r := NatToString(n);
    if n >= 10 {
      NatRoundTrip(n / 10);
      assert r[..|r| - 1] == NatToString(n / 10);
    }
  }

  /** The decimal rendering of an integer, with a leading '-' when negative. */
  function IntToString(i: int): (r: string)
    ensures |r| >= 1
    ensures i < 0 <==> r[0] == '-'
    ensures forall j :: 0 <= j < |r| ==> r[j] != ' '
  {
    if i < 0 then "-" + NatToString(-i) else NatToString(i)
  }

  /** Distinct integers render as distinct strings. */
  lemma IntToStringInjective(a: int, b: int)
    requires IntToString(a) == IntToString(b)
    ensures a == b
  {
    var x := IntToString(a);
    if a < 0 {
      assert b < 0;
      assert x[1..] == NatToString(-a);
      assert x[1..] == NatToString(-b);
      NatRoundTrip(-a);
      NatRoundTrip(-b);
    } else {
      assert b >= 0;
      NatRoundTrip(a);
      NatRoundTrip(b);
    }
  }

  // ---------------------------------------------------------------------
  // The pagination label
  // ---------------------------------------------------------------------

  /** The text of the pagination label, "Page {page} of {total}". */
  function PageText(page: int, total: int): string {
    "Page " + IntToString(page) + " of " + IntToString(total)
  }

  /** Splitting `a + " of " + b` at the first space recovers `a` and `b`. */
  lemma SplitAtOf(a: string, b: string, c: string, d: string)
    requires forall j :: 0 <= j < |a| ==> a[j] != ' '
    requires forall j :: 0 <= j < |c| ==> c[j] != ' '
    requires a + " of " + b == c + " of " + d
    ensures a == c && b == d
  {
    var x := a + " of " + b;
    assert x == c + " of " + d;
    assert x[|a|] == ' ' && x[|c|] == ' ';
    assert forall j :: 0 <= j < |a| ==> x[j] == a[j];
    assert forall j :: 0 <= j < |c| ==> x[j] == c[j];
    assert a == x[..|a|] == c;
    assert b == x[|a| + 4..] == d;
  }

  /** The label shows both numbers faithfully: different pages or totals read differently. */
  lemma PageTextInjective(p: int, t: int, p': int, t': int)
    requires PageText(p, t) == PageText(p', t')
    ensures p == p' && t == t'
  {
    var x := PageText(p, t);
    assert x[5..] == IntToString(p) + " of " + IntToString(t);
    assert x[5..] == IntToString(p') + " of " + IntToString(t');
    SplitAtOf(IntToString(p), IntToString(t), IntToString(p'), IntToString(t'));
    IntToStringInjective(p, p');
    IntToStringInjective(t, t');
  }
}
