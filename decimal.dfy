/**
 * Decimal rendering of a non-negative integer, as JavaScript's `+` produces it
 * when a millisecond timestamp is concatenated with a string, and its inverse.
 */
module Decimal {

  predicate IsDigit(c: char) {
    '0' <= c <= '9'
  }

  predicate AllDigits(s: string) {
    forall k :: 0 <= k < |s| ==> IsDigit(s[k])
  }

  function DigitChar(d: nat): (c: char)
    requires d < 10
    ensures IsDigit(c)
    ensures c as int - '0' as int == d
  {
    ('0' as int + d) as char
  }

  function DigitValue(c: char): (d: nat)
    requires IsDigit(c)
    ensures d < 10
    ensures DigitChar(d) == c
  {
    c as int - '0' as int
  }

  /** Shortest base-10 rendering of `n`, most significant digit first. */
  function Render(n: nat): (s: string)
    ensures |s| > 0 && AllDigits(s)
    ensures |s| > 1 ==> s[0] != '0'
  {
    if n < 10 then [DigitChar(n)] else Render(n / 10) + [DigitChar(n % 10)]
  }

  /** The value of a string of decimal digits; the empty string reads as zero. */
  function Parse(s: string): (n: nat)
    requires AllDigits(s)
  {
    if s == [] then 0 else 10 * Parse(s[..|s| - 1]) + DigitValue(s[|s| - 1])
  }

  /** Parsing a rendered number gives the number back. */
  lemma {:induction false} ParseRender(n: nat)
    ensures Parse(Render(n)) == n
  {
    var s := Render(n);
    if n >= 10 {
      assert s[..|s| - 1] == Render(n / 10);
      ParseRender(n / 10);
    }
  }

  /** Rendering the value of a canonical digit string (non-empty, no leading zero) gives the string back. */
  lemma {:induction false} RenderParse(s: string)
    requires |s| > 0 && AllDigits(s)
    requires |s| > 1 ==> s[0] != '0'
    ensures Render(Parse(s)) == s
    decreases |s|
  {
    var init := s[..|s| - 1];
    if |s| == 1 {
      assert Parse(s) == DigitValue(s[0]);
    } else {
      assert init[0] == s[0];
      RenderParse(init);
      LeadingDigitBound(init);
      var n := Parse(s);
      assert n == 10 * Parse(init) + DigitValue(s[|s| - 1]);
      assert n / 10 == Parse(init) && n % 10 == DigitValue(s[|s| - 1]);
      assert Render(n) == Render(Parse(init)) + [DigitChar(DigitValue(s[|s| - 1]))];
    }
  }

  /** A canonical digit string of two or more digits has a positive value. */
  lemma {:induction false} LeadingDigitBound(s: string)
    requires |s| > 0 && AllDigits(s)
    requires |s| > 1 ==> s[0] != '0'
    ensures |s| > 1 ==> Parse(s) >= 10
    ensures Parse(s) > 0 || s == "0"
    decreases |s|
  {
    var init := s[..|s| - 1];
    if |s| > 1 {
      assert init[0] == s[0];
      LeadingDigitBound(init);
      if |init| == 1 {
        assert init == [s[0]];
        assert Parse(init) == DigitValue(s[0]);
      }
    } else {
      assert Parse(s) == DigitValue(s[0]);
      if Parse(s) == 0 {
        assert s[0] == DigitChar(0);
      }
    }
  }
}
