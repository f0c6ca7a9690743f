/** Decimal text of the millisecond clock.

    The create handler writes `Date.now()` into a template literal, which renders
    the non-negative integer as its shortest decimal numeral. `Format` is that
    rendering; `Parse` reads a numeral back and is its inverse, which is what
    makes the generated identifiers decodable. */
module Decimal {

  predicate IsDigit(c: char) {
    '0' <= c <= '9'
  }

  predicate AllDigits(s: string) {
    forall i :: 0 <= i < |s| ==> IsDigit(s[i])
  }

  /** The shortest numeral: non-empty, digits only, no leading zero except "0" itself. */
  predicate IsCanonical(s: string) {
    |s| > 0 && AllDigits(s) && (s[0] == '0' ==> |s| == 1)
  }

  function DigitChar(d: nat): (c: char)
    requires d < 10
    ensures IsDigit(c)
    ensures c as int - '0' as int == d
  {
    ('0' as int + d) as char
  }

  function DigitValue(c: char): (d: nat)
    requires IsDigit(c)
    ensures d < 10
    ensures DigitChar(d) == c
  {
    c as int - '0' as int
  }

  /** `${n}` for a non-negative integer n. */
  function Format(n: nat): (s: string)
    ensures IsCanonical(s)
    ensures n > 0 ==> s[0] != '0'
  {
    if n < 10 then [DigitChar(n)] else Format(n / 10) + [DigitChar(n % 10)]
  }

  /** The value of a numeral, most significant digit first. */
  function Parse(s: string): (n: nat)
    requires AllDigits(s)
  {
    if s == [] then 0 else Parse(s[..|s| - 1]) * 10 + DigitValue(s[|s| - 1])
  }

  lemma {:induction false} ParseFormat(n: nat)
    ensures Parse(Format(n)) == n
  {
    if n >= 10 {
      var s := Format(n);
      assert s[..|s| - 1] == Format(n / 10);
      ParseFormat(n / 10);
    }
  }

  /** A numeral without leading zeros has value zero only if it is "0". */
  lemma {:induction false} ParseZero(s: string)
    requires AllDigits(s) && |s| > 0 && s[0] != '0'
    ensures Parse(s) > 0
  {
    if |s| > 1 {
      ParseZero(s[..|s| - 1]);
    } else {
      assert DigitValue(s[0]) != 0;
    }
  }

  /** Every canonical numeral is the rendering of its value. */
  lemma {:induction false} FormatParse(s: string)
    requires IsCanonical(s)
    ensures Format(Parse(s)) == s
  {
    var last := s[|s| - 1];
    var init := s[..|s| - 1];
    if |s| == 1 {
      assert s == [last];
      assert Parse(s) == DigitValue(last) by { assert init == []; }
    } else {
      assert IsCanonical(init);
      ParseZero(init);
      FormatParse(init);
      var n := Parse(s);
      assert n == Parse(init) * 10 + DigitValue(last);
      assert n / 10 == Parse(init) && n % 10 == DigitValue(last);
      assert s == init + [last];
    }
  }

  /** Distinct clock readings give distinct numerals. */
  lemma FormatInjective(m: nat, n: nat)
    ensures Format(m) == Format(n) <==> m == n
  {
    if Format(m) == Format(n) {
      ParseFormat(m);
      ParseFormat(n);
    }
  }
}
