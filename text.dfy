/**
 * The JavaScript string operations the pages rely on: `toLowerCase`,
 * `toUpperCase`, `includes`, number interpolation into a template string
 * and `parseInt`. Case mapping covers the ASCII letters only.
 */
module Text {
  import opened Wrappers

  function LowerChar(c: char): char {
    if 'A' <= c <= 'Z' then (c as int + 32) as char else c
  }

  function UpperChar(c: char): char {
    if 'a' <= c <= 'z' then (c as int - 32) as char else c
  }

  /** `s.toLowerCase()` */
  function Lower(s: string): (r: string)
    ensures |r| == |s|
    ensures forall i :: 0 <= i < |s| ==> r[i] == LowerChar(s[i])
  {
    seq(|s|, i requires 0 <= i < |s| => LowerChar(s[i]))
  }

  /** `s.toUpperCase()` */
  function Upper(s: string): (r: string)
    ensures |r| == |s|
    ensures forall i :: 0 <= i < |s| ==> r[i] == UpperChar(s[i])
  {
    seq(|s|, i requires 0 <= i < |s| => UpperChar(s[i]))
  }

  /** Lower-casing twice is lower-casing once. */
  lemma LowerIdempotent(s: string)
    ensures Lower(Lower(s)) == Lower(s)
  {
  }

  /** `s.includes(t)`: `t` occurs in `s` at some position. */
  function Contains(s: string, t: string): bool
  {
    t <= s || (s != [] && Contains(s[1..], t))
  }

  /** `t` occurs in `s` starting at position `i`. */
  predicate OccursAt(s: string, t: string, i: nat) {
    i + |t| <= |s| && s[i..i + |t|] == t
  }

  /** `Contains` decides occurrence at some position. */
  lemma {:induction false} ContainsIffOccurs(s: string, t: string)
    ensures Contains(s, t) <==> exists i: nat :: OccursAt(s, t, i)
  {
    if t <= s {
      assert OccursAt(s, t, 0);
    }
    if s != [] {
      ContainsIffOccurs(s[1..], t);
      forall i: nat | OccursAt(s[1..], t, i) ensures OccursAt(s, t, i + 1) {
        assert s[1..][i..i + |t|] == s[i + 1..i + 1 + |t|];
      }
      forall i: nat | 1 <= i && OccursAt(s, t, i) ensures OccursAt(s[1..], t, i - 1) {
        assert s[1..][i - 1..i - 1 + |t|] == s[i..i + |t|];
      }
    }
    if exists i: nat :: OccursAt(s, t, i) {
      var i: nat :| OccursAt(s, t, i);
      if i == 0 {
        assert t <= s;
      } else {
        assert OccursAt(s[1..], t, i - 1);
      }
    }
  }

  /** `ilike` against `%t%` without wildcards: `t` occurs in `s` when both are lower-cased. */
  predicate ContainsIgnoringCase(s: string, t: string) {
    Contains(Lower(s), Lower(t))
  }

  predicate IsDigit(c: char) {
    '0' <= c <= '9'
  }

  predicate AllDigits(s: string) {
    forall i :: 0 <= i < |s| ==> IsDigit(s[i])
  }

  function DigitChar(d: nat): (c: char)
    requires d < 10
    ensures IsDigit(c)
  {
    ('0' as int + d) as char
  }

  function DigitValue(c: char): (d: nat)
    requires IsDigit(c)
    ensures d < 10
  {
    c as int - '0' as int
  }

  /** The text of `n` in a template string: its decimal digits, without leading zeros. */
  function DecimalString(n: nat): (r: string)
    ensures |r| >= 1 && AllDigits(r)
    ensures |r| > 1 ==> r[0] != '0'
  {
    if n < 10 then [DigitChar(n)] else DecimalString(n / 10) + [DigitChar(n % 10)]
  }

  /** The number a string of decimal digits denotes. */
  function DecimalValue(s: string): nat
    requires AllDigits(s)
  {
    if s == [] then 0 else DecimalValue(s[..|s| - 1]) * 10 + DigitValue(s[|s| - 1])
  }

  /** Reading back the decimal text of a number gives the number. */
  lemma {:induction false} DecimalRoundTrip(n: nat)
    ensures DecimalValue(DecimalString(n)) == n
  {
    var s := DecimalString(n);
    if n >= 10 {
      DecimalRoundTrip(n / 10);
      assert s[..|s| - 1] == DecimalString(n / 10);
    }
  }

  /** The longest prefix of `s` made of decimal digits. */
  function LeadingDigits(s: string): (r: string)
    ensures r <= s && AllDigits(r)
    ensures |r| < |s| ==> !IsDigit(s[|r|])
  {
    if s != [] && IsDigit(s[0]) then [s[0]] + LeadingDigits(s[1..]) else []
  }

  /**
   * `parseInt(s)` in base 10: an optional sign followed by the longest run of
   * digits; `None` stands for `NaN`, the result when no digit follows.
   */
  function ParseInt(s: string): (r: Option<int>)
    ensures r.None? <==> LeadingDigits(if s != [] && (s[0] == '-' || s[0] == '+') then s[1..] else s) == []
  {
    var negative := s != [] && s[0] == '-';
    var rest := if s != [] && (s[0] == '-' || s[0] == '+') then s[1..] else s;
    var digits := LeadingDigits(rest);
    if digits == [] then None
    else
      var magnitude: int := DecimalValue(digits);
      Some(if negative then -magnitude else magnitude)
  }

  /** `parseInt` reads back the decimal text of any natural number. */
  lemma {:induction false} ParseIntDecimal(n: nat)
    ensures ParseInt(DecimalString(n)) == Some(n)
  {
    var s := DecimalString(n);
    AllDigitsLeading(s);
    DecimalRoundTrip(n);
  }

  /** `parseInt` stops at the first non-digit: the number's text followed by other text reads as the number. */
  lemma ParseIntStopsAtNonDigit(n: nat, t: string)
    requires t == [] || !IsDigit(t[0])
    ensures ParseInt(DecimalString(n) + t) == Some(n)
    ensures ParseInt("+" + (DecimalString(n) + t)) == Some(n)
  {
    DecimalRoundTrip(n);
    ParseIntSignedDigits(DecimalString(n), t);
  }

  /** A leading minus sign negates what follows it. */
  lemma ParseIntNegative(n: nat, t: string)
    requires t == [] || !IsDigit(t[0])
    ensures ParseInt("-" + (DecimalString(n) + t)) == Some(-(n as int))
  {
    DecimalRoundTrip(n);
    ParseIntSignedDigits(DecimalString(n), t);
  }

  /** Digits after an optional sign, then a non-digit: the digits' value, negated after '-'. */
  lemma ParseIntSignedDigits(d: string, t: string)
    requires d != [] && AllDigits(d)
    requires t == [] || !IsDigit(t[0])
    ensures ParseInt(d + t) == Some(DecimalValue(d))
    ensures ParseInt("+" + (d + t)) == Some(DecimalValue(d))
    ensures ParseInt("-" + (d + t)) == Some(-(DecimalValue(d) as int))
  {
    ParseIntUnsigned(d, t);
    var u := d + t;
    assert u[0] == d[0];
    ParseIntSign(u);
  }

  /** A sign before unsigned digits: '+' keeps the number and '-' negates it. */
  lemma ParseIntSign(u: string)
    requires u != [] && IsDigit(u[0])
    ensures ParseInt(u).Some?
    ensures ParseInt("+" + u) == ParseInt(u)
    ensures ParseInt("-" + u) == Some(-ParseInt(u).value)
  {
    assert u[0] != '-' && u[0] != '+';
    var digits := LeadingDigits(u);
    assert digits != [];
    var plus := "+" + u;
    var minus := "-" + u;
    assert plus[0] == '+' && plus[1..] == u;
    assert minus[0] == '-' && minus[1..] == u;
  }

  /** Unsigned digits followed by a non-digit: the digits are what is read. */
  lemma ParseIntUnsigned(d: string, t: string)
    requires d != [] && AllDigits(d)
    requires t == [] || !IsDigit(t[0])
    ensures LeadingDigits(d + t) == d
    ensures ParseInt(d + t) == Some(DecimalValue(d))
  {
    LeadingDigitsBeforeNonDigit(d, t);
    assert (d + t)[0] == d[0];
  }

  /** The digit run of `d + t` is `d` when `t` does not continue it. */
  lemma {:induction false} LeadingDigitsBeforeNonDigit(d: string, t: string)
    requires AllDigits(d)
    requires t == [] || !IsDigit(t[0])
    ensures LeadingDigits(d + t) == d
  {
    if d == [] {
      assert d + t == t;
    } else {
      assert (d + t)[1..] == d[1..] + t;
      LeadingDigitsBeforeNonDigit(d[1..], t);
    }
  }

  /** A string of digits is its own longest digit prefix. */
  lemma {:induction false} AllDigitsLeading(s: string)
    requires AllDigits(s)
    ensures LeadingDigits(s) == s
  {
    if s != [] {
      AllDigitsLeading(s[1..]);
    }
  }
}
