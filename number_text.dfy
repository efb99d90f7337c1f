/**
 * The two number conversions the pitch code relies on: JavaScript's
 * `Number(text)` applied to octave text matching `-?[0-9]*`, and the
 * rendering of an integer inside a template literal.
 */
module NumberText {
  import opened Wrappers

  predicate IsDigit(c: char) {
    '0' <= c <= '9'
  }

  predicate AllDigits(s: string) {
    forall i :: 0 <= i < |s| ==> IsDigit(s[i])
  }

  /** The text the octave group `-?[0-9]*` accepts. */
  predicate IsOctaveText(s: string) {
    if |s| > 0 && s[0] == '-' then AllDigits(s[1..]) else AllDigits(s)
  }

  /** Decimal value of a run of digits (leading zeros allowed). */
  function DigitsValue(s: string): nat
    requires AllDigits(s)
  {
    if s == [] then 0
    else 10 * DigitsValue(s[..|s| - 1]) + (s[|s| - 1] as int - '0' as int)
  }

  /**
   * `Number(s)` for octave text: the empty text is 0, a lone minus sign is
   * NaN (no integer, `None`), otherwise the signed decimal value.
   */
  function NumberOf(s: string): (r: Option<int>)
    requires IsOctaveText(s)
    ensures r.None? <==> s == "-"
    ensures r.Some? && |s| > 0 && s[0] != '-' ==> r.value >= 0
  {
    if |s| > 0 && s[0] == '-' then
      if |s| == 1 then None else Some(-(DigitsValue(s[1..]) as int))
    else
      Some(DigitsValue(s))
  }

  function DigitChar(d: nat): char
    requires d < 10
  {
    ('0' as int + d) as char
  }

  /** Decimal digits of a natural number, most significant first. */
  function NatText(n: nat): (t: string)
    ensures |t| >= 1 && AllDigits(t)
    ensures |t| > 1 ==> t[0] != '0'
    ensures DigitsValue(t) == n
    decreases n
  {
    if n < 10 then [DigitChar(n)]
    else
      var init := NatText(n / 10);
      var t := init + [DigitChar(n % 10)];
      assert t[..|t| - 1] == init;
      t
  }

  /**
   * An integer as a template literal renders it when its magnitude is below
   * 2^53: an optional minus sign, then the digits with no leading zero.
   * From 2^53 on JavaScript writes the shortest digits that identify the
   * double, padded with zeros, and from 10^21 on exponent form (`1e+21`);
   * this function writes the exact digits throughout.
   */
  function IntText(n: int): (t: string)
    ensures IsOctaveText(t) && t != "" && t != "-"
    ensures NumberOf(t) == Some(n)
    ensures t[0] == '-' <==> n < 0
  {
    if n < 0 then
      var digits := NatText(-n);
      var t := "-" + digits;
      assert t[1..] == digits;
      t
    else
      NatText(n)
  }
}
