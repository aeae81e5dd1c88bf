/** The operand grammar of the four formula shapes: the regular expression
    `\d+(\.\d+)?`, an unsigned decimal with an optional fractional part and no
    sign or exponent, recognised greedily as `re.match` does, and its value
    as `float()` reads it (exactly, over the reals). */
module Decimals {
  import opened Wrappers

  predicate IsDigit(c: char) {
    '0' <= c <= '9'
  }

  predicate AllDigits(s: string) {
    forall i :: 0 <= i < |s| ==> IsDigit(s[i])
  }

  /** A numeral as written: the digits before the point and those after it
      (`frac == []` when there is no fractional part). */
  datatype Decimal = Decimal(whole: string, frac: string)

  /** Only numerals the grammar can produce: at least one integer digit, and
      digits only on both sides of the point. */
  predicate ValidDecimal(d: Decimal) {
    |d.whole| > 0 && AllDigits(d.whole) && AllDigits(d.frac)
  }

  /** The text of a numeral. */
  function Render(d: Decimal): string {
    d.whole + (if d.frac == [] then [] else ['.'] + d.frac)
  }

  /** The rest of the text after a numeral cannot lengthen it: no further
      digit, and no `.digit` when the numeral has no fractional part yet. */
  predicate Maximal(d: Decimal, rest: string) {
    && (rest == [] || !IsDigit(rest[0]))
    && (d.frac == [] ==> !(|rest| >= 2 && rest[0] == '.' && IsDigit(rest[1])))
  }

  /** The value of a string of decimal digits. */
  function DigitsValue(s: string): nat
    requires AllDigits(s)
  {
    if s == [] then 0
    else 10 * DigitsValue(s[..|s| - 1]) + (s[|s| - 1] as int - '0' as int)
  }

  function Pow10(k: nat): (r: nat)
    ensures r > 0
  {
    if k == 0 then 1 else 10 * Pow10(k - 1)
  }

  /** The value of a numeral: its integer digits plus its fraction digits
      divided by ten to the number of fraction digits. */
  function Value(d: Decimal): (v: real)
    requires ValidDecimal(d)
    ensures v >= 0.0
    ensures v == 0.0 <==> DigitsValue(d.whole) == 0 && DigitsValue(d.frac) == 0
  {
    var w, f, p := DigitsValue(d.whole), DigitsValue(d.frac), Pow10(|d.frac|);
    FractionFacts(f, p);
    w as real + f as real / p as real
  }

  lemma FractionFacts(n: nat, p: nat)
    requires p > 0
    ensures n as real / p as real >= 0.0
    ensures n as real / p as real == 0.0 <==> n == 0
  {
    if n > 0 {
      assert n as real / p as real > 0.0;
    }
  }

  /** The longest prefix of s made of digits, and what follows it. */
  function SplitDigits(s: string): (r: (string, string))
    ensures r.0 + r.1 == s
    ensures AllDigits(r.0)
    ensures r.1 == [] || !IsDigit(r.1[0])
  {
    if s != [] && IsDigit(s[0]) then
      var (digits, rest) := SplitDigits(s[1..]);
      assert s == [s[0]] + s[1..];
      ([s[0]] + digits, rest)
    else
      ([], s)
  }

  /** `re.match(r'\d+(\.\d+)?', s)`: the numeral at the start of s, taken as
      long as possible, and the text after it; None when s does not start
      with a digit. */
  function Scan(s: string): (r: Option<(Decimal, string)>)
    ensures r.None? <==> s == [] || !IsDigit(s[0])
    ensures r.Some? ==> ValidDecimal(r.value.0) && Maximal(r.value.0, r.value.1)
    ensures r.Some? ==> s == Render(r.value.0) + r.value.1
  {
    var (whole, rest) := SplitDigits(s);
    if whole == [] then
      None
    else if |rest| >= 2 && rest[0] == '.' && IsDigit(rest[1]) then
      var (frac, after) := SplitDigits(rest[1..]);
      assert rest == ['.'] + frac + after;
      Some((Decimal(whole, frac), after))
    else
      Some((Decimal(whole, []), rest))
  }

  /** SplitDigits finds exactly the digits a run of digits was built from. */
  lemma {:induction false} SplitDigitsOf(digits: string, rest: string)
    requires AllDigits(digits)
    requires rest == [] || !IsDigit(rest[0])
    ensures SplitDigits(digits + rest) == (digits, rest)
  {
    if digits == [] {
      assert digits + rest == rest;
    } else {
      assert (digits + rest)[0] == digits[0];
      assert (digits + rest)[1..] == digits[1..] + rest;
      SplitDigitsOf(digits[1..], rest);
      assert [digits[0]] + digits[1..] == digits;
    }
  }

  /** Scanning the text of a numeral followed by text that cannot extend it
      gives back that numeral and that text. */
  lemma ScanRender(d: Decimal, rest: string)
    requires ValidDecimal(d) && Maximal(d, rest)
    ensures Scan(Render(d) + rest) == Some((d, rest))
  {
    if d.frac == [] {
      assert Render(d) + rest == d.whole + rest;
      SplitDigitsOf(d.whole, rest);
    } else {
      var tail := ['.'] + d.frac + rest;
      assert Render(d) + rest == d.whole + tail;
      SplitDigitsOf(d.whole, tail);
      assert tail[1..] == d.frac + rest;
      SplitDigitsOf(d.frac, rest);
    }
  }

  /** The text of a numeral starts with a digit. */
  lemma RenderStartsWithDigit(d: Decimal)
    requires ValidDecimal(d)
    ensures |Render(d)| > 0 && IsDigit(Render(d)[0])
  {
  }
}
