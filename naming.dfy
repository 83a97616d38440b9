/**
 * The names of the output files: the i-th rectangle (counting from zero) is
 * written to `cropped_region_{i+1}.jpg`, its 1-based position in plain decimal.
 */
module Naming {

  const Prefix: string := "cropped_region_"
  const Suffix: string := ".jpg"

  predicate IsDigit(c: char)
  {
    '0' <= c <= '9'
  }

  predicate AllDigits(s: string)
  {
    forall k :: 0 <= k < |s| ==> IsDigit(s[k])
  }

  function DigitChar(d: nat): (c: char)
    requires d < 10
    ensures IsDigit(c) && c as int - '0' as int == d
  {
    ('0' as int + d) as char
  }

  /** The decimal form of `n`, as Python's str(int) writes it: no sign and no leading zero. */
  function Decimal(n: nat): (s: string)
    ensures |s| >= 1 && AllDigits(s)
    ensures |s| > 1 ==> s[0] != '0'
    decreases n
  {
    if n < 10 then [DigitChar(n)] else Decimal(n / 10) + [DigitChar(n % 10)]
  }

  /** The number a string of decimal digits denotes. */
  function DigitsValue(s: string): nat
    requires AllDigits(s)
  {
    if s == [] then 0
    else 10 * DigitsValue(s[..|s| - 1]) + (s[|s| - 1] as int - '0' as int)
  }

  /** Reading back the decimal form of `n` gives `n`. */
  lemma {:induction false} DecimalRoundTrip(n: nat)
    ensures DigitsValue(Decimal(n)) == n
    decreases n
  {
    if n >= 10 {
      var s := Decimal(n);
      assert s[..|s| - 1] == Decimal(n / 10);
      DecimalRoundTrip(n / 10);
    }
  }

  lemma DecimalInjective(m: nat, n: nat)
    requires Decimal(m) == Decimal(n)
    ensures m == n
  {
    DecimalRoundTrip(m);
    DecimalRoundTrip(n);
  }

  /** The file the rectangle at 0-based index `i` is written to. */
  function FileName(i: nat): (name: string)
    ensures |name| > |Prefix| + |Suffix|
    ensures name[..|Prefix|] == Prefix
    ensures name[|name| - |Suffix|..] == Suffix
    ensures name[|Prefix|..|name| - |Suffix|] == Decimal(i + 1)
  {
    Prefix + Decimal(i + 1) + Suffix
  }

  /** Distinct rectangles never share an output file. */
  lemma FileNameInjective(i: nat, j: nat)
    requires FileName(i) == FileName(j)
    ensures i == j
  {
    DecimalInjective(i + 1, j + 1);
  }

  lemma FileNameExamples()
    ensures FileName(0) == "cropped_region_1.jpg"
    ensures FileName(11) == "cropped_region_12.jpg"
  {
  }
}
