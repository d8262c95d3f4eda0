/** The percentage-field normalisation that the create form and the edit drawer
    both apply to raw input text before it reaches the split store:
    strip every non-digit, read what is left as a decimal number (empty text
    counts as 0) and clamp it to [0, 100]. */
module Percent {
  import Seqs
  import Ints

  predicate IsDigit(c: char) {
    '0' <= c <= '9'
  }

  function DigitValue(c: char): nat {
    if IsDigit(c) then c as int - '0' as int else 0
  }

  function DigitChar(d: nat): char
    requires d < 10
  {
    ('0' as int + d) as char
  }

  /** `text.replace(/[^0-9]/g, "")` */
  function Digits(text: string): (ds: string)
    ensures forall i :: 0 <= i < |ds| ==> IsDigit(ds[i])
  {
    Seqs.Filter(text, IsDigit)
  }

  /** `Number(ds)` for a string of decimal digits. */
  function DecimalValue(ds: string): nat
    decreases |ds|
  {
    if ds == [] then 0 else 10 * DecimalValue(ds[..|ds| - 1]) + DigitValue(ds[|ds| - 1])
  }

  /** The decimal text a number is displayed as in a numeric input. */
  function Render(n: nat): (s: string)
    ensures s != []
    ensures forall i :: 0 <= i < |s| ==> IsDigit(s[i])
    decreases n
  {
    if n < 10 then [DigitChar(n)] else Render(n / 10) + [DigitChar(n % 10)]
  }

  predicate InRange(p: int) {
    0 <= p <= 100
  }

  /** The value stored for raw input `text`: always an integer in [0, 100];
      the digits of `text` read as a number when that is at most 100, and 100
      when it is larger. */
  function Normalize(text: string): (n: int)
    ensures InRange(n)
    ensures Digits(text) == [] ==> n == 0
    ensures DecimalValue(Digits(text)) <= 100 ==> n == DecimalValue(Digits(text))
    ensures DecimalValue(Digits(text)) > 100 ==> n == 100
  {
    var value := Digits(text);
    if value == [] then 0 else Ints.Min(100, Ints.Max(0, DecimalValue(value)))
  }

  /** Text without a single digit normalises to 0. */
  lemma NoDigitsGivesZero(text: string)
    requires forall i :: 0 <= i < |text| ==> !IsDigit(text[i])
    ensures Normalize(text) == 0
  {
    Seqs.FilterDropsAll(text, IsDigit);
  }

  /** A non-digit character anywhere in the input has no effect on the result. */
  lemma NonDigitIgnored(before: string, c: char, after: string)
    requires !IsDigit(c)
    ensures Normalize(before + [c] + after) == Normalize(before + after)
  {
    Seqs.FilterAppend(before + [c], after, IsDigit);
    Seqs.FilterAppend(before, [c], IsDigit);
    Seqs.FilterAppend(before, after, IsDigit);
    assert [c][1..] == [];
    assert Seqs.Filter([c], IsDigit) == [];
    assert Digits(before + [c] + after) == Digits(before) + Digits(after);
  }

  /** Only the digits of the input matter. */
  lemma OnlyDigitsMatter(text: string)
    ensures Normalize(text) == Normalize(Digits(text))
  {
    Seqs.FilterKeepsAll(Digits(text), IsDigit);
  }

  lemma {:induction false} DecimalValueOfRender(n: nat)
    ensures DecimalValue(Render(n)) == n
    decreases n
  {
    if n >= 10 {
      var s := Render(n);
      assert s[..|s| - 1] == Render(n / 10);
      DecimalValueOfRender(n / 10);
    }
  }

  /** Round trip: a percentage in [0, 100], displayed and read back from the
      field, is the same percentage. */
  lemma NormalizeRender(n: nat)
    requires n <= 100
    ensures Normalize(Render(n)) == n
  {
    Seqs.FilterKeepsAll(Render(n), IsDigit);
    DecimalValueOfRender(n);
  }

  /** Normalising the displayed value of a normalised input changes nothing. */
  lemma NormalizeStable(text: string)
    ensures Normalize(Render(Normalize(text))) == Normalize(text)
  {
    NormalizeRender(Normalize(text));
  }
}
