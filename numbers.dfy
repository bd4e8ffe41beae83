/** Python's `float(str)` and `int(str)` over a signed-decimal grammar: surrounding
    whitespace, an optional sign, then digits with at most one decimal point
    (`float` also reads `nan`, in any case). A token is read over an index range
    `[lo, hi)`, so a sign is skipped by position rather than by slicing. */
module Numbers {
  import opened Values
  import opened Strings

  function DigitValue(c: char): nat
    requires IsDigit(c)
  {
    c as int - '0' as int
  }

  function Pow10(n: nat): (r: nat)
    ensures r >= 1
  {
    if n == 0 then 1 else 10 * Pow10(n - 1)
  }

  /** Number of `.` in `t[lo..hi]`. */
  function Dots(t: string, lo: nat, hi: nat): nat
    requires lo <= hi <= |t|
    decreases hi - lo
  {
    if hi == lo then 0 else Dots(t, lo, hi - 1) + (if t[hi - 1] == '.' then 1 else 0)
  }

  /** Number of digits in `t[lo..hi]`. */
  function DigitCount(t: string, lo: nat, hi: nat): nat
    requires lo <= hi <= |t|
    decreases hi - lo
  {
    if hi == lo then 0 else DigitCount(t, lo, hi - 1) + (if IsDigit(t[hi - 1]) then 1 else 0)
  }

  /** The number spelt by the digits of `t[lo..hi]`, read across any `.`. */
  function DigitsValue(t: string, lo: nat, hi: nat): nat
    requires lo <= hi <= |t|
    decreases hi - lo
  {
    if hi == lo then 0
    else if IsDigit(t[hi - 1]) then DigitsValue(t, lo, hi - 1) * 10 + DigitValue(t[hi - 1])
    else DigitsValue(t, lo, hi - 1)
  }

  /** Number of characters after the `.` in `t[lo..hi]` (0 when there is none). */
  function FractionLength(t: string, lo: nat, hi: nat): nat
    requires lo <= hi <= |t|
    decreases hi - lo
  {
    if hi == lo || t[hi - 1] == '.' then 0
    else if Dots(t, lo, hi - 1) > 0 then FractionLength(t, lo, hi - 1) + 1
    else 0
  }

  /** `t[lo..hi]` is digits with at most one `.` and at least one digit: `12`, `12.5`,
      `.5`, `5.`. */
  predicate DecimalIn(t: string, lo: nat, hi: nat)
    requires lo <= hi <= |t|
  {
    && (forall i :: lo <= i < hi ==> IsDigit(t[i]) || t[i] == '.')
    && Dots(t, lo, hi) <= 1
    && DigitCount(t, lo, hi) >= 1
  }

  /** The decimal's value: its digits as one integer, shifted right by the length of
      the fraction. */
  function DecimalValueIn(t: string, lo: nat, hi: nat): (v: real)
    requires lo <= hi <= |t|
    ensures v >= 0.0
  {
    DigitsValue(t, lo, hi) as real / Pow10(FractionLength(t, lo, hi)) as real
  }

  predicate IsDecimal(t: string) { DecimalIn(t, 0, |t|) }

  function DecimalValue(t: string): (v: real)
    ensures v >= 0.0
  {
    DecimalValueIn(t, 0, |t|)
  }

  lemma {:induction false} CountsBounded(t: string, lo: nat, hi: nat)
    requires lo <= hi <= |t|
    ensures DigitCount(t, lo, hi) <= hi - lo
    decreases hi - lo
  {
    if hi > lo { CountsBounded(t, lo, hi - 1); }
  }

  /** A decimal is non-empty and made of digits and `.` only. */
  lemma DecimalChars(t: string)
    requires IsDecimal(t)
    ensures |t| > 0
    ensures forall i :: 0 <= i < |t| ==> IsDigit(t[i]) || t[i] == '.'
  {
    CountsBounded(t, 0, |t|);
  }

  /** Where the body of a stripped token starts: after a leading `-` or `+`. */
  function BodyStart(t: string): (lo: nat)
    ensures lo <= |t|
  {
    if |t| > 0 && (t[0] == '-' || t[0] == '+') then 1 else 0
  }

  /** `nan` in any mix of cases, starting at `lo` and ending the token. */
  predicate NanAt(t: string, lo: nat) {
    |t| == lo + 3 && t[lo] in {'n', 'N'} && t[lo + 1] in {'a', 'A'} && t[lo + 2] in {'n', 'N'}
  }

  /** `float(s)`: `Ok(Num(v))`, `Ok(Missing)` for a NaN spelling, `Fail(ValueError)` otherwise. */
  function PyFloat(s: string): (r: Result<Value>)
    ensures r.Ok? ==> r.value.Num? || r.value.Missing?
    ensures r.Fail? ==> r.error == ValueError
  {
    var t := Strip(s);
    var lo := BodyStart(t);
    if NanAt(t, lo) then Ok(Missing)
    else if DecimalIn(t, lo, |t|) then
      var v := DecimalValueIn(t, lo, |t|);
      Ok(Num(if lo == 1 && t[0] == '-' then -v else v))
    else Fail(ValueError)
  }

  /** `t[lo..hi]` is a non-empty run of digits. */
  predicate DigitsIn(t: string, lo: nat, hi: nat)
    requires lo <= hi <= |t|
  {
    lo < hi && forall i :: lo <= i < hi ==> IsDigit(t[i])
  }

  /** `int(s)` on a string: an optional sign, then digits only. */
  function PyInt(s: string): (r: Result<int>)
    ensures r.Fail? ==> r.error == ValueError
  {
    var t := Strip(s);
    var lo := BodyStart(t);
    if DigitsIn(t, lo, |t|) then
      var v := DigitsValue(t, lo, |t|) as int;
      Ok(if lo == 1 && t[0] == '-' then -v else v)
    else Fail(ValueError)
  }

  /** Prefixing one character shifts every range count by one position. */
  lemma {:induction false} Shifted(c: char, d: string, hi: nat)
    requires hi <= |d|
    ensures Dots([c] + d, 1, hi + 1) == Dots(d, 0, hi)
    ensures DigitCount([c] + d, 1, hi + 1) == DigitCount(d, 0, hi)
    ensures DigitsValue([c] + d, 1, hi + 1) == DigitsValue(d, 0, hi)
    ensures FractionLength([c] + d, 1, hi + 1) == FractionLength(d, 0, hi)
    decreases hi
  {
    if hi > 0 {
      Shifted(c, d, hi - 1);
      assert ([c] + d)[hi] == d[hi - 1];
    }
  }

  /** `float()` reads every unsigned decimal as its value and every `-`-signed one as
      the negated value. */
  lemma PyFloatDecimal(d: string)
    requires IsDecimal(d)
    ensures PyFloat(d) == Ok(Num(DecimalValue(d)))
    ensures PyFloat("-" + d) == Ok(Num(-DecimalValue(d)))
  {
    PyFloatUnsigned(d);
    PyFloatNegated(d);
  }

  lemma PyFloatUnsigned(d: string)
    requires IsDecimal(d)
    ensures PyFloat(d) == Ok(Num(DecimalValue(d)))
  {
    DecimalChars(d);
    StripCharsNoop(d, Whitespace);
    assert BodyStart(d) == 0;
    assert !NanAt(d, 0);
  }

  lemma PyFloatNegated(d: string)
    requires IsDecimal(d)
    ensures PyFloat("-" + d) == Ok(Num(-DecimalValue(d)))
  {
    DecimalChars(d);
    var x := "-" + d;
    assert x[|x| - 1] == d[|d| - 1];
    StripCharsNoop(x, Whitespace);
    assert BodyStart(x) == 1;
    assert !NanAt(x, 1) by { assert x[1] == d[0]; }
    Shifted('-', d, |d|);
    assert DecimalIn(x, 1, |x|) by {
      forall i | 1 <= i < |x| ensures IsDigit(x[i]) || x[i] == '.' {
        assert x[i] == d[i - 1];
      }
    }
  }

  /** `int()` reads a digit string as its value; `float()` agrees with it. */
  lemma PyIntDigits(d: string)
    requires IsDigits(d)
    ensures PyInt(d) == Ok(DigitsValue(d, 0, |d|) as int)
    ensures IsDecimal(d) && DecimalValue(d) == DigitsValue(d, 0, |d|) as real
  {
    PyIntOfDigits(d);
    DigitsDecimal(d);
  }

  lemma PyIntOfDigits(d: string)
    requires IsDigits(d)
    ensures PyInt(d) == Ok(DigitsValue(d, 0, |d|) as int)
  {
    DigitsStripped(d);
    PyIntUnsigned(d);
  }

  lemma DigitsStripped(d: string)
    requires IsDigits(d)
    ensures Strip(d) == d && BodyStart(d) == 0 && DigitsIn(d, 0, |d|)
  {
    StripCharsNoop(d, Whitespace);
  }

  lemma PyIntUnsigned(t: string)
    requires Strip(t) == t && BodyStart(t) == 0 && DigitsIn(t, 0, |t|)
    ensures PyInt(t) == Ok(DigitsValue(t, 0, |t|) as int)
  {
  }

  lemma DigitsDecimal(d: string)
    requires IsDigits(d)
    ensures IsDecimal(d) && DecimalValue(d) == DigitsValue(d, 0, |d|) as real
  {
    NoDots(d, |d|);
    SomeDigit(d, |d|);
  }

  lemma {:induction false} NoDots(d: string, hi: nat)
    requires hi <= |d| && AllDigits(d)
    ensures Dots(d, 0, hi) == 0 && FractionLength(d, 0, hi) == 0
    decreases hi
  {
    if hi > 0 { NoDots(d, hi - 1); }
  }

  lemma {:induction false} SomeDigit(d: string, hi: nat)
    requires 0 < hi <= |d| && AllDigits(d)
    ensures DigitCount(d, 0, hi) >= 1
    decreases hi
  {
    if hi > 1 { SomeDigit(d, hi - 1); }
  }
}
