/** The token cleaner `clean` (tdscraper.py:64-114): one scraped text token becomes a
    number, a date or NaN through a fixed chain of rewrites. */
module Cleaner {
  import opened Values
  import opened Strings
  import opened Numbers

  /** `re.split('/|-|, ', s)`: the pieces between the delimiters `/`, `-` and `, `. Read
      from the right; the delimiters cannot overlap, so the pieces are those of the
      left-to-right scan. */
  function SplitDelims(s: string): (r: seq<string>)
    ensures |r| >= 1
  {
    SplitDelimsUpTo(s, |s|)
  }

  function SplitDelimsUpTo(s: string, hi: nat): (r: seq<string>)
    requires hi <= |s|
    ensures |r| >= 1
    decreases hi
  {
    if hi == 0 then [""]
    else
      var last := s[hi - 1];
      if last == '/' || last == '-' then SplitDelimsUpTo(s, hi - 1) + [""]
      else if last == ' ' && hi >= 2 && s[hi - 2] == ',' then SplitDelimsUpTo(s, hi - 2) + [""]
      else
        var init := SplitDelimsUpTo(s, hi - 1);
        init[|init| - 1 := init[|init| - 1] + [last]]
  }

  /** The date test, made on the RAW token: the token splits on a delimiter and its
      last piece is all digits. */
  predicate DateLike(raw: string) {
    var check := SplitDelims(raw);
    |check| > 1 && IsDigits(check[|check| - 1])
  }

  /** Trim, drop thousands separators, and turn `(X)` into `-X`. */
  function Normalise(raw: string): string {
    var t := Without(Strip(raw), ',');
    if StartsWithChar(t, '(') && EndsWithChar(t, ')') then "-" + StripChars(StripChars(t, {'('}), {')'})
    else t
  }

  /** The placeholder `--` the site shows for a missing figure. */
  predicate IsDashes(y: string) { |y| == 2 && y[0] == '-' && y[1] == '-' }

  /** The multiple a suffix sets: none, `%` or `k`/`K`. */
  datatype Scale = Unit | Hundredth | Thousand

  function ScaleBy(f: real, m: Scale): real {
    match m
    case Unit => f
    case Hundredth => f / 100.0
    case Thousand => 1000.0 * f
  }

  /** A ratio whose residual is `--` leaves NaN in `x`; the next `.endswith` call on that
      float raises. */
  predicate RatioPlaceholder(raw: string) {
    var x := Normalise(raw);
    !EndsWithChar(x, '%') && EndsWithChar(x, 'x') && IsDashes(StripChars(x, {'x'}))
  }

  /** `clean(x)`: non-strings come back unchanged; a string becomes a number, a date or
      NaN, except that a ratio placeholder such as `--x` raises AttributeError. */
  function Clean(v: Value): (r: Result<Value>)
    ensures !v.Text? ==> r == Ok(v)
    ensures v.Text? ==> (r.Fail? <==> RatioPlaceholder(v.s))
    ensures r.Fail? ==> r.error == AttributeError
    ensures v.Text? && r.Ok? ==> r.value.Num? || r.value.Missing? || r.value.Date?
    ensures v.Text? && r.Ok? && r.value.Date? ==> DateLike(v.s)
  {
    match v
    case Text(raw) => CleanText(raw)
    case _ => Ok(v)
  }

  /** `clean` on a string: the normalised token and the date test on the raw token
      decide everything that follows. */
  function CleanText(raw: string): (r: Result<Value>)
    ensures r.Fail? <==> RatioPlaceholder(raw)
    ensures r.Fail? ==> r.error == AttributeError
    ensures r.Ok? ==> r.value.Num? || r.value.Missing? || r.value.Date?
    ensures r.Ok? && r.value.Date? ==> DateLike(raw)
  {
    Suffixes(Normalise(raw), DateLike(raw))
  }

  /** The percent and ratio suffixes: `%` is dropped with multiple 1/100; `x` is stripped
      and a residual `--` raises. */
  function Suffixes(x: string, dateLike: bool): (r: Result<Value>)
    ensures r.Fail? <==> !EndsWithChar(x, '%') && EndsWithChar(x, 'x') && IsDashes(StripChars(x, {'x'}))
    ensures r.Fail? ==> r.error == AttributeError
    ensures r.Ok? ==> r.value.Num? || r.value.Missing? || r.value.Date?
    ensures r.Ok? && r.value.Date? ==> dateLike
  {
    if EndsWithChar(x, '%') then AfterSuffix(Without(x, '%'), Hundredth, dateLike)
    else if EndsWithChar(x, 'x') then
      var y := StripChars(x, {'x'});
      if IsDashes(y) then Fail(AttributeError) else AfterSuffix(y, Unit, dateLike)
    else AfterSuffix(x, Unit, dateLike)
  }

  /** A `k`/`K` suffix sets the multiple to 1000 (overriding `%`); a currency sign is
      dropped; otherwise a date-like raw token goes to the date parser and is never
      multiplied; what is left is read by `float()` and scaled. */
  function AfterSuffix(x: string, m: Scale, dateLike: bool): (r: Result<Value>)
    ensures r.Ok?
    ensures r.value.Num? || r.value.Missing? || r.value.Date?
    ensures r.value.Date? <==> !HasCurrency(Thousands(x, m).0) && dateLike
  {
    var (y, m') := Thousands(x, m);
    if HasCurrency(y) then Ok(Scaled(Without(y, '$'), m'))
    else if dateLike then
      Ok(Date(if StartsWith(y, "(Unconfirmed)") then ReplaceAll(y, "(Unconfirmed) ", "") else y))
    else Ok(Scaled(y, m'))
  }

  /** `x.upper().replace('K', '')` with multiple 1000 for a `k`/`K` suffix. */
  function Thousands(x: string, m: Scale): (string, Scale) {
    if EndsWithChar(x, 'k') || EndsWithChar(x, 'K') then (Without(Upper(x), 'K'), Thousand) else (x, m)
  }

  predicate HasCurrency(y: string) {
    StartsWithChar(y, '$') || (|y| >= 2 && y[0] == '-' && y[1] == '$')
  }

  /** `--` and anything `float()` refuses become NaN; a number is scaled. */
  function Scaled(y: string, m: Scale): (r: Value)
    ensures r.Num? || r.Missing?
    ensures IsDashes(y) || PyFloat(y).Fail? ==> r == Missing
    ensures r.Num? ==> PyFloat(y).Ok? && PyFloat(y).value.Num? && r.x == ScaleBy(PyFloat(y).value.x, m)
  {
    if IsDashes(y) then Missing
    else match PyFloat(y)
      case Ok(Num(f)) => Num(ScaleBy(f, m))
      case _ => Missing
  }

  // ---------------------------------------------------------------------------
  // Numeric tokens: a decimal under each decoration the site uses cleans to the number
  // it denotes. Each proof chains one-step lemmas: the date test, the normalised token,
  // the suffix step and the final read.

  predicate NumeralChar(c: char) { IsDigit(c) || c == '.' || c == ',' }

  /** Digits, decimal point and thousands separators that read as a decimal once the
      separators are dropped, such as `1,234.5`. */
  predicate IsNumeral(body: string) {
    && (forall i :: 0 <= i < |body| ==> NumeralChar(body[i]))
    && IsDecimal(Without(body, ','))
  }

  /** `1,234.5` cleans to 1234.5. */
  lemma CleanPlain(body: string)
    requires IsNumeral(body)
    ensures Clean(Text(body)) == Ok(Num(DecimalValue(Without(body, ','))))
  {
    PlainRead(body, Without(body, ','));
  }

  /** `12.3%` cleans to 0.123. */
  lemma CleanPercent(body: string)
    requires IsNumeral(body)
    ensures Clean(Text(body + "%")) == Ok(Num(DecimalValue(Without(body, ',')) / 100.0))
  {
    PercentRead(body + "%", body, Without(body, ','));
  }

  /** `3.2x` cleans to 3.2. */
  lemma CleanRatio(body: string)
    requires IsNumeral(body)
    ensures Clean(Text(body + "x")) == Ok(Num(DecimalValue(Without(body, ','))))
  {
    RatioRead(body + "x", body, Without(body, ','));
  }

  /** `3K` and `3k` clean to 3000.0. */
  lemma CleanThousands(body: string, k: char)
    requires IsNumeral(body) && k in {'K', 'k'}
    ensures Clean(Text(body + [k])) == Ok(Num(1000.0 * DecimalValue(Without(body, ','))))
  {
    ThousandsRead(body + [k], body, Without(body, ','), k);
  }

  /** `(1,234.5)` cleans to -1234.5. */
  lemma CleanParens(body: string)
    requires IsNumeral(body)
    ensures Clean(Text("(" + body + ")")) == Ok(Num(-DecimalValue(Without(body, ','))))
  {
    ParensRead("(" + body + ")", body, Without(body, ','));
  }

  /** `-1.5` (a negative number that is not an integer) cleans to -1.5. */
  lemma CleanNegative(body: string)
    requires IsNumeral(body) && !IsDigits(body)
    ensures Clean(Text("-" + body)) == Ok(Num(-DecimalValue(Without(body, ','))))
  {
    NegativeRead("-" + body, body, Without(body, ','));
  }

  /** `$5.00` cleans to 5.0: the currency sign is dropped and the rest is read as a
      number, never as a date. */
  lemma CleanDollar(body: string)
    requires IsNumeral(body)
    ensures Clean(Text("$" + body)) == Ok(Num(DecimalValue(Without(body, ','))))
  {
    DollarRead("$" + body, body, Without(body, ','));
  }

  /** `-$5.00` cleans to -5.0. */
  lemma CleanNegativeDollar(body: string)
    requires IsNumeral(body)
    ensures Clean(Text("-$" + body)) == Ok(Num(-DecimalValue(Without(body, ','))))
  {
    NegDollarRead("-$" + body, body, Without(body, ','));
  }

  /** A negative integer such as `-5` is date-like (its raw split is ["", "5"]): it goes to
      the date parser and is neither negated nor multiplied. */
  lemma CleanNegativeInteger(digits: string)
    requires IsDigits(digits)
    ensures Clean(Text("-" + digits)) == Ok(Date("-" + digits))
  {
    DateRead("-" + digits, digits);
  }

  /** The placeholder `--` cleans to NaN. */
  lemma CleanDashes()
    ensures Clean(Text("--")) == Ok(Missing)
  {
    DashesSplit();
    NormalisedAsIs("--");
    NoSuffix("--", false);
  }

  /** The ratio placeholder `--x` makes `clean` raise instead of yielding NaN. */
  lemma CleanRatioPlaceholder()
    ensures Clean(Text("--x")) == Fail(AttributeError)
  {
    NormalisedAsIs("--x");
    RatioResidual();
    PlaceholderRead("--x");
  }

  // Reading a decorated numeral: each lemma takes the raw token and the separator-free
  // decimal as parameters tied to the numeral by its preconditions, establishes the
  // date test and the normalised token, and reads the result off the suffix chain.

  lemma PlainRead(body: string, d: string)
    requires IsNumeral(body) && d == Without(body, ',')
    ensures Clean(Text(body)) == Ok(Num(DecimalValue(d)))
  {
    NumeralNotDate(body);
    NormalisePlain(body);
    PlainChain(d);
  }

  lemma PercentRead(raw: string, body: string, d: string)
    requires IsNumeral(body) && d == Without(body, ',') && raw == body + "%"
    ensures Clean(Text(raw)) == Ok(Num(DecimalValue(d) / 100.0))
  {
    SuffixedNotDate(body, '%');
    NormaliseSuffixed(body, '%');
    PercentChain(d);
  }

  lemma RatioRead(raw: string, body: string, d: string)
    requires IsNumeral(body) && d == Without(body, ',') && raw == body + "x"
    ensures Clean(Text(raw)) == Ok(Num(DecimalValue(d)))
  {
    SuffixedNotDate(body, 'x');
    NormaliseSuffixed(body, 'x');
    RatioChain(d);
  }

  lemma ThousandsRead(raw: string, body: string, d: string, k: char)
    requires IsNumeral(body) && d == Without(body, ',') && k in {'K', 'k'} && raw == body + [k]
    ensures Clean(Text(raw)) == Ok(Num(1000.0 * DecimalValue(d)))
  {
    SuffixedNotDate(body, k);
    NormaliseSuffixed(body, k);
    ThousandsChain(d, k);
  }

  lemma ParensRead(raw: string, body: string, d: string)
    requires IsNumeral(body) && d == Without(body, ',') && raw == "(" + body + ")"
    ensures Clean(Text(raw)) == Ok(Num(-DecimalValue(d)))
  {
    ParensFacts(body);
    NegatedRead(raw, d);
  }

  lemma NegativeRead(raw: string, body: string, d: string)
    requires IsNumeral(body) && !IsDigits(body) && d == Without(body, ',') && raw == "-" + body
    ensures Clean(Text(raw)) == Ok(Num(-DecimalValue(d)))
  {
    NegatedSplit(body);
    NormalisePrefixed(body, '-');
    NegatedRead(raw, d);
  }

  /** A currency sign wins over the date test. */
  lemma DollarRead(raw: string, body: string, d: string)
    requires IsNumeral(body) && d == Without(body, ',') && raw == "$" + body
    ensures Clean(Text(raw)) == Ok(Num(DecimalValue(d)))
  {
    NormalisePrefixed(body, '$');
    DollarStep(d, DateLike(raw));
  }

  lemma NegDollarRead(raw: string, body: string, d: string)
    requires IsNumeral(body) && d == Without(body, ',') && raw == "-$" + body
    ensures Clean(Text(raw)) == Ok(Num(-DecimalValue(d)))
  {
    NormaliseNegDollar(body);
    NegDollarStep(d, DateLike(raw));
  }

  lemma DateRead(raw: string, digits: string)
    requires IsDigits(digits) && raw == "-" + digits
    ensures Clean(Text(raw)) == Ok(Date(raw))
  {
    DigitsNumeral(digits);
    NegatedSplit(digits);
    NormalisePrefixed(digits, '-');
    DatePath(raw);
  }

  lemma PlaceholderRead(raw: string)
    requires Normalise(raw) == raw && raw == "--x" && StripChars(raw, {'x'}) == "--"
    ensures Clean(Text(raw)) == Fail(AttributeError)
  {
  }

  /** A raw token that is not date-like and normalises to `-d` cleans to `-d`'s value. */
  lemma NegatedRead(raw: string, d: string)
    requires IsDecimal(d) && !DateLike(raw) && Normalise(raw) == "-" + d
    ensures Clean(Text(raw)) == Ok(Num(-DecimalValue(d)))
  {
    NegatedStep(d);
  }

  lemma ParensFacts(body: string)
    requires IsNumeral(body)
    ensures !DateLike("(" + body + ")") && Normalise("(" + body + ")") == "-" + Without(body, ',')
  {
    ParensNotDate(body);
    NormaliseParens(body);
  }


  // The date test.

  /** Up to `hi`, a token without delimiter characters is one piece. */
  lemma {:induction false} NoDelimitersUpTo(s: string, hi: nat)
    requires hi <= |s| && forall i :: 0 <= i < hi ==> s[i] !in {'/', '-', ' '}
    ensures SplitDelimsUpTo(s, hi) == [Slice(s, 0, hi)]
    decreases hi
  {
    if hi > 0 {
      NoDelimitersUpTo(s, hi - 1);
      assert Slice(s, 0, hi - 1) + [s[hi - 1]] == Slice(s, 0, hi);
    }
  }

  /** A token without delimiter characters is one piece, so it is not date-like. */
  lemma NoDelimiters(s: string)
    requires forall i :: 0 <= i < |s| ==> s[i] !in {'/', '-', ' '}
    ensures SplitDelims(s) == [s] && !DateLike(s)
  {
    NoDelimitersUpTo(s, |s|);
    assert Slice(s, 0, |s|) == s;
  }

  lemma NumeralNotDate(body: string)
    requires forall i :: 0 <= i < |body| ==> NumeralChar(body[i])
    ensures !DateLike(body)
  {
    NoDelimiters(body);
  }

  lemma SuffixedNotDate(body: string, c: char)
    requires forall i :: 0 <= i < |body| ==> NumeralChar(body[i])
    requires c in {'%', 'x', 'K', 'k'}
    ensures !DateLike(body + [c])
  {
    var s := body + [c];
    forall i | 0 <= i < |s| ensures s[i] !in {'/', '-', ' '} {
      if i < |body| { assert s[i] == body[i]; }
    }
    NoDelimiters(s);
  }

  lemma ParensNotDate(body: string)
    requires forall i :: 0 <= i < |body| ==> NumeralChar(body[i])
    ensures !DateLike("(" + body + ")")
  {
    var s := "(" + body + ")";
    forall i | 0 <= i < |s| ensures s[i] !in {'/', '-', ' '} {
      if 0 < i <= |body| { assert s[i] == body[i - 1]; }
    }
    NoDelimiters(s);
  }

  /** `-` followed by a numeral splits into an empty piece and the numeral. */
  lemma NegatedSplit(s: string)
    requires forall i :: 0 <= i < |s| ==> NumeralChar(s[i])
    ensures SplitDelims("-" + s) == ["", s]
    ensures DateLike("-" + s) <==> IsDigits(s)
  {
    var x := "-" + s;
    AfterDash(x, |x|);
    assert Slice(x, 1, |x|) == s;
  }

  lemma {:induction false} AfterDash(x: string, hi: nat)
    requires 0 < hi <= |x| && x[0] == '-'
    requires forall i :: 1 <= i < |x| ==> NumeralChar(x[i])
    ensures SplitDelimsUpTo(x, hi) == ["", Slice(x, 1, hi)]
    decreases hi
  {
    if hi > 1 {
      AfterDash(x, hi - 1);
      assert Slice(x, 1, hi - 1) + [x[hi - 1]] == Slice(x, 1, hi);
    }
  }

  lemma DashesSplit()
    ensures !DateLike("--")
  {
    assert SplitDelimsUpTo("--", 1) == ["", ""];
    assert SplitDelims("--") == ["", "", ""];
  }

  // The normalised token.

  lemma DigitsNumeral(d: string)
    requires IsDigits(d)
    ensures IsNumeral(d) && Without(d, ',') == d
  {
    WithoutNoop(d, ',');
    PyIntDigits(d);
  }

  /** A decimal has no character other than digits and `.`. */
  lemma DecimalLacks(d: string, c: char)
    requires IsDecimal(d) && !IsDigit(c) && c != '.'
    ensures c !in d && |d| > 0
  {
    DecimalChars(d);
  }

  /** The first and last characters of a numeral are digits, points or separators. */
  lemma NumeralEnds(body: string)
    requires IsNumeral(body)
    ensures |body| > 0 && NumeralChar(body[0]) && NumeralChar(body[|body| - 1])
  {
    if |body| == 0 {
      assert Without(body, ',') == [];
      DecimalChars(Without(body, ','));
    }
  }

  lemma Unpadded(s: string)
    requires |s| > 0 && s[0] !in Whitespace && s[|s| - 1] !in Whitespace
    ensures Strip(s) == s
  {
    StripCharsNoop(s, Whitespace);
  }

  /** Removing `c` from `a + [x]`: `x` survives unless it is `c`. */
  lemma WithoutSnoc(a: string, x: char, c: char)
    ensures x == c ==> Without(a + [x], c) == Without(a, c)
    ensures x != c ==> Without(a + [x], c) == Without(a, c) + [x]
  {
    WithoutConcat(a, [x], c);
    assert Without(a, c) + [] == Without(a, c);
  }

  lemma WithoutPrefix(c: char, s: string, x: char)
    requires c != x
    ensures Without([c] + s, x) == [c] + Without(s, x)
  {
    WithoutConcat([c], s, x);
    WithoutNoop([c], x);
  }

  /** A token whose separator-free form does not start with `(` is only trimmed and
      freed of separators. */
  lemma NormaliseUnwrapped(raw: string, t: string)
    requires Without(Strip(raw), ',') == t && !StartsWithChar(t, '(')
    ensures Normalise(raw) == t
  {
  }

  lemma NormalisePlain(body: string)
    requires IsNumeral(body)
    ensures Normalise(body) == Without(body, ',')
  {
    var d := Without(body, ',');
    NumeralEnds(body);
    Unpadded(body);
    DecimalLacks(d, '(');
    NormaliseUnwrapped(body, d);
  }

  /** Trimming and dropping separators from `body + [c]` leaves `d + [c]`. */
  lemma NormaliseSuffixed(body: string, c: char)
    requires IsNumeral(body) && c in {'%', 'x', 'K', 'k'}
    ensures Normalise(body + [c]) == Without(body, ',') + [c]
  {
    var raw := body + [c];
    var d := Without(body, ',');
    NumeralEnds(body);
    assert raw[0] == body[0];
    Unpadded(raw);
    WithoutSnoc(body, c, ',');
    DecimalLacks(d, '(');
    assert (d + [c])[0] == d[0];
    NormaliseUnwrapped(raw, d + [c]);
  }

  /** Trimming and dropping separators from `[c] + body` leaves `[c] + d`. */
  lemma NormalisePrefixed(body: string, c: char)
    requires IsNumeral(body) && c in {'$', '-'}
    ensures Normalise([c] + body) == [c] + Without(body, ',')
  {
    var s := [c] + body;
    NumeralEnds(body);
    assert s[|s| - 1] == body[|body| - 1];
    Unpadded(s);
    WithoutPrefix(c, body, ',');
    NormaliseUnwrapped(s, [c] + Without(body, ','));
  }

  lemma NormaliseNegDollar(body: string)
    requires IsNumeral(body)
    ensures Normalise("-$" + body) == "-$" + Without(body, ',')
  {
    var s := "-$" + body;
    NumeralEnds(body);
    assert s[|s| - 1] == body[|body| - 1];
    Unpadded(s);
    assert s == ['-'] + (['$'] + body);
    WithoutPrefix('$', body, ',');
    WithoutPrefix('-', ['$'] + body, ',');
    assert ['-'] + (['$'] + Without(body, ',')) == "-$" + Without(body, ',');
    NormaliseUnwrapped(s, "-$" + Without(body, ','));
  }

  /** `(body)` normalises to `-d`. */
  lemma NormaliseParens(body: string)
    requires IsNumeral(body)
    ensures Normalise("(" + body + ")") == "-" + Without(body, ',')
  {
    var d := Without(body, ',');
    var s := "(" + body + ")";
    NumeralEnds(body);
    Unpadded(s);
    WithoutSnoc("(" + body, ')', ',');
    WithoutPrefix('(', body, ',');
    DecimalLacks(d, '(');
    DecimalLacks(d, ')');
    UnwrapParens(d);
    NormaliseWrapped(s, d);
  }

  lemma NormaliseWrapped(raw: string, d: string)
    requires Without(Strip(raw), ',') == "(" + d + ")"
    ensures Normalise(raw) == "-" + StripChars(StripChars("(" + d + ")", {'('}), {')'})
  {
  }

  lemma UnwrapParens(d: string)
    requires |d| > 0 && '(' !in d && ')' !in d
    ensures StripChars(StripChars("(" + d + ")", {'('}), {')'}) == d
  {
    var t := "(" + d + ")";
    var u := d + ")";
    assert d[0] in d && d[|d| - 1] in d;
    StripCharsInner(t, {'('}, 1, |t|);
    assert Slice(t, 1, |t|) == u;
    StripCharsInner(u, {')'}, 0, |d|);
    assert Slice(u, 0, |d|) == d;
  }

  /** A token with no padding, no comma and no opening parenthesis is its own
      normal form. */
  lemma NormalisedAsIs(s: string)
    requires |s| > 0 && s[0] !in Whitespace && s[|s| - 1] !in Whitespace
    requires ',' !in s && s[0] != '('
    ensures Normalise(s) == s
  {
    Unpadded(s);
    WithoutNoop(s, ',');
  }

  lemma RatioResidual()
    ensures StripChars("--x", {'x'}) == "--"
  {
    StripCharsInner("--x", {'x'}, 0, 2);
    assert Slice("--x", 0, 2) == "--";
  }

  // The suffix steps.

  lemma NoSuffix(x: string, dateLike: bool)
    requires !EndsWithChar(x, '%') && !EndsWithChar(x, 'x')
    ensures Suffixes(x, dateLike) == AfterSuffix(x, Unit, dateLike)
  {
  }

  lemma PercentStep(d: string)
    requires IsDecimal(d)
    ensures Suffixes(d + "%", false) == AfterSuffix(d, Hundredth, false)
  {
    WithoutSnoc(d, '%', '%');
    DecimalLacks(d, '%');
    WithoutNoop(d, '%');
  }

  lemma RatioStep(d: string)
    requires IsDecimal(d)
    ensures Suffixes(d + "x", false) == AfterSuffix(d, Unit, false)
  {
    var x := d + "x";
    DecimalLacks(d, 'x');
    DecimalLacks(d, '-');
    assert d[0] in d && d[|d| - 1] in d;
    StripCharsInner(x, {'x'}, 0, |d|);
    assert Slice(x, 0, |d|) == d;
  }

  lemma KStep(d: string, k: char)
    requires IsDecimal(d) && k in {'K', 'k'}
    ensures Suffixes(d + [k], false) == Ok(Scaled(d, Thousand))
  {
    var x := d + [k];
    NoSuffix(x, false);
    KUpper(d, k);
    DecimalLacks(d, 'K');
    WithoutSnoc(d, 'K', 'K');
    WithoutNoop(d, 'K');
    assert Thousands(x, Unit) == (d, Thousand);
    NoCurrency(d);
  }

  lemma KUpper(d: string, k: char)
    requires IsDecimal(d) && k in {'K', 'k'}
    ensures Upper(d + [k]) == d + "K"
  {
    var x := d + [k];
    DecimalChars(d);
    forall i | 0 <= i < |x| ensures Upper(x)[i] == (d + "K")[i] {
      if i < |d| { assert x[i] == d[i]; }
    }
  }

  lemma NoCurrency(d: string)
    requires IsDecimal(d)
    ensures !HasCurrency(d)
  {
    DecimalLacks(d, '$');
    DecimalLacks(d, '-');
    assert d[0] in d;
  }

  lemma PlainChain(d: string)
    requires IsDecimal(d)
    ensures Suffixes(d, false) == Ok(Num(DecimalValue(d)))
  {
    DecimalLacks(d, '%');
    DecimalLacks(d, 'x');
    assert d[|d| - 1] in d;
    NoSuffix(d, false);
    Scaling(d, Unit);
  }

  lemma PercentChain(d: string)
    requires IsDecimal(d)
    ensures Suffixes(d + "%", false) == Ok(Num(DecimalValue(d) / 100.0))
  {
    PercentStep(d);
    Scaling(d, Hundredth);
  }

  lemma RatioChain(d: string)
    requires IsDecimal(d)
    ensures Suffixes(d + "x", false) == Ok(Num(DecimalValue(d)))
  {
    RatioStep(d);
    Scaling(d, Unit);
  }

  lemma ThousandsChain(d: string, k: char)
    requires IsDecimal(d) && k in {'K', 'k'}
    ensures Suffixes(d + [k], false) == Ok(Num(1000.0 * DecimalValue(d)))
  {
    KStep(d, k);
    ScaledDecimal(d, Thousand);
  }

  lemma Scaling(d: string, m: Scale)
    requires IsDecimal(d)
    ensures AfterSuffix(d, m, false) == Ok(Num(ScaleBy(DecimalValue(d), m)))
  {
    PlainAfter(d, m);
    ScaledDecimal(d, m);
  }

  /** With no `k`, no currency sign and no date, the token is read and scaled. */
  lemma PlainAfter(d: string, m: Scale)
    requires IsDecimal(d)
    ensures AfterSuffix(d, m, false) == Ok(Scaled(d, m))
  {
    DecimalLacks(d, 'k');
    DecimalLacks(d, 'K');
    assert d[|d| - 1] in d;
    NoCurrency(d);
  }

  lemma ScaledDecimal(d: string, m: Scale)
    requires IsDecimal(d)
    ensures Scaled(d, m) == Num(ScaleBy(DecimalValue(d), m))
  {
    DecimalLacks(d, '-');
    assert d[0] in d;
    PyFloatUnsigned(d);
  }

  /** `-d` is read as the negated decimal when the raw token is not date-like. */
  lemma NegatedStep(d: string)
    requires IsDecimal(d)
    ensures Suffixes("-" + d, false) == Ok(Num(-DecimalValue(d)))
  {
    var x := "-" + d;
    DecimalLacks(d, '%');
    DecimalLacks(d, 'x');
    DecimalLacks(d, 'k');
    DecimalLacks(d, 'K');
    DecimalLacks(d, '$');
    DecimalLacks(d, '-');
    assert x[|x| - 1] == d[|d| - 1] && d[|d| - 1] in d;
    assert x[1] == d[0] && d[0] in d;
    NoSuffix(x, false);
    NegatedScaled(d);
  }

  lemma NegatedScaled(d: string)
    requires IsDecimal(d)
    ensures Scaled("-" + d, Unit) == Num(-DecimalValue(d))
  {
    DecimalLacks(d, '-');
    assert ("-" + d)[1] == d[0] && d[0] in d;
    PyFloatNegated(d);
  }

  lemma DollarStep(d: string, dateLike: bool)
    requires IsDecimal(d)
    ensures Suffixes("$" + d, dateLike) == Ok(Num(DecimalValue(d)))
  {
    var x := "$" + d;
    DecimalLacks(d, '%');
    DecimalLacks(d, 'x');
    DecimalLacks(d, 'k');
    DecimalLacks(d, 'K');
    DecimalLacks(d, '$');
    assert x[|x| - 1] == d[|d| - 1] && d[|d| - 1] in d;
    NoSuffix(x, dateLike);
    assert Without("$" + d, '$') == Without(d, '$') by {
      WithoutConcat("$", d, '$');
      assert Without("$", '$') == "";
    }
    WithoutNoop(d, '$');
    ScaledDecimal(d, Unit);
  }

  lemma NegDollarStep(d: string, dateLike: bool)
    requires IsDecimal(d)
    ensures Suffixes("-$" + d, dateLike) == Ok(Num(-DecimalValue(d)))
  {
    var x := "-$" + d;
    DecimalLacks(d, '%');
    DecimalLacks(d, 'x');
    DecimalLacks(d, 'k');
    DecimalLacks(d, 'K');
    DecimalLacks(d, '$');
    assert x[|x| - 1] == d[|d| - 1] && d[|d| - 1] in d;
    NoSuffix(x, dateLike);
    assert Without(x, '$') == "-" + d by {
      WithoutConcat("-$", d, '$');
      WithoutNoop(d, '$');
      assert Without("-$", '$') == "-";
    }
    NegatedScaled(d);
  }

  /** A token with no suffix and no currency sign goes to the date parser unchanged when
      its raw form is date-like. */
  lemma DatePath(x: string)
    requires |x| > 1 && x[0] == '-' && IsDigit(x[1]) && IsDigit(x[|x| - 1])
    ensures Suffixes(x, true) == Ok(Date(x))
  {
    NoSuffix(x, true);
    assert !StartsWith(x, "(Unconfirmed)") by { assert "(Unconfirmed)"[0] == '('; }
  }

  // ---------------------------------------------------------------------------
  // `df[col].map(clean)` over a one-column table.

  /** `clean` applied to the first `hi` cells of a table, in order; the first cell that
      `clean` refuses aborts the whole column. */
  function CleanAll(t: Table, hi: nat): (r: Result<Table>)
    requires hi <= |t|
    ensures r.Ok? <==> forall i :: 0 <= i < hi ==> Clean(t[i].value).Ok?
    ensures r.Fail? ==> r.error == AttributeError
    ensures r.Ok? ==> |r.value| == hi
    ensures r.Ok? ==> forall i :: 0 <= i < hi ==>
              r.value[i].name == t[i].name && Ok(r.value[i].value) == Clean(t[i].value)
    decreases hi
  {
    if hi == 0 then Ok([])
    else
      match CleanAll(t, hi - 1)
      case Fail(e) => Fail(e)
      case Ok(prev) =>
        match Clean(t[hi - 1].value)
        case Fail(e) => Fail(e)
        case Ok(v) => Ok(prev + [Entry(t[hi - 1].name, v)])
  }

  /** Cleaning leaves every number and NaN where it was. */
  lemma CleanAllKeepsNumbers(t: Table, i: nat)
    requires i < |t| && !t[i].value.Text?
    requires CleanAll(t, |t|).Ok?
    ensures CleanAll(t, |t|).value[i] == t[i]
  {
  }

  /** A label of the cleaned table reads the cleaning of what it read before, so a
      number or NaN reads unchanged. */
  lemma CleanAllLookup(t: Table, k: string)
    requires CleanAll(t, |t|).Ok?
    ensures var c := CleanAll(t, |t|).value;
            (Lookup(c, k).Some? <==> Lookup(t, k).Some?) &&
            (Lookup(t, k).Some? ==> Clean(Lookup(t, k).value) == Ok(Lookup(c, k).value))
  {
    var c := CleanAll(t, |t|).value;
    FirstIndexSameNames(c, t, k, 0);
    var i := FirstIndex(t, k, 0);
    if i < |t| {
      assert Names(t)[i] == k && Names(c)[i] == k;
    }
  }

  /** Cleaning keeps every label in its place. */
  lemma CleanAllNames(t: Table)
    requires CleanAll(t, |t|).Ok?
    ensures Names(CleanAll(t, |t|).value) == Names(t)
  {
  }
}
