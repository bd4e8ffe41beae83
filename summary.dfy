/** The Summary tab after extraction (tdscraper.py:221-398): the `dt` label texts and
    the `dd` value texts become one labelled column of values; the compound fields are
    split into their parts, the listed columns are cleaned and, when a dividend is
    paid, the dividend dates are read as dates. */
module Summary {
  import opened Values
  import opened Strings
  import opened Numbers
  import opened Cleaner

  /** A row as first built: the label's extra segments (column 0) and the value (column 1). */
  datatype Row = Row(alt: seq<string>, cell: Value)

  type Rows = seq<Entry<Row>>

  // ---------------------------------------------------------------------------
  // Building the rows (lines 221-226).

  /** The label of a `dt` text: its first `|`-separated segment. */
  function Label(text: string): string {
    Split(text, '|')[0]
  }

  /** The segments after the label. */
  function AltInfo(text: string): (r: seq<string>)
    ensures |r| == |Split(text, '|')| - 1
  {
    var p := Split(text, '|');
    seq(|p| - 1, i requires 0 <= i < |p| - 1 => p[i + 1])
  }

  function Min(a: nat, b: nat): nat { if a < b then a else b }

  function Labels(texts: seq<string>): (r: seq<string>)
    ensures |r| == |texts|
  {
    seq(|texts|, i requires 0 <= i < |texts| => Label(texts[i]))
  }

  /** `zip(alt_info, values)`: as many pairs as the shorter list. */
  function Pairs(texts: seq<string>, values: seq<string>): (r: seq<Row>)
    ensures |r| == Min(|texts|, |values|)
  {
    var n := Min(|texts|, |values|);
    seq(n, i requires 0 <= i < n => Row(AltInfo(texts[i]), Text(values[i])))
  }

  /** `dict(zip(fields, zip(alt_info, values)))`. */
  function RawRows(texts: seq<string>, values: seq<string>): Rows {
    DictZip(Labels(texts), Pairs(texts, values))
  }

  /** A label reads the extra segments and the value of the LAST `dt` carrying it, among
      the `dt`s that have a `dd` to pair with. */
  lemma RawRowsRead(texts: seq<string>, values: seq<string>, i: nat)
    requires i < |texts| && i < |values|
    requires forall j :: i < j < Min(|texts|, |values|) ==> Label(texts[j]) != Label(texts[i])
    ensures Lookup(RawRows(texts, values), Label(texts[i])) == Some(Row(AltInfo(texts[i]), Text(values[i])))
  {
    var keys := Labels(texts);
    var k := Label(texts[i]);
    DictZipLookup(keys, Pairs(texts, values), k);
    ZippedLast(keys, Pairs(texts, values), k, Min(|texts|, |values|), i);
  }

  // ---------------------------------------------------------------------------
  // Fixing rows and names (lines 227-233).

  /** Line 227: the `Volume` row's value becomes its first extra segment, stripped. */
  function SetVolume(t: Rows): (r: Result<Rows>)
    ensures r.Fail? <==> Lookup(t, "Volume").None? || |Lookup(t, "Volume").value.alt| == 0
    ensures r.Fail? ==> r.error == (if Lookup(t, "Volume").None? then KeyError else IndexError)
  {
    var row :- Get(t, "Volume");
    if |row.alt| == 0 then Fail(IndexError)
    else Ok(Put(t, "Volume", Row(row.alt, Text(Strip(row.alt[0])))))
  }

  lemma SetVolumeRead(t: Rows, alt: seq<string>, v: Value)
    requires Lookup(t, "Volume") == Some(Row(alt, v)) && |alt| > 0
    ensures SetVolume(t).Ok?
    ensures Lookup(SetVolume(t).value, "Volume") == Some(Row(alt, Text(Strip(alt[0]))))
    ensures Names(SetVolume(t).value) == Names(t)
  {
    PutSpec(t, "Volume", Row(alt, Text(Strip(alt[0]))));
  }

  /** The rename table of lines 228-232, looked up once for each label. */
  function NewLabel(k: string): string {
    if k == "Volume:" then "Volume 10-day Avg"
    else if k == "Volume" then "Volume Past Day"
    else if k == "10-day average volume:" then "Volume"
    else if k == "Score:" then "New Constructs Score"
    else k
  }

  predicate Renamed(k: string) {
    k == "Volume:" || k == "Volume" || k == "10-day average volume:" || k == "Score:"
  }

  predicate RenameTarget(k: string) {
    k == "Volume 10-day Avg" || k == "Volume Past Day" || k == "Volume" || k == "New Constructs Score"
  }

  function Rename<V>(t: seq<Entry<V>>): (r: seq<Entry<V>>)
    ensures |r| == |t|
  {
    seq(|t|, i requires 0 <= i < |t| => Entry(NewLabel(t[i].name), t[i].value))
  }

  /** When the rows renamed to `j` are exactly those labelled `k`, `j` reads what `k` read. */
  lemma RenamedLookup<V>(t: seq<Entry<V>>, j: string, k: string)
    requires forall p :: 0 <= p < |t| ==> (NewLabel(t[p].name) == j <==> t[p].name == k)
    ensures Lookup(Rename(t), j) == Lookup(t, k)
  {
    RenamedFirst(t, j, k, 0);
  }

  lemma {:induction false} RenamedFirst<V>(t: seq<Entry<V>>, j: string, k: string, i: nat)
    requires i <= |t|
    requires forall p :: 0 <= p < |t| ==> (NewLabel(t[p].name) == j <==> t[p].name == k)
    ensures FirstIndex(Rename(t), j, i) == FirstIndex(t, k, i)
    decreases |t| - i
  {
    if i < |t| && t[i].name != k { RenamedFirst(t, j, k, i + 1); }
  }

  /** The renames are not chained: the 10-day average moves to `Volume` and stays there,
      while the row that was `Volume` becomes `Volume Past Day`. */
  lemma RenameVolume<V>(t: seq<Entry<V>>)
    ensures Lookup(Rename(t), "Volume") == Lookup(t, "10-day average volume:")
    ensures "Volume Past Day" !in Names(t) ==> Lookup(Rename(t), "Volume Past Day") == Lookup(t, "Volume")
  {
    RenamedLookup(t, "Volume", "10-day average volume:");
    if "Volume Past Day" !in Names(t) {
      RenamedLookup(t, "Volume Past Day", "Volume");
    }
  }

  /** A label outside the table reads as before. */
  lemma RenameOthers<V>(t: seq<Entry<V>>, j: string)
    requires !Renamed(j) && !RenameTarget(j)
    ensures Lookup(Rename(t), j) == Lookup(t, j)
  {
    RenamedLookup(t, j, j);
  }

  /** Line 233: the `52-Wk Range` value becomes the list of its extra segments. */
  function SetYearRange(t: Rows): (r: Result<Rows>)
    ensures r.Fail? <==> "52-Wk Range" !in Names(t)
    ensures r.Ok? ==> Names(r.value) == Names(t)
  {
    var row :- Get(t, "52-Wk Range");
    PutSpec(t, "52-Wk Range", Row(row.alt, Items(row.alt)));
    Ok(Put(t, "52-Wk Range", Row(row.alt, Items(row.alt))))
  }

  /** Column 1 alone: column 0 is dropped at line 350. */
  function Cells(t: Rows): (r: Table)
    ensures |r| == |t|
  {
    seq(|t|, i requires 0 <= i < |t| => Entry(t[i].name, t[i].value.cell))
  }

  lemma CellsLookup(t: Rows, k: string)
    ensures Lookup(Cells(t), k) == if k in Names(t) then Some(Lookup(t, k).value.cell) else None
  {
    FirstIndexSameNames(Cells(t), t, k, 0);
  }

  /** Lines 234-237: the price column is `Closing Price`, or `Price` when only that exists. */
  function PriceFeature(t: Table): (r: string)
    ensures r == "Price" <==> "Closing Price" !in Names(t) && "Price" in Names(t)
    ensures r != "Price" ==> r == "Closing Price"
  {
    if "Closing Price" !in Names(t) && "Price" in Names(t) then "Price" else "Closing Price"
  }

  // ---------------------------------------------------------------------------
  // Compound fields (lines 240-336): each yields all of its parts or raises.

  /** Python float division: by zero raises, even for a NaN numerator; NaN propagates. */
  function PyDiv(a: Value, b: Value): (r: Result<Value>)
    requires (a.Num? || a.Missing?) && (b.Num? || b.Missing?)
    ensures r.Fail? <==> b == Num(0.0)
    ensures r.Ok? && r.value.Num? ==> a.Num? && b.Num? && r.value.x * b.x == a.x
  {
    if b == Num(0.0) then Fail(ZeroDivisionError)
    else if a.Num? && b.Num? then Ok(Num(a.x / b.x))
    else Ok(Missing)
  }

  /** `v / 100` on a float or NaN; any other value raises TypeError. */
  function PerHundred(v: Value): (r: Result<Value>)
    ensures r.Ok? <==> v.Num? || v.Missing?
    ensures r.Ok? && v.Num? ==> r.value == Num(v.x / 100.0)
    ensures r.Ok? && v.Missing? ==> r.value == Missing
    ensures r.Fail? ==> r.error == TypeError
  {
    match v
    case Num(x) => Ok(Num(x / 100.0))
    case Missing => Ok(Missing)
    case _ => Fail(TypeError)
  }

  /** `v.split(c)`: only a string has it. */
  function SplitCell(v: Value, c: char): (r: Result<seq<string>>)
    ensures r.Ok? <==> v.Text?
    ensures r.Ok? ==> r.value == Split(v.s, c)
    ensures r.Fail? ==> r.error == AttributeError
  {
    if v.Text? then Ok(Split(v.s, c)) else Fail(AttributeError)
  }

  /** `parts[i]`, raising IndexError past the end. */
  function Part(parts: seq<string>, i: nat): (r: Result<string>)
    ensures r.Ok? <==> i < |parts|
    ensures r.Ok? ==> r.value == parts[i]
    ensures r.Fail? ==> r.error == IndexError
  {
    if i < |parts| then Ok(parts[i]) else Fail(IndexError)
  }

  /** Lines 240-270: `Bid Size`, `Ask Size` and `B/A Ratio` from `B/A Size` = `bid x ask`;
      the placeholder `--` gives NaN for all three. */
  function BidAsk(t: Table): (r: Result<Table>)
    ensures r.Ok? ==> |r.value| == 3 && r.value[0].name == "Bid Size" &&
                      r.value[1].name == "Ask Size" && r.value[2].name == "B/A Ratio"
    ensures "B/A Size" !in Names(t) ==> r == Fail(KeyError)
    ensures Lookup(t, "B/A Size") == Some(Text("--")) ==>
              r == Ok([Entry("Bid Size", Missing), Entry("Ask Size", Missing), Entry("B/A Ratio", Missing)])
  {
    var cell :- Get(t, "B/A Size");
    if cell == Text("--") then
      Ok([Entry("Bid Size", Missing), Entry("Ask Size", Missing), Entry("B/A Ratio", Missing)])
    else
      var parts :- SplitCell(cell, 'x');
      var bid :- PyFloat(parts[0]);
      var askText :- Part(parts, 1);
      var ask :- PyFloat(askText);
      var ratio :- PyDiv(bid, ask);
      Ok([Entry("Bid Size", bid), Entry("Ask Size", ask), Entry("B/A Ratio", ratio)])
  }

  /** `3.2x1.1` gives bid 3.2, ask 1.1 and their ratio. */
  lemma BidAskRead(t: Table, s: string, a: string, b: string)
    requires Lookup(t, "B/A Size") == Some(Text(s)) && s == a + "x" + b
    requires IsDecimal(a) && IsDecimal(b) && DecimalValue(b) != 0.0
    ensures BidAsk(t) == Ok([Entry("Bid Size", Num(DecimalValue(a))), Entry("Ask Size", Num(DecimalValue(b))),
                             Entry("B/A Ratio", Num(DecimalValue(a) / DecimalValue(b)))])
  {
    SplitAround(a, 'x', b);
    PyFloatUnsigned(a);
    PyFloatUnsigned(b);
  }

  /** An ask size of zero raises ZeroDivisionError, so the whole summary scrape fails. */
  lemma BidAskZeroAsk(t: Table, s: string, a: string, b: string)
    requires Lookup(t, "B/A Size") == Some(Text(s)) && s == a + "x" + b
    requires IsDecimal(a) && IsDecimal(b) && DecimalValue(b) == 0.0
    ensures BidAsk(t) == Fail(ZeroDivisionError)
  {
    SplitAround(a, 'x', b);
    PyFloatUnsigned(a);
    PyFloatUnsigned(b);
  }

  /** Two decimals joined by a separator split back into the two decimals. */
  lemma SplitAround(a: string, c: char, b: string)
    requires IsDecimal(a) && IsDecimal(b) && !IsDigit(c) && c != '.'
    ensures Split(a + [c] + b, c) == [a, b]
  {
    DecimalChars(a);
    DecimalChars(b);
    SplitJoin(a, c, b);
    SplitWhole(a, c);
    SplitWhole(b, c);
  }

  /** Lines 296-306: `Day Change $` and `Day Change %` from the pieces of `Day's Change`. */
  function DayChange(change: Value): (r: Result<(Value, Value)>)
    ensures r.Ok? ==> (r.value.0.Num? || r.value.0.Missing?) && (r.value.1.Num? || r.value.1.Missing?)
  {
    var parts :- SplitCell(change, '|');
    var dollar :- ChangeAmount(parts[0]);
    var pctText :- Part(parts, 2);
    var pct :- ChangeShare(pctText);
    Ok((dollar, pct))
  }

  function ChangeAmount(part: string): (r: Result<Value>)
    ensures r.Ok? ==> r.value.Num? || r.value.Missing?
  {
    PyFloat(StripChars(part, {'|'}))
  }

  function ChangeShare(part: string): (r: Result<Value>)
    ensures r.Ok? ==> r.value.Num? || r.value.Missing?
  {
    var pct :- PyFloat(StripChars(StripChars(part, {'%', ')'}), {'(', ')'}));
    Ok(Hundredth(pct))
  }

  /** `f / 100` on what `float()` returned; NaN stays NaN. */
  function Hundredth(f: Value): (r: Value)
    ensures f.Num? ==> r == Num(f.x / 100.0)
    ensures !f.Num? ==> r == f
  {
    if f.Num? then Num(f.x / 100.0) else f
  }

  /** Lines 307-316: `Day Low` and `Day High` from the two sides of `Day's Range`. */
  function DayRange(range: Value): (r: Result<(Value, Value)>)
    ensures r.Ok? ==> (r.value.0.Num? || r.value.0.Missing?) && (r.value.1.Num? || r.value.1.Missing?)
  {
    var parts :- SplitCell(range, '-');
    var low :- PyFloat(Without(StripChars(parts[0], {'|'}), ','));
    var highText :- Part(parts, 1);
    var high :- PyFloat(Without(StripChars(highText, {'|'}), ','));
    Ok((low, high))
  }

  /** Lines 273-316: the four day fields, all NaN when `Day's Range` is `--`. */
  function DayFields(t: Table): (r: Result<Table>)
    ensures r.Ok? ==> |r.value| == 4 && r.value[0].name == "Day Change $" && r.value[1].name == "Day Change %" &&
                      r.value[2].name == "Day Low" && r.value[3].name == "Day High"
    ensures "Day's Range" !in Names(t) ==> r == Fail(KeyError)
    ensures Lookup(t, "Day's Range") == Some(Text("--")) ==>
              r == Ok([Entry("Day Change $", Missing), Entry("Day Change %", Missing),
                       Entry("Day Low", Missing), Entry("Day High", Missing)])
  {
    var range :- Get(t, "Day's Range");
    if range == Text("--") then
      Ok([Entry("Day Change $", Missing), Entry("Day Change %", Missing),
          Entry("Day Low", Missing), Entry("Day High", Missing)])
    else
      var change :- Get(t, "Day's Change");
      var (dollar, pct) :- DayChange(change);
      var (low, high) :- DayRange(range);
      Ok([Entry("Day Change $", dollar), Entry("Day Change %", pct), Entry("Day Low", low), Entry("Day High", high)])
  }

  /** `10.50-11.25` gives low 10.50 and high 11.25. */
  lemma DayRangeRead(s: string, l: string, h: string)
    requires s == l + "-" + h && IsDecimal(l) && IsDecimal(h)
    ensures DayRange(Text(s)) == Ok((Num(DecimalValue(l)), Num(DecimalValue(h))))
  {
    SplitAround(l, '-', h);
    SideRead(l);
    SideRead(h);
    DayRangeOf(s, l, h, DecimalValue(l), DecimalValue(h));
  }

  lemma SideRead(d: string)
    requires IsDecimal(d)
    ensures PyFloat(Without(StripChars(d, {'|'}), ',')) == Ok(Num(DecimalValue(d)))
  {
    Bare(d, {'|'}, ',');
    PyFloatUnsigned(d);
  }

  lemma DayRangeOf(s: string, l: string, h: string, x: real, y: real)
    requires Split(s, '-') == [l, h]
    requires PyFloat(Without(StripChars(l, {'|'}), ',')) == Ok(Num(x))
    requires PyFloat(Without(StripChars(h, {'|'}), ',')) == Ok(Num(y))
    ensures DayRange(Text(s)) == Ok((Num(x), Num(y)))
  {
  }

  /** A decimal has nothing to strip and nothing to remove. */
  lemma Bare(d: string, cs: set<char>, c: char)
    requires IsDecimal(d) && c !in Digits && c != '.'
    requires forall x :: x in cs ==> x !in Digits && x != '.'
    ensures StripChars(d, cs) == d && Without(d, c) == d
    ensures FirstKept(d, cs, 0) == 0 && LastKeptEnd(d, cs, 0, |d|) == |d|
  {
    DecimalChars(d);
    assert d[0] !in cs && d[|d| - 1] !in cs by { DigitsOrDot(d, 0); DigitsOrDot(d, |d| - 1); }
    StripCharsNoop(d, cs);
    WithoutNoop(d, c);
  }

  const Digits: set<char> := {'0', '1', '2', '3', '4', '5', '6', '7', '8', '9'}

  lemma DigitsOrDot(d: string, i: nat)
    requires IsDecimal(d) && i < |d|
    ensures d[i] in Digits || d[i] == '.'
  {
    DecimalChars(d);
  }

  /** `1.23|(|0.52%)` gives a change of 1.23 and a change share of 0.0052. */
  lemma DayChangeRead(c: string, a: string, m: string, p: string, q: string)
    requires c == a + "|" + m + "|" + p + q && IsDecimal(a) && IsDecimal(p)
    requires '|' !in m && forall i :: 0 <= i < |q| ==> q[i] in {'%', ')'}
    ensures DayChange(Text(c)) == Ok((Num(DecimalValue(a)), Num(DecimalValue(p) / 100.0)))
  {
    DayChangeSplit(c, a, m, p, q);
    ChangeRead(a);
    ShareRead(p, q);
    DayChangeOf(c, a, m, p + q, Num(DecimalValue(a)), Num(DecimalValue(p) / 100.0));
  }

  lemma ChangeRead(a: string)
    requires IsDecimal(a)
    ensures ChangeAmount(a) == Ok(Num(DecimalValue(a)))
  {
    Bare(a, {'|'}, ',');
    PyFloatUnsigned(a);
  }

  lemma ShareRead(p: string, q: string)
    requires IsDecimal(p) && forall i :: 0 <= i < |q| ==> q[i] in {'%', ')'}
    ensures ChangeShare(p + q) == Ok(Num(DecimalValue(p) / 100.0))
  {
    StripTail(p, q, {'%', ')'});
    Bare(p, {'(', ')'}, ',');
    PyFloatUnsigned(p);
    ShareOf(p + q, p, Num(DecimalValue(p)));
  }

  lemma ShareOf(pq: string, p: string, f: Value)
    requires StripChars(StripChars(pq, {'%', ')'}), {'(', ')'}) == p && PyFloat(p) == Ok(f)
    ensures ChangeShare(pq) == Ok(Hundredth(f))
  {
  }

  lemma DayChangeOf(c: string, a: string, m: string, pq: string, x: Value, y: Value)
    requires Split(c, '|') == [a, m, pq] && ChangeAmount(a) == Ok(x) && ChangeShare(pq) == Ok(y)
    ensures DayChange(Text(c)) == Ok((x, y))
  {
  }

  lemma DayChangeSplit(c: string, a: string, m: string, p: string, q: string)
    requires c == a + "|" + m + "|" + p + q && IsDecimal(a) && IsDecimal(p)
    requires '|' !in m && forall i :: 0 <= i < |q| ==> q[i] in {'%', ')'}
    ensures Split(c, '|') == [a, m, p + q]
  {
    DecimalChars(a);
    DecimalChars(p);
    assert '|' !in p + q by {
      forall i | 0 <= i < |p + q| ensures (p + q)[i] != '|' {
        if i >= |p| { assert (p + q)[i] == q[i - |p|]; }
      }
    }
    assert c == (a + "|" + m) + ['|'] + (p + q);
    SplitJoin(a + "|" + m, '|', p + q);
    SplitJoin(a, '|', m);
    SplitWhole(a, '|');
    SplitWhole(m, '|');
    SplitWhole(p + q, '|');
  }

  /** Stripping trailing characters of `cs` off `p + q` leaves the decimal `p`. */
  lemma StripTail(p: string, q: string, cs: set<char>)
    requires IsDecimal(p) && forall i :: 0 <= i < |q| ==> q[i] in cs
    requires forall x :: x in cs ==> x !in Digits && x != '.'
    ensures StripChars(p + q, cs) == p
    ensures FirstKept(p + q, cs, 0) == 0 && LastKeptEnd(p + q, cs, 0, |p + q|) == |p|
  {
    var s := p + q;
    DigitsOrDot(p, 0);
    DigitsOrDot(p, |p| - 1);
    assert forall j :: |p| <= j < |s| ==> s[j] == q[j - |p|];
    StripCharsInner(s, cs, 0, |p|);
    assert Slice(s, 0, |p|) == p;
  }

  /** Lines 319-336: `Annual Dividend $` and `Annual Dividend %` from `amount/yield%`,
      both NaN for `No dividend`; the flag says whether a dividend is given. */
  function Dividend(t: Table): (r: Result<(Table, bool)>)
    ensures r.Ok? ==> |r.value.0| == 2 && r.value.0[0].name == "Annual Dividend $" &&
                      r.value.0[1].name == "Annual Dividend %"
    ensures r.Ok? ==> (r.value.1 <==> Lookup(t, "Annual Dividend/Yield") != Some(Text("No dividend")))
    ensures "Annual Dividend/Yield" !in Names(t) ==> r == Fail(KeyError)
    ensures Lookup(t, "Annual Dividend/Yield") == Some(Text("No dividend")) ==>
              r == Ok(([Entry("Annual Dividend $", Missing), Entry("Annual Dividend %", Missing)], false))
  {
    var cell :- Get(t, "Annual Dividend/Yield");
    if cell != Text("No dividend") then
      var parts :- SplitCell(cell, '/');
      var amount :- DividendAmount(parts[0]);
      var yieldText :- Part(parts, 1);
      var yieldShare :- DividendYield(yieldText);
      Ok(([Entry("Annual Dividend $", amount), Entry("Annual Dividend %", yieldShare)], true))
    else
      Ok(([Entry("Annual Dividend $", Missing), Entry("Annual Dividend %", Missing)], false))
  }

  function DividendAmount(part: string): (r: Result<Value>)
    ensures r.Ok? ==> r.value.Num? || r.value.Missing?
  {
    PyFloat(StripChars(part, {'$'}))
  }

  function DividendYield(part: string): (r: Result<Value>)
    ensures r.Ok? ==> r.value.Num? || r.value.Missing?
  {
    var pct :- PyFloat(StripChars(part, {'%'}));
    Ok(Hundredth(pct))
  }

  /** `$0.88/1.23%` gives a dividend of 0.88 and a yield of 0.0123. */
  lemma DividendRead(t: Table, s: string, a: string, b: string)
    requires Lookup(t, "Annual Dividend/Yield") == Some(Text(s)) && s == "$" + a + "/" + b + "%"
    requires IsDecimal(a) && IsDecimal(b)
    ensures Dividend(t) == Ok(([Entry("Annual Dividend $", Num(DecimalValue(a))),
                                Entry("Annual Dividend %", Num(DecimalValue(b) / 100.0))], true))
  {
    DividendSplit(s, a, b);
    AmountRead(a);
    YieldRead(b);
    DividendOf(t, s, "$" + a, b + "%", Num(DecimalValue(a)), Num(DecimalValue(b) / 100.0));
  }

  lemma AmountRead(a: string)
    requires IsDecimal(a)
    ensures DividendAmount("$" + a) == Ok(Num(DecimalValue(a)))
  {
    StripHead(a);
    PyFloatUnsigned(a);
  }

  lemma YieldRead(b: string)
    requires IsDecimal(b)
    ensures DividendYield(b + "%") == Ok(Num(DecimalValue(b) / 100.0))
  {
    StripTail(b, "%", {'%'});
    PyFloatUnsigned(b);
    YieldOf(b + "%", b, Num(DecimalValue(b)));
  }

  lemma YieldOf(part: string, b: string, f: Value)
    requires StripChars(part, {'%'}) == b && PyFloat(b) == Ok(f)
    ensures DividendYield(part) == Ok(Hundredth(f))
  {
  }

  lemma DividendOf(t: Table, s: string, p0: string, p1: string, x: Value, y: Value)
    requires Lookup(t, "Annual Dividend/Yield") == Some(Text(s)) && s != "No dividend"
    requires Split(s, '/') == [p0, p1] && DividendAmount(p0) == Ok(x) && DividendYield(p1) == Ok(y)
    ensures Dividend(t) == Ok(([Entry("Annual Dividend $", x), Entry("Annual Dividend %", y)], true))
  {
  }

  lemma DividendSplit(s: string, a: string, b: string)
    requires s == "$" + a + "/" + b + "%" && IsDecimal(a) && IsDecimal(b)
    ensures Split(s, '/') == ["$" + a, b + "%"]
  {
    DecimalChars(a);
    DecimalChars(b);
    assert s == ("$" + a) + ['/'] + (b + "%");
    assert '/' !in "$" + a by {
      forall i | 0 <= i < |"$" + a| ensures ("$" + a)[i] != '/' {
        if i > 0 { assert ("$" + a)[i] == a[i - 1]; }
      }
    }
    assert '/' !in b + "%" by {
      forall i | 0 <= i < |b + "%"| ensures (b + "%")[i] != '/' {
        if i < |b| { assert (b + "%")[i] == b[i]; }
      }
    }
    SplitJoin("$" + a, '/', b + "%");
    SplitWhole("$" + a, '/');
    SplitWhole(b + "%", '/');
  }

  /** Stripping `$` off `$d` leaves the decimal `d`. */
  lemma StripHead(d: string)
    requires IsDecimal(d)
    ensures StripChars("$" + d, {'$'}) == d
    ensures FirstKept("$" + d, {'$'}, 0) == 1 && LastKeptEnd("$" + d, {'$'}, 1, |d| + 1) == |d| + 1
  {
    var s := "$" + d;
    DecimalChars(d);
    DigitsOrDot(d, 0);
    DigitsOrDot(d, |d| - 1);
    assert s[1] == d[0] && s[|s| - 1] == d[|d| - 1];
    StripCharsInner(s, {'$'}, 1, |s|);
    assert Slice(s, 1, |s|) == d;
  }

  // ---------------------------------------------------------------------------
  // Dropping the raw compound rows (lines 338-350).

  const DropList: seq<string> :=
    ["Day's Change", "Day's Range", "Day's High", "Day's Low", "Avg Vol (10-day)",
     "Annual Dividend/Yield", "New Constructs Score"]

  /** `drop(index=names, errors='ignore')`: every row labelled by one of `names[..n]` goes. */
  function DropNames(t: Table, names: seq<string>, n: nat): (r: Table)
    requires n <= |names|
    ensures |r| <= |t|
    decreases n
  {
    if n == 0 then t else DropName(DropNames(t, names, n - 1), names[n - 1])
  }

  /** A dropped label is gone; every other label reads as before. */
  lemma {:induction false} DropNamesLookup(t: Table, names: seq<string>, n: nat, j: string)
    requires n <= |names|
    ensures Lookup(DropNames(t, names, n), j) == if j in Prefix(names, n) then None else Lookup(t, j)
    decreases n
  {
    if n > 0 {
      DropNamesLookup(t, names, n - 1, j);
      PrefixStep(names, n);
      DropNameLookup(DropNames(t, names, n - 1), names[n - 1]);
      assert j in Prefix(names, n) <==> j in Prefix(names, n - 1) || j == names[n - 1];
    }
  }

  // ---------------------------------------------------------------------------
  // Cleaning the single-row frame (lines 352-384).

  /** Lines 355-356: `% Below High` read as a percentage (NaN is left alone). */
  function BelowHigh(t: Table): (r: Result<Table>)
    ensures r.Ok? ==> Names(r.value) == Names(t)
  {
    var v :- Get(t, "% Below High");
    if v.Missing? then Ok(t)
    else if !v.Text? then Fail(AttributeError)
    else
      var f :- PyFloat(StripChars(v.s, {'%'}));
      PutSpec(t, "% Below High", Hundredth(f));
      Ok(Put(t, "% Below High", Hundredth(f)))
  }

  /** Lines 357-358: `% Above Low` cleaned. */
  function AboveLow(t: Table): (r: Result<Table>)
    ensures r.Ok? ==> Names(r.value) == Names(t)
    ensures "% Above Low" !in Names(t) ==> r == Fail(KeyError)
  {
    var v :- Get(t, "% Above Low");
    if v.Missing? then Ok(t)
    else
      var c :- Clean(v);
      PutSpec(t, "% Above Low", c);
      Ok(Put(t, "% Above Low", c))
  }

  /** Lines 354-358: any failure reading `% Below High` falls back to `% Above Low`. */
  function HighLow(t: Table): (r: Result<Table>)
    ensures r.Ok? ==> Names(r.value) == Names(t)
    ensures BelowHigh(t).Fail? ==> r == AboveLow(t)
  {
    var below := BelowHigh(t);
    if below.Ok? then below else AboveLow(t)
  }

  /** Lines 360-361: `clean(x)/100`, raising if the column is absent, if `clean` raises,
      or if it returns a date. */
  function Percent(t: Table, col: string): (r: Result<Table>)
    ensures r.Ok? ==> Names(r.value) == Names(t)
    ensures col !in Names(t) ==> r == Fail(KeyError)
  {
    var v :- Get(t, col);
    if v.Missing? then Ok(t)
    else
      var c :- Clean(v);
      var share :- PerHundred(c);
      PutSpec(t, col, share);
      Ok(Put(t, col, share))
  }

  /** A cell after the `try: clean / except: pass` of lines 378-382: NaN is skipped, and
      a cell `clean` raises on is left as it was. */
  function CleanedCell(v: Value): (r: Value)
    ensures !v.Text? ==> r == v
    ensures v.Text? && !RatioPlaceholder(v.s) ==> Clean(v) == Ok(r)
    ensures v.Text? && RatioPlaceholder(v.s) ==> r == v
  {
    if v.Missing? then v
    else match Clean(v)
      case Ok(c) => c
      case Fail(_) => v
  }

  /** Cleaning twice is cleaning once. */
  lemma CleanedCellTwice(v: Value)
    ensures CleanedCell(CleanedCell(v)) == CleanedCell(v)
  {
  }

  /** One column of lines 378-382: absent columns are skipped. */
  function TryClean(t: Table, col: string): (r: Table)
    ensures Names(r) == Names(t)
  {
    match Lookup(t, col)
    case None => t
    case Some(v) =>
      PutSpec(t, col, CleanedCell(v));
      Put(t, col, CleanedCell(v))
  }

  lemma TryCleanLookup(t: Table, col: string, j: string)
    ensures Lookup(TryClean(t, col), j) ==
              if j == col then MapCell(Lookup(t, j)) else Lookup(t, j)
  {
    match Lookup(t, col)
    case None =>
    case Some(v) => PutLookup(t, col, CleanedCell(v), j);
  }

  function MapCell(o: Option<Value>): Option<Value> {
    match o
    case None => None
    case Some(v) => Some(CleanedCell(v))
  }

  /** The columns of lines 363-377, with the price column chosen at lines 234-237. */
  function TryToClean(price: string): seq<string> {
    ["Prev Close", "Ask close", "Bid close", "Beta", "Ask", "Bid", "EPS (TTM, GAAP)", "Last Trade",
     "Last (size)", price, "Historical Volatility", "P/E Ratio (TTM, GAAP)", "Today's Open", "Volume",
     "Volume 10-day Avg"]
  }

  /** The first `n` columns of the loop of lines 378-382 applied in order. */
  function CleanedColumns(t: Table, cols: seq<string>, n: nat): (r: Table)
    requires n <= |cols|
    decreases n
  {
    if n == 0 then t else TryClean(CleanedColumns(t, cols, n - 1), cols[n - 1])
  }

  /** Lines 378-382: the column loop. */
  method CleanColumns(t: Table, cols: seq<string>) returns (r: Table)
    ensures r == CleanedColumns(t, cols, |cols|)
  {
    r := t;
    var i := 0;
    while i < |cols|
      invariant 0 <= i <= |cols|
      invariant r == CleanedColumns(t, cols, i)
    {
      r := TryClean(r, cols[i]);
      i := i + 1;
    }
  }

  /** After the loop each listed column holds its cleaned cell, whatever the order or
      repetitions of the list, and no other column changes. */
  lemma {:induction false} CleanedColumnsLookup(t: Table, cols: seq<string>, n: nat, j: string)
    requires n <= |cols|
    ensures Lookup(CleanedColumns(t, cols, n), j) ==
              if j in Prefix(cols, n) then MapCell(Lookup(t, j)) else Lookup(t, j)
    decreases n
  {
    if n > 0 {
      CleanedColumnsLookup(t, cols, n - 1, j);
      TryCleanLookup(CleanedColumns(t, cols, n - 1), cols[n - 1], j);
      PrefixStep(cols, n);
      assert j in Prefix(cols, n) <==> j in Prefix(cols, n - 1) || j == cols[n - 1];
      match Lookup(t, j)
      case None =>
      case Some(v) => CleanedCellTwice(v);
    }
  }

  lemma {:induction false} CleanedColumnsNames(t: Table, cols: seq<string>, n: nat)
    requires n <= |cols|
    ensures Names(CleanedColumns(t, cols, n)) == Names(t)
    decreases n
  {
    if n > 0 { CleanedColumnsNames(t, cols, n - 1); }
  }

  /** `pd.to_datetime` on one cell: text is handed to the date parser, NaN stays NaT. */
  function ToDatetime(v: Value): (r: Result<Value>)
    ensures r.Ok? ==> r.value.Date? || r.value.Missing?
    ensures v.Text? ==> r == Ok(Date(v.s))
    ensures v.Missing? ==> r == Ok(Missing)
  {
    match v
    case Text(s) => Ok(Date(s))
    case Missing => Ok(Missing)
    case Date(_) => Ok(v)
    case _ => Fail(TypeError)
  }

  /** Lines 387-390: `Ex-dividend` from `Ex-dividend Date`, or from itself if that fails. */
  function ExDividend(t: Table): (r: Result<Value>)
    ensures r.Ok? ==> r.value.Date? || r.value.Missing?
  {
    var first := match Lookup(t, "Ex-dividend Date")
      case Some(v) => ToDatetime(v)
      case None => Fail(KeyError);
    if first.Ok? then first
    else
      var v :- Get(t, "Ex-dividend");
      ToDatetime(v)
  }

  /** Lines 386-391: only when a dividend is given are the two dividend dates read as
      dates; otherwise nothing changes. */
  function DividendDates(t: Table, given: bool): (r: Result<Table>)
    ensures !given ==> r == Ok(t)
  {
    if !given then Ok(t)
    else
      var ex :- ExDividend(t);
      var t1 := Put(t, "Ex-dividend", ex);
      var pay :- Get(t1, "Dividend Pay Date");
      var payDate :- ToDatetime(pay);
      Ok(Put(t1, "Dividend Pay Date", payDate))
  }

  /** When a dividend is given and the dates convert, both date columns hold dates (or NaT). */
  lemma DividendDatesRead(t: Table)
    requires DividendDates(t, true).Ok?
    ensures var r := DividendDates(t, true).value;
            var pay := Lookup(r, "Dividend Pay Date");
            Lookup(r, "Ex-dividend") == Some(ExDividend(t).value) && pay.Some? && (pay.value.Date? || pay.value.Missing?)
  {
    var ex := ExDividend(t).value;
    var t1 := Put(t, "Ex-dividend", ex);
    PutLookup(t, "Ex-dividend", ex, "Ex-dividend");
    var payDate := ToDatetime(Get(t1, "Dividend Pay Date").value).value;
    PutLookup(t1, "Dividend Pay Date", payDate, "Ex-dividend");
    PutLookup(t1, "Dividend Pay Date", payDate, "Dividend Pay Date");
  }

  // ---------------------------------------------------------------------------
  // The whole section.

  /** The compound rows appended in order, with the dividend flag. */
  function Compound(t: Table): (r: Result<(Table, bool)>)
  {
    var bidAsk :- BidAsk(t);
    var t1 := t + bidAsk;
    var day :- DayFields(t1);
    var t2 := t1 + day;
    var (dividend, given) :- Dividend(t2);
    Ok((t2 + dividend, given))
  }

  /** The cleaning steps after the drop. */
  function CleanSection(t: Table, price: string, given: bool): (r: Result<Table>)
  {
    var t1 :- HighLow(t);
    var t2 :- Percent(t1, "% Held by Institutions");
    var t3 :- Percent(t2, "Short Interest");
    var t4 := CleanedColumns(t3, TryToClean(price), |TryToClean(price)|);
    DividendDates(t4, given)
  }

  /** The rows the compound fields add. */
  const Derived: seq<string> :=
    ["Bid Size", "Ask Size", "B/A Ratio", "Day Change $", "Day Change %", "Day Low", "Day High",
     "Annual Dividend $", "Annual Dividend %"]

  lemma CompoundNames(t: Table)
    requires Compound(t).Ok?
    ensures Names(Compound(t).value.0) == Names(t) + Derived
  {
    var bidAsk := BidAsk(t).value;
    var day := DayFields(t + bidAsk).value;
    AppendedNames(t, bidAsk, day, Dividend(t + bidAsk + day).value.0);
  }

  lemma AppendedNames(t: Table, bidAsk: Table, day: Table, dividend: Table)
    requires |bidAsk| == 3 && bidAsk[0].name == "Bid Size" && bidAsk[1].name == "Ask Size" &&
             bidAsk[2].name == "B/A Ratio"
    requires |day| == 4 && day[0].name == "Day Change $" && day[1].name == "Day Change %" &&
             day[2].name == "Day Low" && day[3].name == "Day High"
    requires |dividend| == 2 && dividend[0].name == "Annual Dividend $" && dividend[1].name == "Annual Dividend %"
    ensures Names(t + bidAsk + day + dividend) == Names(t) + Derived
  {
    NamesConcat(t, bidAsk);
    NamesConcat(t + bidAsk, day);
    NamesConcat(t + bidAsk + day, dividend);
  }

  lemma NamesConcat<V>(a: seq<Entry<V>>, b: seq<Entry<V>>)
    ensures Names(a + b) == Names(a) + Names(b)
  {
  }

  /** `Put` keeps every label and adds only its own. */
  lemma PutNames(t: Table, k: string, v: Value)
    ensures forall j :: j in Names(t) ==> j in Names(Put(t, k, v))
    ensures forall j :: j in Names(Put(t, k, v)) ==> j in Names(t) || j == k
  {
    if k !in Names(t) { NamesConcat(t, [Entry(k, v)]); }
  }

  lemma DividendDatesNames(t: Table, given: bool)
    requires DividendDates(t, given).Ok?
    ensures forall j :: j in Names(t) ==> j in Names(DividendDates(t, given).value)
    ensures forall j :: j in Names(DividendDates(t, given).value) ==>
              j in Names(t) || j == "Ex-dividend" || j == "Dividend Pay Date"
  {
    if given {
      var ex := ExDividend(t).value;
      var t1 := Put(t, "Ex-dividend", ex);
      PutNames(t, "Ex-dividend", ex);
      var payDate := ToDatetime(Get(t1, "Dividend Pay Date").value).value;
      PutNames(t1, "Dividend Pay Date", payDate);
    }
  }

  /** Cleaning keeps every label and adds at most the two dividend date columns. */
  lemma CleanSectionNames(t: Table, price: string, given: bool)
    requires CleanSection(t, price, given).Ok?
    ensures forall j :: j in Names(t) ==> j in Names(CleanSection(t, price, given).value)
    ensures forall j :: j in Names(CleanSection(t, price, given).value) ==>
              j in Names(t) || j == "Ex-dividend" || j == "Dividend Pay Date"
  {
    var t1 := HighLow(t).value;
    var t2 := Percent(t1, "% Held by Institutions").value;
    var t3 := Percent(t2, "Short Interest").value;
    CleanedColumnsNames(t3, TryToClean(price), |TryToClean(price)|);
    var t4 := CleanedColumns(t3, TryToClean(price), |TryToClean(price)|);
    DividendDatesNames(t4, given);
  }

  /** Dropping the listed labels removes exactly them. */
  lemma DropListNames(t: Table)
    ensures forall j :: j in DropList ==> j !in Names(DropNames(t, DropList, |DropList|))
    ensures forall j :: j in Names(t) && j !in DropList ==> j in Names(DropNames(t, DropList, |DropList|))
  {
    PrefixAll(DropList);
    forall j ensures Lookup(DropNames(t, DropList, |DropList|), j) == if j in DropList then None else Lookup(t, j) {
      DropNamesLookup(t, DropList, |DropList|, j);
    }
  }

  /** A summary that scrapes has every derived field and none of the raw compound rows. */
  lemma SummaryFields(texts: seq<string>, values: seq<string>)
    requires ScrapeSummary(texts, values).Ok?
    ensures forall j :: j in Derived ==> j in Names(ScrapeSummary(texts, values).value)
    ensures forall j :: j in DropList ==> j !in Names(ScrapeSummary(texts, values).value)
  {
    var withVolume := SetVolume(RawRows(texts, values)).value;
    var ranged := SetYearRange(Rename(withVolume)).value;
    var t := Cells(ranged);
    var (t1, given) := Compound(t).value;
    var d := DropNames(t1, DropList, |DropList|);
    CompoundNames(t);
    DropListNames(t1);
    CleanSectionNames(d, PriceFeature(t), given);
    SummaryFieldsOf(Names(t), Names(t1), Names(d), Names(ScrapeSummary(texts, values).value));
  }

  lemma SummaryFieldsOf(before: seq<string>, appended: seq<string>, kept: seq<string>, result: seq<string>)
    requires appended == before + Derived
    requires forall j :: j in DropList ==> j !in kept
    requires forall j :: j in appended && j !in DropList ==> j in kept
    requires forall j :: j in kept ==> j in result
    requires forall j :: j in result ==> j in kept || j == "Ex-dividend" || j == "Dividend Pay Date"
    ensures forall j :: j in Derived ==> j in result
    ensures forall j :: j in DropList ==> j !in result
  {
  }

  /** `scrape_summary` from the `dt` and `dd` texts. */
  function ScrapeSummary(texts: seq<string>, values: seq<string>): (r: Result<Table>)
  {
    var withVolume :- SetVolume(RawRows(texts, values));
    var ranged :- SetYearRange(Rename(withVolume));
    var t := Cells(ranged);
    var (t1, given) :- Compound(t);
    CleanSection(DropNames(t1, DropList, |DropList|), PriceFeature(t), given)
  }
}
