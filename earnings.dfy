/** The Earnings tab (`scrape_earnings`, tdscraper.py:400-530) once the page text is in
    hand: the analyst count, the yearly tooltips of the earnings chart, the derived
    growth columns and the 1-, 2- and 5-year growth figures. */
module Earnings {
  import opened Values
  import opened Strings
  import opened Numbers
  import opened Cleaner
  import opened Series
  import opened Summary

  // ---------------------------------------------------------------------------
  // Growth Analysts (lines 452-458): the last word that `float` accepts.

  /** `float(w)` for every word, in order. */
  function Floats(words: seq<string>): (r: seq<Result<Value>>)
    ensures |r| == |words|
  {
    seq(|words|, i requires 0 <= i < |words| => PyFloat(words[i]))
  }

  /** The value of the last of the first `hi` conversions that succeeded. */
  function LastNumber(floats: seq<Result<Value>>, hi: nat): Option<Value>
    requires hi <= |floats|
    decreases hi
  {
    if hi == 0 then None
    else if floats[hi - 1].Ok? then Some(floats[hi - 1].value)
    else LastNumber(floats, hi - 1)
  }

  /** No number at all leaves the entry unset; otherwise the entry is a converted word
      that no later word overrides. */
  lemma {:induction false} LastNumberWins(floats: seq<Result<Value>>, hi: nat)
    requires hi <= |floats|
    ensures var r := LastNumber(floats, hi);
            (r.None? <==> forall j :: 0 <= j < hi ==> floats[j].Fail?) &&
            (r.Some? ==> exists i :: 0 <= i < hi && floats[i] == Ok(r.value) &&
                           forall j :: i < j < hi ==> floats[j].Fail?)
    decreases hi
  {
    if hi > 0 && floats[hi - 1].Fail? {
      LastNumberWins(floats, hi - 1);
    }
  }

  /** The loop over the words of the analyst caption; `None` when no word is a number, so
      the entry is never set. */
  method GrowthAnalysts(caption: string) returns (r: Option<Value>)
    ensures r == LastNumber(Floats(Words(caption)), |Words(caption)|)
  {
    var words := Words(caption);
    ghost var floats := Floats(words);
    r := None;
    var i := 0;
    while i < |words|
      invariant 0 <= i <= |words|
      invariant r == LastNumber(floats, i)
    {
      var f := PyFloat(words[i]);
      assert f == floats[i];
      if f.Ok? {
        r := Some(f.value);
      }
      i := i + 1;
    }
  }

  // ---------------------------------------------------------------------------
  // The chart tooltips (lines 462-484).

  /** `s.strip('"').strip().strip(':')`: a caption such as `Actual` or `Estimate`. */
  function KeyOf(s: string): string {
    StripChars(Strip(StripChars(s, {'"'})), {':'})
  }

  /** `float(s.replace('$', ''))`. */
  function Dollars(s: string): (r: Result<Value>)
    ensures r.Ok? ==> r.value.Num? || r.value.Missing?
    ensures r.Fail? ==> r.error == ValueError
  {
    PyFloat(Without(s, '$'))
  }

  /** A `name: value` segment: the text before the first colon, and the stripped text
      between the first and the second; IndexError without a colon. */
  function NamedSegment(s: string): (r: Result<(string, Value)>)
    ensures r.Ok? <==> |Split(s, ':')| >= 2
    ensures r.Ok? ==> r.value == (Split(s, ':')[0], Text(Strip(Split(s, ':')[1])))
    ensures r.Fail? ==> r.error == IndexError
  {
    var pair := Split(s, ':');
    if |pair| < 2 then Fail(IndexError) else Ok((pair[0], Text(Strip(pair[1]))))
  }

  /** Where the caption sits: one segment further right when the tooltip reports a surprise. */
  function Shift(text: seq<string>): nat {
    if |text| > 4 then 1 else 0
  }

  /** What one tooltip sets in its year's row, in the order it sets it: the result word,
      a label with its amount, and a name with its text. */
  datatype Tip = Tip(result: string, caption: string, amount: Value, name: string, range: Value)

  /** The tooltip's `|`-separated segments. More than four: the result word, a label, an
      amount and a `name: value` segment. Otherwise the result is `Neutral` and the label
      comes first. */
  function Tooltip(text: seq<string>): (r: Result<Tip>)
    ensures |text| < 3 ==> r == Fail(IndexError)
    ensures r.Ok? ==> |text| >= 4
  {
    if |text| > 4 then
      var amount :- Dollars(text[3]);
      var range :- NamedSegment(text[4]);
      Ok(Tip(text[1], KeyOf(text[2]), amount, range.0, range.1))
    else
      var caption :- Part(text, 1);
      var amountText :- Part(text, 2);
      var amount :- Dollars(amountText);
      var rangeText :- Part(text, 3);
      var range :- NamedSegment(rangeText);
      Ok(Tip("Neutral", KeyOf(caption), amount, range.0, range.1))
  }

  /** Which segment feeds which part of the row: the surprise form is the other form
      shifted one segment right, with the result word in front. */
  lemma TooltipShape(text: seq<string>)
    ensures var o := Shift(text);
            Tooltip(text).Ok? <==> |text| >= 4 && Dollars(text[2 + o]).Ok? && |Split(text[3 + o], ':')| >= 2
    ensures Tooltip(text).Ok? ==>
              var o := Shift(text);
              var pair := Split(text[3 + o], ':');
              Tooltip(text).value ==
                Tip(if |text| > 4 then text[1] else "Neutral", KeyOf(text[1 + o]),
                    Dollars(text[2 + o]).value, pair[0], Text(Strip(pair[1])))
  {
  }

  /** The row as a dictionary: later keys overwrite earlier ones. */
  function TipCells(t: Tip): (r: Cells)
    ensures r.Keys == {"Earnings Result", t.caption, t.name}
    ensures r[t.name] == t.range
    ensures t.caption != t.name ==> r[t.caption] == t.amount
    ensures "Earnings Result" != t.caption && "Earnings Result" != t.name ==>
              r["Earnings Result"] == Text(t.result)
  {
    map["Earnings Result" := Text(t.result)][t.caption := t.amount][t.name := t.range]
  }

  function Segments(bar: string): seq<string> {
    Split(bar, '|')
  }

  function Year(bar: string): string {
    Segments(bar)[0]
  }

  function Years(bars: seq<string>): (r: seq<string>)
    ensures |r| == |bars|
  {
    seq(|bars|, i requires 0 <= i < |bars| => Year(bars[i]))
  }

  /** Each bar's tooltip, in chart order. */
  function Tips(bars: seq<string>): (r: seq<Result<Tip>>)
    ensures |r| == |bars|
  {
    seq(|bars|, i requires 0 <= i < |bars| => Tooltip(Segments(bars[i])))
  }

  /** `earnings_dict` built from bar `i` on, given each bar's year and parsed tooltip and
      the rows of the bars before it: each year gets a fresh row (a year seen again keeps
      its place); the first tooltip that does not parse aborts the scrape. */
  function TooltipsFrom(years: seq<string>, tips: seq<Result<Tip>>, rows: seq<Entry<Tip>>, i: nat)
    : Result<seq<Entry<Tip>>>
    requires i <= |years| == |tips|
    decreases |tips| - i
  {
    if i == |tips| then Ok(rows)
    else
      var tip :- tips[i];
      TooltipsFrom(years, tips, Put(rows, years[i], tip), i + 1)
  }

  function Tooltips(years: seq<string>, tips: seq<Result<Tip>>): Result<seq<Entry<Tip>>>
    requires |years| == |tips|
  {
    TooltipsFrom(years, tips, [], 0)
  }

  /** The tooltips of parsed rows, a blank one standing in for a failure. */
  function Parsed(tips: seq<Result<Tip>>): (r: seq<Tip>)
    ensures |r| == |tips|
    ensures forall i :: 0 <= i < |tips| && tips[i].Ok? ==> r[i] == tips[i].value
  {
    seq(|tips|, i requires 0 <= i < |tips| => if tips[i].Ok? then tips[i].value else Tip("", "", Missing, "", Missing))
  }

  /** From the rows of the first `i` pairs, the fold succeeds exactly when every later
      tooltip parses, and then ends at `dict(zip(years, tips))`. */
  lemma {:induction false} TooltipsFromZip(years: seq<string>, tips: seq<Result<Tip>>, i: nat)
    requires i <= |years| == |tips|
    ensures var r := TooltipsFrom(years, tips, DictZipUpTo(years, Parsed(tips), i), i);
            (r.Ok? <==> forall j :: i <= j < |tips| ==> tips[j].Ok?) &&
            (r.Ok? ==> r.value == DictZipUpTo(years, Parsed(tips), |tips|))
    decreases |tips| - i
  {
    if i < |tips| {
      TooltipsFromZip(years, tips, i + 1);
    }
  }

  /** The bars parse exactly when each tooltip does, and the rows are then
      `dict(zip(years, tips))`. */
  lemma TooltipsZip(years: seq<string>, tips: seq<Result<Tip>>)
    requires |years| == |tips|
    ensures var r := Tooltips(years, tips);
            (r.Ok? <==> forall i :: 0 <= i < |tips| ==> tips[i].Ok?) &&
            (r.Ok? ==> r.value == DictZipUpTo(years, Parsed(tips), |tips|))
  {
    TooltipsFromZip(years, tips, 0);
  }

  /** The loop over the chart bars. */
  method ParseTooltips(bars: seq<string>) returns (r: Result<seq<Entry<Tip>>>)
    ensures r == Tooltips(Years(bars), Tips(bars))
  {
    var rows: seq<Entry<Tip>> := [];
    var i := 0;
    while i < |bars|
      invariant 0 <= i <= |bars|
      invariant TooltipsFrom(Years(bars), Tips(bars), rows, i) == Tooltips(Years(bars), Tips(bars))
    {
      var tip := Tooltip(Segments(bars[i]));
      if tip.Fail? {
        return Fail(tip.error);
      }
      rows := Put(rows, Year(bars[i]), tip.value);
      i := i + 1;
    }
    r := Ok(rows);
  }

  /** A year's row is the one of its last bar. */
  lemma TooltipsLastWins(years: seq<string>, tips: seq<Result<Tip>>, i: nat)
    requires i < |years| == |tips| && Tooltips(years, tips).Ok?
    requires forall j :: i < j < |years| ==> years[j] != years[i]
    ensures tips[i].Ok? && Lookup(Tooltips(years, tips).value, years[i]) == Some(tips[i].value)
  {
    TooltipsZip(years, tips);
    DictZipLookup(years, Parsed(tips), years[i]);
    ZippedLast(years, Parsed(tips), years[i], |tips|, i);
  }

  /** `pd.DataFrame.from_dict(earnings_dict, orient='index')`: one row per year. */
  function FromDict(rows: seq<Entry<Tip>>): (r: Frame)
    ensures |r| == |rows|
    ensures forall i :: 0 <= i < |rows| ==> r[i] == Entry(rows[i].name, TipCells(rows[i].value))
  {
    seq(|rows|, i requires 0 <= i < |rows| => Entry(rows[i].name, TipCells(rows[i].value)))
  }

  // ---------------------------------------------------------------------------
  // The yearly frame (lines 486-501).

  /** `float(x.split()[k].replace('$', ''))` on an `Estimate range` cell such as
      `$1.40 - $1.60`; NaN cells are skipped. */
  function RangeBound(v: Value, k: nat): (r: Result<Value>)
    ensures v.Missing? ==> r == Ok(Missing)
    ensures r.Ok? ==> r.value.Num? || r.value.Missing?
    ensures v.Text? ==> (r.Ok? <==> k < |Words(v.s)| && Dollars(Words(v.s)[k]).Ok?)
  {
    match v
    case Missing => Ok(Missing)
    case Text(s) =>
      var words := Words(s);
      if k < |words| then Dollars(words[k]) else Fail(IndexError)
    case _ => Fail(AttributeError)
  }

  function Low(v: Value): Result<Value> { RangeBound(v, 0) }
  function High(v: Value): Result<Value> { RangeBound(v, 2) }

  /** `float(x.replace('$', ''))` on a `Consensus estimate` cell; NaN cells are skipped. */
  function ConsensusText(v: Value): (r: Result<Value>)
    ensures v.Missing? ==> r == Ok(Missing)
    ensures v.Text? ==> r == Dollars(v.s)
  {
    match v
    case Missing => Ok(Missing)
    case Text(s) => Dollars(s)
    case _ => Fail(AttributeError)
  }

  /** The columns lines 486-501 derive, each as long as the frame. */
  datatype Derived = Derived(
    growth: seq<Value>,
    low: seq<Value>, lowGrowth: seq<Value>,
    high: seq<Value>, highGrowth: seq<Value>,
    consensus: seq<Value>,
    actualEstimate: seq<Value>, aeGrowth: seq<Value>,
    consensusGrowth: seq<Value>)

  /** Every column of `d` has `n` rows. */
  predicate Sized(d: Derived, n: nat) {
    |d.growth| == n && |d.low| == n && |d.lowGrowth| == n && |d.high| == n &&
    |d.highGrowth| == n && |d.consensus| == n && |d.actualEstimate| == n &&
    |d.aeGrowth| == n && |d.consensusGrowth| == n
  }

  /** The `Consensus estimate` fill: the parsed column when some tooltip had one. */
  function ConsensusFill(f: Frame): (r: Result<Option<seq<Value>>>)
    ensures r.Ok? && r.value.Some? ==> |r.value.value| == |f|
    ensures (forall i :: 0 <= i < |f| ==> "Consensus estimate" !in f[i].value) <==> r == Ok(None)
    ensures r.Ok? && r.value.Some? ==> forall i :: 0 <= i < |f| ==>
              ConsensusText(CellOf(f[i].value, "Consensus estimate")) == Ok(r.value.value[i])
  {
    match Column(f, "Consensus estimate")
    case Fail(_) => Ok(None)
    case Ok(texts) =>
      var parsed :- MapAll(texts, ConsensusText, |texts|);
      Ok(Some(parsed))
  }

  /** `Consensus Estimate` before the text fill: the tooltip's estimate where there is one,
      the midpoint of the range bounds elsewhere; then, when the `Consensus estimate`
      column exists, its parsed cell fills what is still NaN. */
  function Consensus(low: seq<Value>, high: seq<Value>, estimate: seq<Value>, fill: Option<seq<Value>>)
    : (r: seq<Value>)
    requires |low| == |high| == |estimate| && (fill.Some? ==> |fill.value| == |low|)
    ensures |r| == |low|
    ensures forall i :: 0 <= i < |low| ==>
              r[i] == if !estimate[i].Missing? then estimate[i]
                      else if Midpoint(high[i], low[i]).Num? || fill.None? then Midpoint(high[i], low[i])
                      else fill.value[i]
  {
    var superseded := Supersede(Midpoints(high, low), estimate);
    if fill.Some? then FillNa(superseded, fill.value) else superseded
  }

  /** The derived columns, computed in the order of the source so that the first failure
      is the one it raises: KeyError for a missing `Actual`, `Estimate range` or
      `Estimate` column, IndexError or ValueError for an unreadable range or estimate.
      Row by row: the bounds are the range's first and third words; `Actual/Estimate` is
      the estimate where the tooltip has one and the actual figure otherwise; `Consensus
      Estimate` is the estimate, else the midpoint of the bounds, else the parsed
      `Consensus estimate` text. */
  function Derive(f: Frame): (r: Result<Derived>)
    ensures (forall i :: 0 <= i < |f| ==> "Actual" !in f[i].value) ==> r == Fail(KeyError)
    ensures r.Ok? ==> Sized(r.value, |f|)
    ensures r.Ok? ==> forall i :: 0 <= i < |f| ==>
              Low(CellOf(f[i].value, "Estimate range")) == Ok(r.value.low[i]) &&
              High(CellOf(f[i].value, "Estimate range")) == Ok(r.value.high[i])
    ensures r.Ok? ==> forall i :: 0 <= i < |f| ==>
              r.value.actualEstimate[i] ==
                if CellOf(f[i].value, "Estimate").Missing? then CellOf(f[i].value, "Actual")
                else CellOf(f[i].value, "Estimate")
    ensures r.Ok? ==> forall i :: 0 <= i < |f| ==>
              var row := f[i].value;
              var mid := Midpoint(r.value.high[i], r.value.low[i]);
              if !CellOf(row, "Estimate").Missing? then r.value.consensus[i] == CellOf(row, "Estimate")
              else if mid.Num? || "Consensus estimate" !in row then r.value.consensus[i] == mid
              else ConsensusText(row["Consensus estimate"]) == Ok(r.value.consensus[i])
    ensures r.Ok? ==> GrowthOf(r.value, Col(f, "Actual"))
  {
    match ParseColumns(f)
    case Fail(e) => Fail(e)
    case Ok(c) =>
      AssembledRows(f, c);
      Ok(Assemble(c.actual, c.low, c.high, c.estimate, c.fill))
  }

  /** Row by row, the columns assembled from parsed inputs in terms of the tooltip's cells. */
  lemma AssembledRows(f: Frame, c: Inputs)
    requires |c.actual| == |c.low| == |c.high| == |c.estimate| == |f|
    requires c.fill.Some? ==> |c.fill.value| == |f|
    requires forall i :: 0 <= i < |f| ==>
               c.actual[i] == CellOf(f[i].value, "Actual") &&
               c.estimate[i] == CellOf(f[i].value, "Estimate") &&
               Low(CellOf(f[i].value, "Estimate range")) == Ok(c.low[i]) &&
               High(CellOf(f[i].value, "Estimate range")) == Ok(c.high[i])
    requires c.fill.None? <==> forall i :: 0 <= i < |f| ==> "Consensus estimate" !in f[i].value
    requires c.fill.Some? ==> forall i :: 0 <= i < |f| ==>
               ConsensusText(CellOf(f[i].value, "Consensus estimate")) == Ok(c.fill.value[i])
    ensures var d := Assemble(c.actual, c.low, c.high, c.estimate, c.fill);
            Sized(d, |f|) &&
            (forall i :: 0 <= i < |f| ==>
               Low(CellOf(f[i].value, "Estimate range")) == Ok(d.low[i]) &&
               High(CellOf(f[i].value, "Estimate range")) == Ok(d.high[i])) &&
            (forall i :: 0 <= i < |f| ==>
               d.actualEstimate[i] ==
                 if CellOf(f[i].value, "Estimate").Missing? then CellOf(f[i].value, "Actual")
                 else CellOf(f[i].value, "Estimate")) &&
            (forall i :: 0 <= i < |f| ==>
               var row := f[i].value;
               var mid := Midpoint(d.high[i], d.low[i]);
               if !CellOf(row, "Estimate").Missing? then d.consensus[i] == CellOf(row, "Estimate")
               else if mid.Num? || "Consensus estimate" !in row then d.consensus[i] == mid
               else ConsensusText(row["Consensus estimate"]) == Ok(d.consensus[i])) &&
            GrowthOf(d, Col(f, "Actual"))
  {
    assert c.actual == Col(f, "Actual");
    var d := Assemble(c.actual, c.low, c.high, c.estimate, c.fill);
    forall i | 0 <= i < |f|
      ensures var row := f[i].value;
              var mid := Midpoint(d.high[i], d.low[i]);
              if !CellOf(row, "Estimate").Missing? then d.consensus[i] == CellOf(row, "Estimate")
              else if mid.Num? || "Consensus estimate" !in row then d.consensus[i] == mid
              else ConsensusText(row["Consensus estimate"]) == Ok(d.consensus[i])
    {
      var row := f[i].value;
      if c.fill.Some? && "Consensus estimate" !in row {
        assert ConsensusText(CellOf(row, "Consensus estimate")) == Ok(c.fill.value[i]);
      }
    }
  }

  /** The columns the derivation reads, parsed: `Actual`, the two bounds of `Estimate
      range`, `Estimate`, and the parsed `Consensus estimate` text when that column exists. */
  datatype Inputs = Inputs(actual: seq<Value>, low: seq<Value>, high: seq<Value>, estimate: seq<Value>,
                           fill: Option<seq<Value>>)

  function ParseColumns(f: Frame): (r: Result<Inputs>)
    ensures (forall i :: 0 <= i < |f| ==> "Actual" !in f[i].value) ==> r == Fail(KeyError)
    ensures r.Ok? ==> |r.value.actual| == |r.value.low| == |r.value.high| == |r.value.estimate| == |f|
    ensures r.Ok? && r.value.fill.Some? ==> |r.value.fill.value| == |f|
    ensures r.Ok? ==> forall i :: 0 <= i < |f| ==>
              r.value.actual[i] == CellOf(f[i].value, "Actual") &&
              r.value.estimate[i] == CellOf(f[i].value, "Estimate") &&
              Low(CellOf(f[i].value, "Estimate range")) == Ok(r.value.low[i]) &&
              High(CellOf(f[i].value, "Estimate range")) == Ok(r.value.high[i])
    ensures r.Ok? ==> (r.value.fill.None? <==> forall i :: 0 <= i < |f| ==> "Consensus estimate" !in f[i].value)
    ensures r.Ok? && r.value.fill.Some? ==> forall i :: 0 <= i < |f| ==>
              ConsensusText(CellOf(f[i].value, "Consensus estimate")) == Ok(r.value.fill.value[i])
  {
    match Column(f, "Actual")
    case Fail(e) => Fail(e)
    case Ok(actual) =>
      match Column(f, "Estimate range")
      case Fail(e) => Fail(e)
      case Ok(ranges) =>
        match MapAll(ranges, Low, |ranges|)
        case Fail(e) => Fail(e)
        case Ok(low) =>
          match MapAll(ranges, High, |ranges|)
          case Fail(e) => Fail(e)
          case Ok(high) =>
            match Column(f, "Estimate")
            case Fail(e) => Fail(e)
            case Ok(estimate) =>
              match ConsensusFill(f)
              case Fail(e) => Fail(e)
              case Ok(fill) => Ok(Inputs(actual, low, high, estimate, fill))
  }

  /** The derived columns from the parsed ones. */
  function Assemble(actual: seq<Value>, low: seq<Value>, high: seq<Value>, estimate: seq<Value>,
                    fill: Option<seq<Value>>): (r: Derived)
    requires |actual| == |low| == |high| == |estimate| && (fill.Some? ==> |fill.value| == |low|)
    ensures Sized(r, |low|) && r.low == low && r.high == high
    ensures r.consensus == Consensus(low, high, estimate, fill)
    ensures forall i :: 0 <= i < |low| ==>
              r.actualEstimate[i] == if estimate[i].Missing? then actual[i] else estimate[i]
    ensures GrowthOf(r, actual)
  {
    var ae := Supersede(actual, estimate);
    var lowGrowth := PctChange(low);
    var highGrowth := PctChange(high);
    Derived(PctChange(actual), low, lowGrowth, high, highGrowth, Consensus(low, high, estimate, fill),
            ae, PctChange(ae), Midpoints(highGrowth, lowGrowth))
  }

  /** The cell a row holds under `name`, NaN when the tooltip had none. */
  function CellOf(row: Cells, name: string): Value {
    if name in row then row[name] else Missing
  }

  /** The column `name` of a frame, NaN in the rows that lack it. */
  function Col(f: Frame, name: string): (r: seq<Value>)
    ensures |r| == |f|
  {
    seq(|f|, i requires 0 <= i < |f| => CellOf(f[i].value, name))
  }

  /** The growth columns of lines 488-508: `Growth`, `Low Growth Est`, `High Growth Est`
      and `A/E Growth` are the `pct_change` of `Actual`, `Low Estimate`, `High Estimate`
      and `Actual/Estimate`, and `Consensus Growth Est` is the midpoint of the high and
      low growth estimates. */
  predicate GrowthOf(d: Derived, actual: seq<Value>) {
    d.growth == PctChange(actual) &&
    |d.low| == |d.high| &&
    d.lowGrowth == PctChange(d.low) && d.highGrowth == PctChange(d.high) &&
    d.aeGrowth == PctChange(d.actualEstimate) &&
    d.consensusGrowth == Midpoints(d.highGrowth, d.lowGrowth)
  }

  /** `Consensus Growth Est` lies between the low and the high growth estimates. */
  lemma ConsensusGrowthBetween(f: Frame, i: nat)
    requires i < |f| && Derive(f).Ok? && Derive(f).value.consensusGrowth[i].Num?
    ensures var d := Derive(f).value;
            d.lowGrowth[i].Num? && d.highGrowth[i].Num? &&
            (d.lowGrowth[i].x <= d.consensusGrowth[i].x <= d.highGrowth[i].x ||
             d.highGrowth[i].x <= d.consensusGrowth[i].x <= d.lowGrowth[i].x)
  {
  }

  /** Row `i` of the frame `scrape_earnings` returns: the tooltip's cells with the derived
      columns, and without `Consensus estimate` and `Estimate range`. */
  function YearlyRow(row: Cells, d: Derived, i: nat): (r: Cells)
    requires Sized(d, |d.growth|) && i < |d.growth|
    ensures "Estimate range" !in r && "Consensus estimate" !in r
    ensures "Growth" in r && r["Growth"] == d.growth[i]
    ensures "Low Estimate" in r && r["Low Estimate"] == d.low[i]
    ensures "Low Growth Est" in r && r["Low Growth Est"] == d.lowGrowth[i]
    ensures "High Estimate" in r && r["High Estimate"] == d.high[i]
    ensures "High Growth Est" in r && r["High Growth Est"] == d.highGrowth[i]
    ensures "Consensus Estimate" in r && r["Consensus Estimate"] == d.consensus[i]
    ensures "Actual/Estimate" in r && r["Actual/Estimate"] == d.actualEstimate[i]
    ensures "A/E Growth" in r && r["A/E Growth"] == d.aeGrowth[i]
    ensures "Consensus Growth Est" in r && r["Consensus Growth Est"] == d.consensusGrowth[i]
    ensures forall k :: k !in YearlyNames ==> (k in r <==> k in row) && (k in row ==> r[k] == row[k])
  {
    var g := row["Growth" := d.growth[i]]["Low Estimate" := d.low[i]]
                ["Low Growth Est" := d.lowGrowth[i]]["High Estimate" := d.high[i]]
                ["High Growth Est" := d.highGrowth[i]]["Consensus Estimate" := d.consensus[i]]
                ["Actual/Estimate" := d.actualEstimate[i]]["A/E Growth" := d.aeGrowth[i]];
    (g - {"Consensus estimate", "Estimate range"})["Consensus Growth Est" := d.consensusGrowth[i]]
  }

  /** The columns the frame gains or loses. */
  const YearlyNames: set<string> := {
    "Growth", "Low Estimate", "Low Growth Est", "High Estimate", "High Growth Est",
    "Consensus Estimate", "Actual/Estimate", "A/E Growth", "Consensus Growth Est",
    "Consensus estimate", "Estimate range"}

  function Yearly(f: Frame, d: Derived): (r: Frame)
    requires Sized(d, |f|)
    ensures |r| == |f|
  {
    seq(|f|, i requires 0 <= i < |f| => Entry(f[i].name, YearlyRow(f[i].value, d, i)))
  }

  /** The yearly frame holds the derived columns under their names, and every column it
      neither adds nor drops (`Actual` among them) as the tooltips gave it. */
  lemma YearlyColumns(f: Frame, d: Derived)
    requires Sized(d, |f|)
    ensures var y := Yearly(f, d);
            Col(y, "Low Estimate") == d.low && Col(y, "High Estimate") == d.high &&
            Col(y, "Actual/Estimate") == d.actualEstimate && Col(y, "Growth") == d.growth &&
            Col(y, "Low Growth Est") == d.lowGrowth && Col(y, "High Growth Est") == d.highGrowth &&
            Col(y, "A/E Growth") == d.aeGrowth && Col(y, "Consensus Growth Est") == d.consensusGrowth
  {
  }

  /** A column the yearly frame neither adds nor drops is the tooltips' column. */
  lemma YearlyKeeps(f: Frame, d: Derived, k: string)
    requires Sized(d, |f|) && k !in YearlyNames
    ensures Col(Yearly(f, d), k) == Col(f, k)
  {
    var y := Yearly(f, d);
    forall i | 0 <= i < |f| ensures Col(y, k)[i] == Col(f, k)[i] {
      assert y[i].value == YearlyRow(f[i].value, d, i);
    }
  }

  /** The growth columns of the yearly frame, read off the frame itself: each growth
      column is the `pct_change` of its base column, and `Consensus Growth Est` the
      midpoint of the high and low growth estimates. */
  predicate GrowthColumns(y: Frame) {
    Col(y, "Growth") == PctChange(Col(y, "Actual")) &&
    Col(y, "Low Growth Est") == PctChange(Col(y, "Low Estimate")) &&
    Col(y, "High Growth Est") == PctChange(Col(y, "High Estimate")) &&
    Col(y, "A/E Growth") == PctChange(Col(y, "Actual/Estimate")) &&
    Col(y, "Consensus Growth Est") == Midpoints(Col(y, "High Growth Est"), Col(y, "Low Growth Est"))
  }

  /** The derived frame satisfies `GrowthColumns`. */
  lemma YearlyGrowth(f: Frame, d: Derived)
    requires Sized(d, |f|) && GrowthOf(d, Col(f, "Actual"))
    ensures GrowthColumns(Yearly(f, d))
  {
    YearlyColumns(f, d);
    YearlyKeeps(f, d, "Actual");
  }

  // ---------------------------------------------------------------------------
  // Growth windows (lines 510-526).

  /** The growth figures `earn_dict` takes, in its order. */
  const WindowNames: seq<string> := [
    "Growth 1yr Low Est", "Growth 1yr High Est", "Growth 1yr Consensus Est",
    "Growth 2yr Low Est", "Growth 2yr High Est", "Growth 2yr Consensus Est",
    "Growth 5yr Low Est", "Growth 5yr High Est", "Growth 5yr Consensus Est",
    "Growth 5yr Actual/Est", "Growth 3yr Historic"]

  /** What each growth figure reads, given the low, high and consensus growth
      estimates, `A/E Growth` and `Growth` over `n >= 2` years: the 1-year figures the
      second-to-last year; the 2-year low and high figures the NaN-skipping mean of the
      last two years, the 2-year consensus the midpoint of those two means; the 5-year
      and historic figures the NaN-skipping mean of the whole column. */
  predicate WindowValues(t: Table, low: seq<Value>, high: seq<Value>, cons: seq<Value>,
                         ae: seq<Value>, growth: seq<Value>)
    requires 2 <= |low| && |high| == |low| && |cons| == |low|
  {
    OneYearValues(t, low, high, cons) && TwoYearValues(t, low, high) &&
    FiveYearValues(t, low, high, cons) && HistoricValues(t, ae, growth)
  }

  predicate OneYearValues(t: Table, low: seq<Value>, high: seq<Value>, cons: seq<Value>)
    requires 2 <= |low| && |high| == |low| && |cons| == |low|
  {
    var n := |low|;
    Lookup(t, "Growth 1yr Low Est") == Some(low[n - 2]) &&
    Lookup(t, "Growth 1yr High Est") == Some(high[n - 2]) &&
    Lookup(t, "Growth 1yr Consensus Est") == Some(cons[n - 2])
  }

  predicate TwoYearValues(t: Table, low: seq<Value>, high: seq<Value>)
    requires 2 <= |low| && |high| == |low|
  {
    var n := |low|;
    var low2 := MeanSkipNa([low[n - 2], low[n - 1]]);
    var high2 := MeanSkipNa([high[n - 2], high[n - 1]]);
    Lookup(t, "Growth 2yr Low Est") == Some(low2) &&
    Lookup(t, "Growth 2yr High Est") == Some(high2) &&
    Lookup(t, "Growth 2yr Consensus Est") == Some(Midpoint(low2, high2))
  }

  predicate FiveYearValues(t: Table, low: seq<Value>, high: seq<Value>, cons: seq<Value>) {
    Lookup(t, "Growth 5yr Low Est") == Some(MeanSkipNa(low)) &&
    Lookup(t, "Growth 5yr High Est") == Some(MeanSkipNa(high)) &&
    Lookup(t, "Growth 5yr Consensus Est") == Some(MeanSkipNa(cons))
  }

  predicate HistoricValues(t: Table, ae: seq<Value>, growth: seq<Value>) {
    Lookup(t, "Growth 5yr Actual/Est") == Some(MeanSkipNa(ae)) &&
    Lookup(t, "Growth 3yr Historic") == Some(MeanSkipNa(growth))
  }

  /** `iloc[-2]` needs two rows (IndexError otherwise); `iloc[-2:]` is the last two;
      each mean skips NaN. */
  function Windows(d: Derived, n: nat): (r: Result<Table>)
    requires Sized(d, n)
    ensures r.Ok? <==> n >= 2
    ensures r.Ok? ==> Names(r.value) == WindowNames
    ensures r.Ok? ==> WindowValues(r.value, d.lowGrowth, d.highGrowth, d.consensusGrowth, d.aeGrowth, d.growth)
  {
    if n < 2 then Fail(IndexError)
    else
      var low2 := MeanSkipNa([d.lowGrowth[n - 2], d.lowGrowth[n - 1]]);
      var high2 := MeanSkipNa([d.highGrowth[n - 2], d.highGrowth[n - 1]]);
      var w := [Entry("Growth 1yr Low Est", d.lowGrowth[n - 2]),
                Entry("Growth 1yr High Est", d.highGrowth[n - 2]),
                Entry("Growth 1yr Consensus Est", d.consensusGrowth[n - 2]),
                Entry("Growth 2yr Low Est", low2),
                Entry("Growth 2yr High Est", high2),
                Entry("Growth 2yr Consensus Est", Midpoint(low2, high2)),
                Entry("Growth 5yr Low Est", MeanSkipNa(d.lowGrowth)),
                Entry("Growth 5yr High Est", MeanSkipNa(d.highGrowth)),
                Entry("Growth 5yr Consensus Est", MeanSkipNa(d.consensusGrowth)),
                Entry("Growth 5yr Actual/Est", MeanSkipNa(d.aeGrowth)),
                Entry("Growth 3yr Historic", MeanSkipNa(d.growth))];
      WindowsUnique(w);
      OneYearRead(w); TwoYearRead(w); FiveYearRead(w); HistoricRead(w);
      Ok(w)
  }

  /** Each of the eleven figures is the one its name reads (in four groups, to keep each
      proof small). */
  lemma OneYearRead(w: Table)
    requires Names(w) == WindowNames && UniqueNames(w)
    ensures Lookup(w, "Growth 1yr Low Est") == Some(w[0].value)
    ensures Lookup(w, "Growth 1yr High Est") == Some(w[1].value)
    ensures Lookup(w, "Growth 1yr Consensus Est") == Some(w[2].value)
  {
    LookupAt(w, 0);
    LookupAt(w, 1);
    LookupAt(w, 2);
  }

  lemma TwoYearRead(w: Table)
    requires Names(w) == WindowNames && UniqueNames(w)
    ensures Lookup(w, "Growth 2yr Low Est") == Some(w[3].value)
    ensures Lookup(w, "Growth 2yr High Est") == Some(w[4].value)
    ensures Lookup(w, "Growth 2yr Consensus Est") == Some(w[5].value)
  {
    LookupAt(w, 3);
    LookupAt(w, 4);
    LookupAt(w, 5);
  }

  lemma FiveYearRead(w: Table)
    requires Names(w) == WindowNames && UniqueNames(w)
    ensures Lookup(w, "Growth 5yr Low Est") == Some(w[6].value)
    ensures Lookup(w, "Growth 5yr High Est") == Some(w[7].value)
    ensures Lookup(w, "Growth 5yr Consensus Est") == Some(w[8].value)
  {
    LookupAt(w, 6);
    LookupAt(w, 7);
    LookupAt(w, 8);
  }

  lemma HistoricRead(w: Table)
    requires Names(w) == WindowNames && UniqueNames(w)
    ensures Lookup(w, "Growth 5yr Actual/Est") == Some(w[9].value)
    ensures Lookup(w, "Growth 3yr Historic") == Some(w[10].value)
  {
    LookupAt(w, 9);
    LookupAt(w, 10);
  }

  /** The eleven names are distinct. */
  lemma WindowsUnique(w: Table)
    requires Names(w) == WindowNames
    ensures UniqueNames(w)
  {
    forall i, j | 0 <= i < j < |w| ensures w[i].name != w[j].name {
      assert Names(w)[i] == WindowNames[i] && Names(w)[j] == WindowNames[j];
    }
  }

  /** The 2-year low figure lies between the last two low growth estimates that exist. */
  lemma TwoYearLowBetween(t: Table, d: Derived, n: nat, lo: real, hi: real)
    requires Sized(d, n) && n >= 2
    requires WindowValues(t, d.lowGrowth, d.highGrowth, d.consensusGrowth, d.aeGrowth, d.growth)
    requires forall i :: n - 2 <= i < n && d.lowGrowth[i].Num? ==> lo <= d.lowGrowth[i].x <= hi
    ensures var v := Lookup(t, "Growth 2yr Low Est").value;
            v.Num? ==> lo <= v.x <= hi
  {
    var last := [d.lowGrowth[n - 2], d.lowGrowth[n - 1]];
    if MeanSkipNa(last).Num? {
      MeanBounded(last, lo, hi);
    }
  }

  /** The 2-year consensus figure lies between the 2-year low and high figures. */
  lemma TwoYearConsensusBetween(t: Table, d: Derived, n: nat)
    requires Sized(d, n) && n >= 2
    requires WindowValues(t, d.lowGrowth, d.highGrowth, d.consensusGrowth, d.aeGrowth, d.growth)
    requires Lookup(t, "Growth 2yr Consensus Est").value.Num?
    ensures var low := Lookup(t, "Growth 2yr Low Est").value;
            var high := Lookup(t, "Growth 2yr High Est").value;
            var cons := Lookup(t, "Growth 2yr Consensus Est").value;
            low.Num? && high.Num? && (low.x <= cons.x <= high.x || high.x <= cons.x <= low.x)
  {
  }

  // ---------------------------------------------------------------------------
  // The whole tab.

  /** `earn_dict` before cleaning: the announcement, the analyst count when one was
      found, and the growth figures. */
  function Figures(next: string, analysts: Option<Value>, windows: Table): (r: Table)
    ensures Names(r) == ["Next Earnings Announcement"] +
                        (if analysts.Some? then ["Growth Analysts"] else []) + Names(windows)
  {
    [Entry("Next Earnings Announcement", Text(next))] +
    (if analysts.Some? then [Entry("Growth Analysts", analysts.value)] else []) + windows
  }

  /** The figures keep reading the window values once the announcement and the analyst
      count are put in front of them. */
  lemma FiguresWindows(next: string, analysts: Option<Value>, w: Table,
                       low: seq<Value>, high: seq<Value>, cons: seq<Value>, ae: seq<Value>, growth: seq<Value>)
    requires 2 <= |low| && |high| == |low| && |cons| == |low|
    requires WindowValues(w, low, high, cons, ae, growth)
    ensures WindowValues(Figures(next, analysts, w), low, high, cons, ae, growth)
  {
    var t := Figures(next, analysts, w);
    assert OneYearValues(t, low, high, cons) by { FiguresOneYear(next, analysts, w, low, high, cons); }
    assert TwoYearValues(t, low, high) by { FiguresTwoYear(next, analysts, w, low, high); }
    assert FiveYearValues(t, low, high, cons) by { FiguresFiveYear(next, analysts, w, low, high, cons); }
    assert HistoricValues(t, ae, growth) by { FiguresHistoric(next, analysts, w, ae, growth); }
  }

  /** A label other than the two in front reads in the figures what it reads in `w`. */
  lemma FiguresRead(next: string, analysts: Option<Value>, w: Table, k: string)
    requires k != "Next Earnings Announcement" && k != "Growth Analysts"
    ensures Lookup(Figures(next, analysts, w), k) == Lookup(w, k)
  {
    var front := [Entry("Next Earnings Announcement", Text(next))] +
                 (if analysts.Some? then [Entry("Growth Analysts", analysts.value)] else []);
    assert Figures(next, analysts, w) == front + w;
    LookupConcat(front, w, k);
  }

  lemma FiguresOneYear(next: string, analysts: Option<Value>, w: Table, low: seq<Value>, high: seq<Value>, cons: seq<Value>)
    requires 2 <= |low| && |high| == |low| && |cons| == |low| && OneYearValues(w, low, high, cons)
    ensures OneYearValues(Figures(next, analysts, w), low, high, cons)
  {
    FiguresRead(next, analysts, w, "Growth 1yr Low Est");
    FiguresRead(next, analysts, w, "Growth 1yr High Est");
    FiguresRead(next, analysts, w, "Growth 1yr Consensus Est");
  }

  lemma FiguresTwoYear(next: string, analysts: Option<Value>, w: Table, low: seq<Value>, high: seq<Value>)
    requires 2 <= |low| && |high| == |low| && TwoYearValues(w, low, high)
    ensures TwoYearValues(Figures(next, analysts, w), low, high)
  {
    FiguresRead(next, analysts, w, "Growth 2yr Low Est");
    FiguresRead(next, analysts, w, "Growth 2yr High Est");
    FiguresRead(next, analysts, w, "Growth 2yr Consensus Est");
  }

  lemma FiguresFiveYear(next: string, analysts: Option<Value>, w: Table, low: seq<Value>, high: seq<Value>, cons: seq<Value>)
    requires FiveYearValues(w, low, high, cons)
    ensures FiveYearValues(Figures(next, analysts, w), low, high, cons)
  {
    FiguresRead(next, analysts, w, "Growth 5yr Low Est");
    FiguresRead(next, analysts, w, "Growth 5yr High Est");
    FiguresRead(next, analysts, w, "Growth 5yr Consensus Est");
  }

  lemma FiguresHistoric(next: string, analysts: Option<Value>, w: Table, ae: seq<Value>, growth: seq<Value>)
    requires HistoricValues(w, ae, growth)
    ensures HistoricValues(Figures(next, analysts, w), ae, growth)
  {
    FiguresRead(next, analysts, w, "Growth 5yr Actual/Est");
    FiguresRead(next, analysts, w, "Growth 3yr Historic");
  }

  /** Cleaning leaves the window values as they are: each is a number or NaN. */
  lemma CleanedWindows(t: Table, low: seq<Value>, high: seq<Value>, cons: seq<Value>, ae: seq<Value>, growth: seq<Value>)
    requires 2 <= |low| && |high| == |low| && |cons| == |low|
    requires Numeric(low) && Numeric(high) && Numeric(cons)
    requires WindowValues(t, low, high, cons, ae, growth) && CleanAll(t, |t|).Ok?
    ensures WindowValues(CleanAll(t, |t|).value, low, high, cons, ae, growth)
  {
    forall k | Lookup(t, k).Some? && !Lookup(t, k).value.Text?
      ensures Lookup(CleanAll(t, |t|).value, k) == Lookup(t, k)
    {
      CleanAllLookup(t, k);
    }
  }

  /** What `scrape_earnings` returns for the announcement text, the analyst caption and the
      tooltip texts: the cleaned figures, under their names, and the yearly frame, which
      has at least two rows (`iloc[-2]` fails otherwise). The growth columns of the
      frame are the `pct_change` of their base columns, and each figure reads its window
      of the frame's growth columns. */
  function EarningsTab(next: string, caption: string, bars: seq<string>): (r: Result<(Table, Frame)>)
    ensures r.Ok? ==> |r.value.1| >= 2
    ensures r.Ok? ==>
              Names(r.value.0) == ["Next Earnings Announcement"] +
                (if LastNumber(Floats(Words(caption)), |Words(caption)|).Some? then ["Growth Analysts"] else []) +
                WindowNames
    ensures r.Ok? ==> GrowthColumns(r.value.1)
    ensures r.Ok? ==> YearlyWindows(r.value.0, r.value.1)
  {
    var analysts := LastNumber(Floats(Words(caption)), |Words(caption)|);
    var rows :- Tooltips(Years(bars), Tips(bars));
    var frame := FromDict(rows);
    var d :- Derive(frame);
    var windows :- Windows(d, |frame|);
    var table := Figures(next, analysts, windows);
    var cleaned :- CleanAll(table, |table|);
    CleanAllNames(table);
    TabWindows(frame, d, next, analysts, windows);
    Ok((cleaned, Yearly(frame, d)))
  }

  /** The figures of table `t` read the windows of the yearly frame `y`. */
  predicate YearlyWindows(t: Table, y: Frame)
    requires |y| >= 2
  {
    WindowValues(t, Col(y, "Low Growth Est"), Col(y, "High Growth Est"), Col(y, "Consensus Growth Est"),
                 Col(y, "A/E Growth"), Col(y, "Growth"))
  }

  lemma TabWindows(f: Frame, d: Derived, next: string, analysts: Option<Value>, w: Table)
    requires Sized(d, |f|) && |f| >= 2 && GrowthOf(d, Col(f, "Actual")) && Windows(d, |f|) == Ok(w)
    requires CleanAll(Figures(next, analysts, w), |Figures(next, analysts, w)|).Ok?
    ensures var t := Figures(next, analysts, w);
            GrowthColumns(Yearly(f, d)) && YearlyWindows(CleanAll(t, |t|).value, Yearly(f, d))
  {
    YearlyGrowth(f, d);
    YearlyColumns(f, d);
    PctChangeNumeric(d.low);
    PctChangeNumeric(d.high);
    MidpointsNumeric(d.highGrowth, d.lowGrowth);
    FiguresWindows(next, analysts, w, d.lowGrowth, d.highGrowth, d.consensusGrowth, d.aeGrowth, d.growth);
    var t := Figures(next, analysts, w);
    CleanedWindows(t, d.lowGrowth, d.highGrowth, d.consensusGrowth, d.aeGrowth, d.growth);
  }

  /** Every growth column of the yearly frame is NaN in its first year. */
  lemma FirstYearGrowthMissing(next: string, caption: string, bars: seq<string>)
    requires EarningsTab(next, caption, bars).Ok?
    ensures var y := EarningsTab(next, caption, bars).value.1;
            CellOf(y[0].value, "Growth") == Missing && CellOf(y[0].value, "Low Growth Est") == Missing &&
            CellOf(y[0].value, "High Growth Est") == Missing && CellOf(y[0].value, "A/E Growth") == Missing &&
            CellOf(y[0].value, "Consensus Growth Est") == Missing
  {
    var y := EarningsTab(next, caption, bars).value.1;
    assert Col(y, "Growth")[0] == Missing && Col(y, "Low Growth Est")[0] == Missing &&
           Col(y, "High Growth Est")[0] == Missing && Col(y, "A/E Growth")[0] == Missing;
    assert Col(y, "Consensus Growth Est")[0] == Missing;
  }

  method ScrapeEarnings(next: string, caption: string, bars: seq<string>) returns (r: Result<(Table, Frame)>)
    ensures r == EarningsTab(next, caption, bars)
  {
    var analysts := GrowthAnalysts(caption);
    var rows := ParseTooltips(bars);
    if rows.Fail? {
      return Fail(rows.error);
    }
    var frame := FromDict(rows.value);
    var d := Derive(frame);
    if d.Fail? {
      return Fail(d.error);
    }
    var windows := Windows(d.value, |frame|);
    if windows.Fail? {
      return Fail(windows.error);
    }
    var table := Figures(next, analysts, windows.value);
    var cleaned := CleanAll(table, |table|);
    if cleaned.Fail? {
      return Fail(cleaned.error);
    }
    r := Ok((cleaned.value, Yearly(frame, d.value)));
  }
}
