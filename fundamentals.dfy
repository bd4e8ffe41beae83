/** The "Fundamentals" tab (`scrape_fundamentals`): the overview list, the five-year price
    chart, the historic-growth and share-detail boxes, the short-interest rows, and the
    summary figures drawn from the yearly frame. */
module Fundamentals {
  import opened Values
  import opened Strings
  import opened Numbers
  import opened Cleaner
  import opened Series
  import opened Reports

  /** The site's placeholder for a figure it does not have. */
  const Sentinel: real := -99999.99

  /** NaN in place of the placeholder. */
  function Unsentinel(v: Value): Value {
    if v == Num(Sentinel) then Missing else v
  }

  function Unsentinels(vs: seq<Value>): (r: seq<Value>)
    ensures |r| == |vs|
    ensures forall i :: 0 <= i < |vs| ==> r[i] != Num(Sentinel)
    ensures forall i :: 0 <= i < |vs| ==> r[i] == vs[i] || (vs[i] == Num(Sentinel) && r[i] == Missing)
  {
    seq(|vs|, i requires 0 <= i < |vs| => Unsentinel(vs[i]))
  }

  // ---------------------------------------------------------------------------
  // The overview list (lines 581-587).

  /** `float(dd.get('data-rawvalue'))` for the first `hi` cells: TypeError for a cell
      without the attribute, ValueError for one `float` refuses. */
  function AttrFloats(attrs: seq<Option<string>>, hi: nat): (r: Result<seq<Value>>)
    requires hi <= |attrs|
    ensures r.Ok? <==> forall i :: 0 <= i < hi ==> attrs[i].Some? && PyFloat(attrs[i].value).Ok?
    ensures r.Ok? ==> |r.value| == hi &&
                      forall i :: 0 <= i < hi ==> PyFloat(attrs[i].value) == Ok(r.value[i])
    decreases hi
  {
    if hi == 0 then Ok([])
    else
      var prev :- AttrFloats(attrs, hi - 1);
      match attrs[hi - 1]
      case None => Fail(TypeError)
      case Some(s) =>
        var v :- PyFloat(s);
        Ok(prev + [v])
  }

  /** `fundies`: the overview labels zipped with their values, placeholders read NaN. */
  function Overview(labels: seq<string>, attrs: seq<Option<string>>): (r: Result<Table>)
  {
    var values :- AttrFloats(attrs, |attrs|);
    Ok(DictZip(labels, Unsentinels(values)))
  }

  /** The loop that overwrites each placeholder with NaN, in place. */
  method ClearSentinels(values: array<Value>)
    modifies values
    ensures values[..] == Unsentinels(old(values[..]))
  {
    var i := 0;
    while i < values.Length
      invariant 0 <= i <= values.Length
      invariant forall q :: 0 <= q < i ==> values[q] == Unsentinel(old(values[q]))
      invariant forall q :: i <= q < values.Length ==> values[q] == old(values[q])
    {
      if values[i] == Num(Sentinel) {
        values[i] := Missing;
      }
      i := i + 1;
    }
  }

  method ScrapeOverview(labels: seq<string>, attrs: seq<Option<string>>) returns (r: Result<Table>)
    ensures r == Overview(labels, attrs)
  {
    var values := AttrFloats(attrs, |attrs|);
    if values.Fail? {
      return Fail(values.error);
    }
    var a := new Value[|values.value|](i requires 0 <= i < |values.value| => values.value[i]);
    assert a[..] == values.value;
    ClearSentinels(a);
    r := Ok(DictZip(labels, a[..]));
  }

  /** Every overview label reads the value of its last occurrence, and no label reads
      the placeholder. */
  lemma OverviewLookup(labels: seq<string>, attrs: seq<Option<string>>, k: string)
    requires Overview(labels, attrs).Ok?
    ensures var values := Unsentinels(AttrFloats(attrs, |attrs|).value);
            var n := if |labels| < |values| then |labels| else |values|;
            Lookup(Overview(labels, attrs).value, k) == ZippedValue(labels, values, k, n)
    ensures Lookup(Overview(labels, attrs).value, k) != Some(Num(Sentinel))
  {
    var values := Unsentinels(AttrFloats(attrs, |attrs|).value);
    DictZipLookup(labels, values, k);
  }

  // ---------------------------------------------------------------------------
  // The five-year chart (lines 589-611).

  /** `five_yr[k].get_text().split(' ')[1]`: IndexError when the marker or the word is
      missing. */
  function MarkerPrice(markers: seq<string>, k: nat): (r: Result<Value>)
    ensures r.Ok? <==> k < |markers| && |Split(markers[k], ' ')| >= 2
    ensures r.Fail? ==> r.error == IndexError
    ensures r.Ok? ==> r.value == Text(Split(markers[k], ' ')[1])
  {
    if k >= |markers| then Fail(IndexError)
    else
      var words := Split(markers[k], ' ');
      if |words| < 2 then Fail(IndexError) else Ok(Text(words[1]))
  }

  /** One price period as `past_dict` keeps it. */
  datatype Period = Period(high: string, low: string, change: string)

  /** `parts[p].split(' ')[w].strip()`. */
  function Piece(parts: seq<string>, p: nat, w: nat): (r: Result<string>)
    ensures r.Ok? <==> p < |parts| && w < |Split(parts[p], ' ')|
    ensures r.Fail? ==> r.error == IndexError
  {
    if p >= |parts| then Fail(IndexError)
    else
      var words := Split(parts[p], ' ');
      if w >= |words| then Fail(IndexError) else Ok(Strip(words[w]))
  }

  /** One period text (`low|high|change ... year`): its year, its row and its change as a
      float, read in the order of the source. */
  function PeriodOf(text: string): (r: Result<(string, Period, Value)>)
    ensures r.Ok? ==> r.value.2.Num? || r.value.2.Missing?
  {
    var parts := Split(text, '|');
    var year :- Piece(parts, 2, 3);
    var high :- Piece(parts, 1, 2);
    var low :- Piece(parts, 0, 2);
    var change := Strip(Split(parts[2], ' ')[0]);
    var growth :- PyFloat(StripChars(change, {'%'}));
    Ok((year, Period(high, low, change), growth))
  }

  function PeriodsOf(texts: seq<string>): (r: seq<Result<(string, Period, Value)>>)
    ensures |r| == |texts|
  {
    seq(|texts|, i requires 0 <= i < |texts| => PeriodOf(texts[i]))
  }

  /** The loop over the periods from period `i` on, given the parsed periods and what the
      earlier ones left in `past_dict` and `yr_growths`: each year gets a fresh row (a
      repeated year keeps its place), each change is appended; the first period that
      does not parse aborts the scrape. */
  function PeriodsFrom(parsed: seq<Result<(string, Period, Value)>>, rows: seq<Entry<Period>>,
                       growths: seq<Value>, i: nat): Result<(seq<Entry<Period>>, seq<Value>)>
    requires i <= |parsed|
    decreases |parsed| - i
  {
    if i == |parsed| then Ok((rows, growths))
    else
      var p :- parsed[i];
      PeriodsFrom(parsed, Put(rows, p.0, p.1), growths + [p.2], i + 1)
  }

  method ParsePeriods(texts: seq<string>) returns (r: Result<(seq<Entry<Period>>, seq<Value>)>)
    ensures r == PeriodsFrom(PeriodsOf(texts), [], [], 0)
  {
    ghost var parsed := PeriodsOf(texts);
    var rows: seq<Entry<Period>> := [];
    var growths: seq<Value> := [];
    var i := 0;
    while i < |texts|
      invariant 0 <= i <= |texts| == |parsed|
      invariant PeriodsFrom(parsed, rows, growths, i) == PeriodsFrom(parsed, [], [], 0)
    {
      var p := PeriodOf(texts[i]);
      assert p == parsed[i];
      if p.Fail? {
        return Fail(p.error);
      }
      rows := Put(rows, p.value.0, p.value.1);
      growths := growths + [p.value.2];
      i := i + 1;
    }
    r := Ok((rows, growths));
  }

  function Years(parsed: seq<Result<(string, Period, Value)>>): (r: seq<string>)
    ensures |r| == |parsed|
  {
    seq(|parsed|, i requires 0 <= i < |parsed| => if parsed[i].Ok? then parsed[i].value.0 else "")
  }

  function Rows(parsed: seq<Result<(string, Period, Value)>>): (r: seq<Period>)
    ensures |r| == |parsed|
  {
    seq(|parsed|, i requires 0 <= i < |parsed| => if parsed[i].Ok? then parsed[i].value.1 else Period("", "", ""))
  }

  function Changes(parsed: seq<Result<(string, Period, Value)>>): (r: seq<Value>)
    ensures |r| == |parsed|
  {
    seq(|parsed|, i requires 0 <= i < |parsed| => if parsed[i].Ok? then parsed[i].value.2 else Missing)
  }

  /** From the state the first `i` periods leave, the loop succeeds exactly when every
      later period parses, and then `past_dict` is `dict(zip(years, rows))` and
      `yr_growths` holds every change in order. */
  lemma {:induction false} PeriodsFromZip(parsed: seq<Result<(string, Period, Value)>>, i: nat)
    requires i <= |parsed|
    ensures var r := PeriodsFrom(parsed, DictZipUpTo(Years(parsed), Rows(parsed), i), Changes(parsed)[..i], i);
            (r.Ok? <==> forall j :: i <= j < |parsed| ==> parsed[j].Ok?) &&
            (r.Ok? ==> r.value.0 == DictZipUpTo(Years(parsed), Rows(parsed), |parsed|) &&
                       r.value.1 == Changes(parsed))
    decreases |parsed| - i
  {
    if i < |parsed| {
      if parsed[i].Ok? {
        assert Changes(parsed)[..i] + [parsed[i].value.2] == Changes(parsed)[..i + 1];
      }
      PeriodsFromZip(parsed, i + 1);
    }
  }

  lemma PeriodsZip(texts: seq<string>)
    ensures var parsed := PeriodsOf(texts);
            var r := PeriodsFrom(parsed, [], [], 0);
            (r.Ok? <==> forall j :: 0 <= j < |parsed| ==> parsed[j].Ok?) &&
            (r.Ok? ==> r.value.0 == DictZipUpTo(Years(parsed), Rows(parsed), |texts|) &&
                       r.value.1 == Changes(parsed))
  {
    var parsed := PeriodsOf(texts);
    assert Changes(parsed)[..0] == [];
    assert DictZipUpTo(Years(parsed), Rows(parsed), 0) == [];
    PeriodsFromZip(parsed, 0);
  }

  /** `x / 100` on a float cell; NaN stays NaN. */
  function Hundredths(v: Value): (r: Value)
    ensures r.Num? <==> v.Num?
    ensures r.Num? ==> r.x * 100.0 == v.x
  {
    if v.Num? then Num(v.x / 100.0) else Missing
  }

  /** `5yr Avg Return`: `np.mean` of the yearly changes over 100, so one NaN change, or no
      period at all, makes it NaN. */
  function AvgReturn(growths: seq<Value>): (r: Value)
    ensures r.Num? <==> |growths| > 0 && AllPresent(growths)
    ensures r.Num? ==> r.x * 100.0 * |growths| as real == SumPresent(growths, |growths|)
  {
    Hundredths(NpMean(growths))
  }

  // ---------------------------------------------------------------------------
  // The historic-growth and share-detail boxes (lines 614-665).

  /** One `<dd>`: the number attribute the box reads (`label[data-value]` in the
      historic-growth box, `data-rawvalue` elsewhere), and the fallback text (the `<span>`
      in the historic-growth box, the cell's own text elsewhere); `None` where the markup
      has none. */
  datatype Detail = Detail(data: Option<string>, text: Option<string>)

  /** One box: its `<h4>` heading, the texts of its `<dt>` terms and its `<dd>` cells. */
  datatype Box = Box(heading: string, terms: seq<string>, details: seq<Detail>)

  const HistoricHeading := "Historic Growth"

  predicate Historic(b: Box) {
    b.heading == HistoricHeading
  }

  /** A term's label: its first `|` piece stripped, suffixed in the historic box. */
  function TermWord(term: string, historic: bool): string {
    Strip(Split(term, '|')[0]) + (if historic then " Growth 5yr" else "")
  }

  /** The labels of a box: one per term after the first. */
  function BoxWords(b: Box): (r: seq<string>)
    ensures |r| == if |b.terms| == 0 then 0 else |b.terms| - 1
    ensures forall j :: 0 <= j < |r| ==> r[j] == TermWord(b.terms[j + 1], Historic(b))
  {
    seq(if |b.terms| == 0 then 0 else |b.terms| - 1,
        j requires 0 <= j < |b.terms| - 1 => TermWord(b.terms[j + 1], Historic(b)))
  }

  /** A cell's value: the attribute as a float (the placeholder reads NaN); failing
      that, the fallback text; failing that, NaN. */
  function DetailNumber(d: Detail): (r: Value)
    ensures d.data.Some? && PyFloat(d.data.value).Ok? ==> r == Unsentinel(PyFloat(d.data.value).value)
    ensures !(d.data.Some? && PyFloat(d.data.value).Ok?) ==>
              r == if d.text.Some? then Text(d.text.value) else Missing
    ensures r != Num(Sentinel)
  {
    if d.data.Some? && PyFloat(d.data.value).Ok? then Unsentinel(PyFloat(d.data.value).value)
    else if d.text.Some? then Text(d.text.value)
    else Missing
  }

  /** The values of a box: one per cell, every cell. */
  function BoxNumbers(b: Box): (r: seq<Value>)
    ensures |r| == |b.details|
  {
    seq(|b.details|, j requires 0 <= j < |b.details| => DetailNumber(b.details[j]))
  }

  /** `labels`, `values` and `historic_data` after the first `n` boxes. */
  function Labels(boxes: seq<Box>, n: nat): seq<string>
    requires n <= |boxes|
  {
    if n == 0 then [] else Labels(boxes, n - 1) + BoxWords(boxes[n - 1])
  }

  function Amounts(boxes: seq<Box>, n: nat): seq<Value>
    requires n <= |boxes|
  {
    if n == 0 then [] else Amounts(boxes, n - 1) + BoxNumbers(boxes[n - 1])
  }

  function HistoricData(boxes: seq<Box>, n: nat): bool
    requires n <= |boxes|
  {
    if n == 0 then true
    else HistoricData(boxes, n - 1) && !(Historic(boxes[n - 1]) && |BoxWords(boxes[n - 1])| == 0)
  }

  /** `historic_data` stays true exactly when every historic-growth box has a term after
      its first. */
  lemma {:induction false} HistoricDataIff(boxes: seq<Box>, n: nat)
    requires n <= |boxes|
    ensures HistoricData(boxes, n) <==> forall i :: 0 <= i < n && Historic(boxes[i]) ==> |boxes[i].terms| >= 2
    decreases n
  {
    if n > 0 {
      HistoricDataIff(boxes, n - 1);
    }
  }

  /** When every box before box `i` has one cell per term after its first, the labels and
      values of box `i` sit at the same positions, so `dict(zip(...))` pairs each label
      of the box with the box's own cell. */
  lemma {:induction false} BoxesAligned(boxes: seq<Box>, n: nat, i: nat, j: nat)
    requires i < n <= |boxes|
    requires forall k :: 0 <= k < i ==> |BoxWords(boxes[k])| == |boxes[k].details|
    requires j < |BoxWords(boxes[i])| && j < |boxes[i].details|
    ensures |Labels(boxes, i)| == |Amounts(boxes, i)|
    ensures var o := |Labels(boxes, i)|;
            o + j < |Labels(boxes, n)| && o + j < |Amounts(boxes, n)| &&
            Labels(boxes, n)[o + j] == BoxWords(boxes[i])[j] &&
            Amounts(boxes, n)[o + j] == DetailNumber(boxes[i].details[j])
    decreases n
  {
    BalancedPrefix(boxes, i);
    if n - 1 > i {
      BoxesAligned(boxes, n - 1, i, j);
    }
  }

  lemma {:induction false} BalancedPrefix(boxes: seq<Box>, i: nat)
    requires i <= |boxes|
    requires forall k :: 0 <= k < i ==> |BoxWords(boxes[k])| == |boxes[k].details|
    ensures |Labels(boxes, i)| == |Amounts(boxes, i)|
    decreases i
  {
    if i > 0 {
      BalancedPrefix(boxes, i - 1);
    }
  }

  /** The words of one box, term by term. */
  method CollectWords(b: Box) returns (words: seq<string>)
    ensures words == BoxWords(b)
  {
    words := [];
    var historic := b.heading == HistoricHeading;
    var j := 1;
    while j < |b.terms|
      invariant 1 <= j <= |b.terms| || (|b.terms| == 0 && j == 1)
      invariant |words| == j - 1
      invariant forall q :: 0 <= q < j - 1 ==> words[q] == TermWord(b.terms[q + 1], Historic(b))
    {
      words := words + [Strip(Split(b.terms[j], '|')[0]) + (if historic then " Growth 5yr" else "")];
      j := j + 1;
    }
  }

  /** The values of one box, cell by cell, with the two fallbacks. */
  method CollectNumbers(b: Box) returns (numbers: seq<Value>)
    ensures numbers == BoxNumbers(b)
  {
    numbers := [];
    var j := 0;
    while j < |b.details|
      invariant 0 <= j <= |b.details|
      invariant |numbers| == j
      invariant forall q :: 0 <= q < j ==> numbers[q] == DetailNumber(b.details[q])
    {
      var d := b.details[j];
      var number: Value;
      if d.data.Some? && PyFloat(d.data.value).Ok? {
        number := PyFloat(d.data.value).value;
        if number == Num(Sentinel) {
          number := Missing;
        }
      } else if d.text.Some? {
        number := Text(d.text.value);
      } else {
        number := Missing;
      }
      numbers := numbers + [number];
      j := j + 1;
    }
  }

  /** The loop over the boxes. */
  method CollectBoxes(boxes: seq<Box>) returns (labels: seq<string>, values: seq<Value>, historic: bool)
    ensures labels == Labels(boxes, |boxes|)
    ensures values == Amounts(boxes, |boxes|)
    ensures historic == HistoricData(boxes, |boxes|)
  {
    labels, values, historic := [], [], true;
    var i := 0;
    while i < |boxes|
      invariant 0 <= i <= |boxes|
      invariant labels == Labels(boxes, i) && values == Amounts(boxes, i) && historic == HistoricData(boxes, i)
    {
      var words := CollectWords(boxes[i]);
      var numbers := CollectNumbers(boxes[i]);
      if boxes[i].heading == HistoricHeading && |words| == 0 {
        historic := false;
      }
      labels := labels + words;
      values := values + numbers;
      i := i + 1;
    }
  }

  // ---------------------------------------------------------------------------
  // Short interest (lines 722-734).

  /** The row renames, each label mapped once. */
  function Rename(name: string): string {
    if name == "Current Month" then "Short Int Current Month"
    else if name == "Previous Month" then "Short Int Prev Month"
    else if name == "Percent of Float" then "Short Int Pct of Float"
    else name
  }

  function Renamed(t: Table): (r: Table)
    ensures |r| == |t|
    ensures forall i :: 0 <= i < |t| ==> r[i] == Entry(Rename(t[i].name), t[i].value)
  {
    seq(|t|, i requires 0 <= i < |t| => Entry(Rename(t[i].name), t[i].value))
  }

  /** `.astype('float64')` on one cell. */
  function AsFloat(v: Value): (r: Result<Value>)
    ensures r.Ok? ==> r.value.Num? || r.value.Missing?
    ensures v.Num? || v.Missing? ==> r == Ok(v)
  {
    match v
    case Num(_) => Ok(v)
    case Missing => Ok(v)
    case Text(s) => PyFloat(s)
    case _ => Fail(TypeError)
  }

  /** `t.loc[name] = t.loc[name].astype('float64') / 100`. */
  function ScaleRow(t: Table, name: string): (r: Result<Table>)
    ensures r.Ok? <==> name in Names(t) && AsFloat(Get(t, name).value).Ok?
  {
    var v :- Get(t, name);
    var f :- AsFloat(v);
    Ok(Put(t, name, Hundredths(f)))
  }

  const PctOfFloat := "Short Int Pct of Float"
  const HeldByInstitutions := "% Held by Institutions"

  /** The two rescalings inside one `try`: the first failure skips what is left, so
      without `Short Int Pct of Float` the institutions row is never rescaled, and an
      institutions row that is absent or not a float stays as it was. No other row
      changes. */
  function ShortInterest(t: Table): (r: Table)
    ensures ScaleRow(t, PctOfFloat).Fail? ==> r == t
    ensures ScaleRow(t, PctOfFloat).Ok? ==>
              Lookup(r, PctOfFloat) == Some(Hundredths(AsFloat(Get(t, PctOfFloat).value).value))
    ensures ScaleRow(t, PctOfFloat).Ok? && HeldByInstitutions in Names(t) &&
            AsFloat(Get(t, HeldByInstitutions).value).Ok? ==>
              Lookup(r, HeldByInstitutions) == Some(Hundredths(AsFloat(Get(t, HeldByInstitutions).value).value))
    ensures !(HeldByInstitutions in Names(t) && AsFloat(Get(t, HeldByInstitutions).value).Ok?) ==>
              Lookup(r, HeldByInstitutions) == Lookup(t, HeldByInstitutions)
    ensures forall k :: k != PctOfFloat && k != HeldByInstitutions ==> Lookup(r, k) == Lookup(t, k)
  {
    match ScaleRow(t, PctOfFloat)
    case Fail(_) => t
    case Ok(t1) =>
      PutSpec(t, PctOfFloat, Hundredths(AsFloat(Get(t, PctOfFloat).value).value));
      match ScaleRow(t1, HeldByInstitutions)
      case Fail(_) => t1
      case Ok(t2) =>
        PutSpec(t1, HeldByInstitutions, Hundredths(AsFloat(Get(t1, HeldByInstitutions).value).value));
        t2
  }

  // ---------------------------------------------------------------------------
  // Assembling the tab (lines 741-775).

  /** What the extraction hands over: the overview labels and their raw attributes, the
      chart's marker texts and period texts, the boxes, and the three report grids. */
  datatype Page = Page(labels: seq<string>, attrs: seq<Option<string>>, markers: seq<string>,
                       periods: seq<string>, boxes: seq<Box>,
                       balance: Grid, income: Grid, cashFlow: Grid)

  /** `past_dict` as year rows of the yearly frame. */
  function PastFrame(rows: seq<Entry<Period>>): (r: Frame)
    ensures Names(r) == Names(rows)
    ensures forall i :: 0 <= i < |rows| ==>
              r[i].value == map["high" := Text(rows[i].value.high), "low" := Text(rows[i].value.low),
                                "change" := Text(rows[i].value.change)]
  {
    seq(|rows|, i requires 0 <= i < |rows| =>
      Entry(rows[i].name, map["high" := Text(rows[i].value.high), "low" := Text(rows[i].value.low),
                              "change" := Text(rows[i].value.change)]))
  }

  /** `column / 100` on a cleaned summary cell: a date or a string raises TypeError. */
  function Div100(v: Value): (r: Result<Value>)
    ensures r.Ok? <==> v.Num? || v.Missing?
    ensures r.Fail? ==> r.error == TypeError
    ensures r.Ok? ==> r.value == Hundredths(v)
  {
    if v.Num? || v.Missing? then Ok(Hundredths(v)) else Fail(TypeError)
  }

  const EpsGrowth := "EPS Growth 5yr"
  const RevenueGrowth := "Revenue Growth 5yr"
  const DividendGrowth := "Dividend Growth 5yr"

  /** `temp[name] = temp[name] / 100`: KeyError when the row is absent. */
  function Rescale(t: Table, name: string): (r: Result<Table>)
    ensures r.Ok? <==> name in Names(t) && Div100(Get(t, name).value).Ok?
    ensures r.Ok? ==> Lookup(r.value, name) == Some(Hundredths(Get(t, name).value))
    ensures r.Ok? ==> forall k :: k != name ==> Lookup(r.value, k) == Lookup(t, k)
  {
    var v :- Get(t, name);
    var w :- Div100(v);
    PutSpec(t, name, w);
    Ok(Put(t, name, w))
  }

  predicate GrowthName(k: string) {
    k == EpsGrowth || k == RevenueGrowth || k == DividendGrowth
  }

  /** The row is there and holds a float or NaN. */
  predicate Rescalable(t: Table, name: string) {
    name in Names(t) && Div100(Get(t, name).value).Ok?
  }

  /** When every historic-growth box had terms: the three rows over 100, in order; the
      first that is absent or not a number aborts the scrape. */
  function RescaleGrowths(t: Table): (r: Result<Table>)
    ensures r.Ok? <==> Rescalable(t, EpsGrowth) && Rescalable(t, RevenueGrowth) && Rescalable(t, DividendGrowth)
    ensures r.Ok? ==> Lookup(r.value, EpsGrowth) == Some(Hundredths(Get(t, EpsGrowth).value))
    ensures r.Ok? ==> Lookup(r.value, RevenueGrowth) == Some(Hundredths(Get(t, RevenueGrowth).value))
    ensures r.Ok? ==> Lookup(r.value, DividendGrowth) == Some(Hundredths(Get(t, DividendGrowth).value))
    ensures r.Ok? ==> forall k :: !GrowthName(k) ==> Lookup(r.value, k) == Lookup(t, k)
  {
    var t1 :- Rescale(t, EpsGrowth);
    var t2 :- Rescale(t1, RevenueGrowth);
    Rescale(t2, DividendGrowth)
  }

  /** Otherwise: the three rows set to NaN, present or not. */
  function BlankGrowths(t: Table): (r: Table)
    ensures Lookup(r, EpsGrowth) == Some(Missing)
    ensures Lookup(r, RevenueGrowth) == Some(Missing)
    ensures Lookup(r, DividendGrowth) == Some(Missing)
    ensures forall k :: !GrowthName(k) ==> Lookup(r, k) == Lookup(t, k)
  {
    var t1 := Put(t, EpsGrowth, Missing);
    PutSpec(t, EpsGrowth, Missing);
    var t2 := Put(t1, RevenueGrowth, Missing);
    PutSpec(t1, RevenueGrowth, Missing);
    PutSpec(t2, DividendGrowth, Missing);
    Put(t2, DividendGrowth, Missing)
  }

  const FcfGrowth := "FCF Growth 5yr"

  /** The overview with the chart's figures added, and the rows of `past_dict`. */
  function Chart(page: Page): (r: Result<(Table, seq<Entry<Period>>)>)
  {
    var overview :- Overview(page.labels, page.attrs);
    var low :- MarkerPrice(page.markers, 0);
    var high :- MarkerPrice(page.markers, 1);
    var periods :- PeriodsFrom(PeriodsOf(page.periods), [], [], 0);
    Ok((Put(Put(Put(overview, "5yr Low", low), "5yr High", high), "5yr Avg Return", AvgReturn(periods.1)),
        periods.0))
  }

  /** `temp2`: the boxes' labels zipped with their values, renamed and rescaled. */
  function BoxTable(boxes: seq<Box>): Table {
    ShortInterest(Renamed(DictZip(Labels(boxes, |boxes|), Amounts(boxes, |boxes|))))
  }

  /** The free-cash-flow columns and the summary rows drawn from them and from the boxes. */
  function Finish(temp: Table, yearly: Frame, historic: bool): (r: Result<(Table, Frame)>)
    ensures r.Ok? ==> r.value.1 == Cash(yearly).0
    ensures r.Ok? ==> Lookup(r.value.0, FcfGrowth) == Some(Cash(yearly).1)
    ensures !historic ==> r.Ok? && Lookup(r.value.0, EpsGrowth) == Some(Missing) &&
                          Lookup(r.value.0, RevenueGrowth) == Some(Missing) &&
                          Lookup(r.value.0, DividendGrowth) == Some(Missing)
    ensures historic ==> (r.Ok? <==> Rescalable(temp, EpsGrowth) && Rescalable(temp, RevenueGrowth) &&
                                      Rescalable(temp, DividendGrowth))
    ensures historic && r.Ok? ==>
              Lookup(r.value.0, EpsGrowth) == Some(Hundredths(Get(temp, EpsGrowth).value)) &&
              Lookup(r.value.0, RevenueGrowth) == Some(Hundredths(Get(temp, RevenueGrowth).value)) &&
              Lookup(r.value.0, DividendGrowth) == Some(Hundredths(Get(temp, DividendGrowth).value))
    ensures r.Ok? ==> forall k :: k != FcfGrowth && !GrowthName(k) ==> Lookup(r.value.0, k) == Lookup(temp, k)
  {
    var cash := Cash(yearly);
    var withFcf := Put(temp, FcfGrowth, cash.1);
    PutSpec(temp, FcfGrowth, cash.1);
    assert !GrowthName(FcfGrowth);
    var summary :- if historic then RescaleGrowths(withFcf) else Ok(BlankGrowths(withFcf));
    Ok((summary, cash.0))
  }

  /** The summary table and the yearly frame of the tab. Each step may abort the scrape,
      in the order of the source: the overview floats, the chart markers, the periods,
      the report grids, then `clean` on the summary and on the yearly frame. */
  function FundamentalsTab(page: Page): (r: Result<(Table, Frame)>)
  {
    var chart :- Chart(page);
    var raw :- YearlyFrame(PastFrame(chart.1), page.balance, page.income, page.cashFlow);
    var temp :- CleanAll(chart.0 + BoxTable(page.boxes), |chart.0 + BoxTable(page.boxes)|);
    var yearly :- CleanFrame(raw, |raw|);
    Finish(temp, yearly, HistoricData(page.boxes, |page.boxes|))
  }

  /** `scrape_fundamentals` after the page is read: the loops above, then the frames. */
  method ScrapeFundamentals(page: Page) returns (r: Result<(Table, Frame)>)
    ensures r == FundamentalsTab(page)
  {
    var overview := ScrapeOverview(page.labels, page.attrs);
    if overview.Fail? {
      return Fail(overview.error);
    }
    var low := MarkerPrice(page.markers, 0);
    if low.Fail? {
      return Fail(low.error);
    }
    var high := MarkerPrice(page.markers, 1);
    if high.Fail? {
      return Fail(high.error);
    }
    var periods := ParsePeriods(page.periods);
    if periods.Fail? {
      return Fail(periods.error);
    }
    var fundies := Put(Put(Put(overview.value, "5yr Low", low.value), "5yr High", high.value),
                       "5yr Avg Return", AvgReturn(periods.value.1));
    assert Chart(page) == Ok((fundies, periods.value.0));
    var labels, values, historic := CollectBoxes(page.boxes);
    var temp2 := ShortInterest(Renamed(DictZip(labels, values)));
    var balance := FillGrid(page.balance);
    if balance.Fail? {
      return Fail(balance.error);
    }
    var income := FillGrid(page.income);
    if income.Fail? {
      return Fail(income.error);
    }
    var cash := FillGrid(page.cashFlow);
    if cash.Fail? {
      return Fail(cash.error);
    }
    var raw := Merge(Merge(Merge(PastFrame(periods.value.0), balance.value, |balance.value|),
                           income.value, |income.value|), cash.value, |cash.value|);
    var temp := CleanAll(fundies + temp2, |fundies + temp2|);
    if temp.Fail? {
      return Fail(temp.error);
    }
    var yearly := CleanFrame(raw, |raw|);
    if yearly.Fail? {
      return Fail(yearly.error);
    }
    r := Finish(temp.value, yearly.value, historic);
  }
}
