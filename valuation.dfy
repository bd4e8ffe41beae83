/** The "Valuation" tab (`scrape_valuation`): six sub-tabs, each a list of ratios with
    the ticker's figure and the industry's, stacked into one frame with a ratio column. */
module Valuation {
  import opened Values
  import opened Cleaner

  /** The sub-tabs in the order they are visited, spelled as the site's scraper spells
      them ("Gowth rates" included): the name ends up in every row's `Type`. */
  const TabNames: seq<string> :=
    ["Valuation", "Profitability", "Dividend", "Gowth rates", "Effectiveness", "Financial strength"]

  /** One `td.data-compare` cell: the texts of its `<dt>` captions and `<dd>` figures. */
  datatype Compare = Compare(captions: seq<string>, figures: seq<string>)

  /** A sub-tab as the extraction finds it: `Empty` when its first figure never shows
      (the tab is skipped), otherwise its definition-link texts and its compare cells. */
  datatype TabPage = Empty | Shown(rowNames: seq<string>, tds: seq<Compare>)

  /** The row a compare cell makes: the two figures under their captions, then the tab
      name under `Type` (a later key overwrites an equal earlier one). */
  function CompareRow(name: string, td: Compare): Cells
    requires WellFormed(td)
  {
    map[td.captions[0] := Text(td.figures[0])][td.captions[1] := Text(td.figures[1])]["Type" := Text(name)]
  }

  predicate WellFormed(td: Compare) {
    |td.captions| >= 2 && |td.figures| >= 2
  }

  /** The row loop of one sub-tab from row `i` on (row `i + 1` of `rowNames`, cell `i`
      of `tds`): each label gets a fresh row, in its first place when repeated; a
      missing cell, caption or figure raises IndexError. */
  function TabRowsFrom(name: string, rowNames: seq<string>, tds: seq<Compare>, rows: Frame, i: nat): Result<Frame>
    requires i <= |rowNames|
    decreases |rowNames| - i
  {
    if i + 1 >= |rowNames| then Ok(rows)
    else if i >= |tds| || !WellFormed(tds[i]) then Fail(IndexError)
    else TabRowsFrom(name, rowNames, tds, Put(rows, rowNames[i + 1], CompareRow(name, tds[i])), i + 1)
  }

  function TabRows(name: string, rowNames: seq<string>, tds: seq<Compare>): Result<Frame> {
    TabRowsFrom(name, rowNames, tds, [], 0)
  }

  /** `row_names[1:]`. */
  function Labels(rowNames: seq<string>): (r: seq<string>)
    ensures |r| == if |rowNames| == 0 then 0 else |rowNames| - 1
    ensures forall j :: 0 <= j < |r| ==> r[j] == rowNames[j + 1]
  {
    if |rowNames| == 0 then [] else rowNames[1..]
  }

  /** The rows the cells make, one per label after the first, in order. */
  function CompareRows(name: string, tds: seq<Compare>, n: nat): (r: seq<Cells>)
    requires n <= |tds| && forall j :: 0 <= j < n ==> WellFormed(tds[j])
    ensures |r| == n
    ensures forall j :: 0 <= j < n ==> r[j] == CompareRow(name, tds[j])
  {
    seq(n, j requires 0 <= j < n && n <= |tds| && WellFormed(tds[j]) => CompareRow(name, tds[j]))
  }

  /** `value_dict` is `dict(zip(row_names[1:], rows))` when every label has a
      well-formed cell, and the loop raises IndexError otherwise. */
  lemma {:induction false} TabRowsZip(name: string, rowNames: seq<string>, tds: seq<Compare>, i: nat)
    requires i <= |Labels(rowNames)| && i <= |tds|
    requires forall j :: 0 <= j < i ==> WellFormed(tds[j])
    ensures var n := |Labels(rowNames)|;
            var r := TabRowsFrom(name, rowNames, tds, DictZipUpTo(Labels(rowNames), CompareRows(name, tds, i), i), i);
            (r.Ok? <==> n <= |tds| && forall j :: i <= j < n ==> WellFormed(tds[j])) &&
            (r.Fail? ==> r.error == IndexError) &&
            (r.Ok? ==> r.value == DictZipUpTo(Labels(rowNames), CompareRows(name, tds, n), n))
    decreases |rowNames| - i
  {
    var n := |Labels(rowNames)|;
    if i < n && i < |tds| && WellFormed(tds[i]) {
      var before := CompareRows(name, tds, i);
      var after := CompareRows(name, tds, i + 1);
      DictZipUpToSame(Labels(rowNames), before, after, i);
      TabRowsZip(name, rowNames, tds, i + 1);
    }
  }

  /** The prefix of a zip only reads the prefix of its values. */
  lemma {:induction false} DictZipUpToSame(keys: seq<string>, a: seq<Cells>, b: seq<Cells>, n: nat)
    requires n <= |keys| && n <= |a| && n <= |b|
    requires forall j :: 0 <= j < n ==> a[j] == b[j]
    ensures DictZipUpTo(keys, a, n) == DictZipUpTo(keys, b, n)
    decreases n
  {
    if n > 0 {
      DictZipUpToSame(keys, a, b, n - 1);
    }
  }

  /** The row loop of one sub-tab. */
  method FillTab(name: string, rowNames: seq<string>, tds: seq<Compare>) returns (r: Result<Frame>)
    ensures r == TabRows(name, rowNames, tds)
  {
    var rows: Frame := [];
    var i := 0;
    while i + 1 < |rowNames|
      invariant i <= |rowNames|
      invariant TabRowsFrom(name, rowNames, tds, rows, i) == TabRows(name, rowNames, tds)
      decreases |rowNames| - i
    {
      if i >= |tds| || |tds[i].captions| < 2 || |tds[i].figures| < 2 {
        return Fail(IndexError);
      }
      rows := Put(rows, rowNames[i + 1], CompareRow(name, tds[i]));
      i := i + 1;
    }
    r := Ok(rows);
  }

  /** Every row a sub-tab makes carries the tab's name under `Type`. */
  lemma {:induction false} TabRowsTyped(name: string, rowNames: seq<string>, tds: seq<Compare>, rows: Frame, i: nat)
    requires i <= |rowNames|
    requires forall q :: 0 <= q < |rows| ==> "Type" in rows[q].value && rows[q].value["Type"] == Text(name)
    ensures var r := TabRowsFrom(name, rowNames, tds, rows, i);
            r.Ok? ==> forall q :: 0 <= q < |r.value| ==> "Type" in r.value[q].value && r.value[q].value["Type"] == Text(name)
    decreases |rowNames| - i
  {
    if i + 1 < |rowNames| && i < |tds| && WellFormed(tds[i]) {
      var e := CompareRow(name, tds[i]);
      PutRows(rows, rowNames[i + 1], e, name);
      TabRowsTyped(name, rowNames, tds, Put(rows, rowNames[i + 1], e), i + 1);
    }
  }

  lemma PutRows(rows: Frame, k: string, e: Cells, name: string)
    requires forall q :: 0 <= q < |rows| ==> "Type" in rows[q].value && rows[q].value["Type"] == Text(name)
    requires "Type" in e && e["Type"] == Text(name)
    ensures var r := Put(rows, k, e);
            forall q :: 0 <= q < |r| ==> "Type" in r[q].value && r[q].value["Type"] == Text(name)
  {
  }

  /** The loop over the sub-tabs from tab `i` on: a skipped tab adds nothing, a shown
      one appends its rows below the earlier ones (`pd.concat`, repeated labels kept). */
  function TabsFrom(pages: seq<TabPage>, frame: Frame, i: nat): Result<Frame>
    requires i <= |pages| && |pages| <= |TabNames|
    decreases |pages| - i
  {
    if i == |pages| then Ok(frame)
    else match pages[i]
      case Empty => TabsFrom(pages, frame, i + 1)
      case Shown(rowNames, tds) =>
        var rows :- TabRows(TabNames[i], rowNames, tds);
        TabsFrom(pages, frame + rows, i + 1)
  }

  /** The rows of the shown tabs among the first `n`, stacked in tab order. */
  function Stacked(pages: seq<TabPage>, n: nat): Result<Frame>
    requires n <= |pages| && |pages| <= |TabNames|
  {
    if n == 0 then Ok([])
    else
      match Stacked(pages, n - 1)
      case Fail(e) => Fail(e)
      case Ok(prev) =>
        match pages[n - 1]
        case Empty => Ok(prev)
        case Shown(rowNames, tds) =>
          match TabRows(TabNames[n - 1], rowNames, tds)
          case Fail(e) => Fail(e)
          case Ok(rows) => Ok(prev + rows)
  }

  /** The tab loop stacks the shown tabs in order and skips the empty ones. */
  lemma {:induction false} TabsStacked(pages: seq<TabPage>, i: nat)
    requires i <= |pages| && |pages| <= |TabNames|
    requires Stacked(pages, i).Ok?
    ensures TabsFrom(pages, Stacked(pages, i).value, i) == Stacked(pages, |pages|)
    decreases |pages| - i
  {
    if i < |pages| {
      if pages[i].Shown? && TabRows(TabNames[i], pages[i].rowNames, pages[i].tds).Fail? {
        StackedFails(pages, i, |pages|);
      } else {
        TabsStacked(pages, i + 1);
      }
    }
  }

  /** Once a tab fails, every longer stack fails with it. */
  lemma {:induction false} StackedFails(pages: seq<TabPage>, i: nat, n: nat)
    requires i < n <= |pages| && |pages| <= |TabNames|
    requires Stacked(pages, i).Ok?
    requires pages[i].Shown? && TabRows(TabNames[i], pages[i].rowNames, pages[i].tds).Fail?
    ensures Stacked(pages, n) == Fail(TabRows(TabNames[i], pages[i].rowNames, pages[i].tds).error)
    decreases n
  {
    if n - 1 > i {
      StackedFails(pages, i, n - 1);
    }
  }

  /** Every stacked row carries under `Type` the name of a sub-tab it came from. */
  lemma {:induction false} StackedTyped(pages: seq<TabPage>, n: nat)
    requires n <= |pages| <= |TabNames|
    requires Stacked(pages, n).Ok?
    ensures var f := Stacked(pages, n).value;
            forall q :: 0 <= q < |f| ==>
              "Type" in f[q].value && f[q].value["Type"].Text? && f[q].value["Type"].s in TabNames[..n]
    decreases n
  {
    if n > 0 {
      StackedTyped(pages, n - 1);
      var prev := Stacked(pages, n - 1).value;
      var f := Stacked(pages, n).value;
      assert TabNames[..n] == TabNames[..n - 1] + [TabNames[n - 1]];
      if pages[n - 1].Shown? {
        var rows := TabRows(TabNames[n - 1], pages[n - 1].rowNames, pages[n - 1].tds).value;
        TabRowsTyped(TabNames[n - 1], pages[n - 1].rowNames, pages[n - 1].tds, [], 0);
        assert forall p :: 0 <= p < |rows| ==> "Type" in rows[p].value && rows[p].value["Type"] == Text(TabNames[n - 1]);
        assert f == prev + rows;
        forall q | 0 <= q < |f|
          ensures "Type" in f[q].value && f[q].value["Type"].Text? && f[q].value["Type"].s in TabNames[..n]
        {
          if q < |prev| {
            assert f[q] == prev[q];
            assert prev[q].value["Type"].s in TabNames[..n - 1];
          } else {
            var p := q - |prev|;
            assert f[q] == rows[p];
            assert "Type" in rows[p].value && rows[p].value["Type"] == Text(TabNames[n - 1]);
            assert TabNames[..n][n - 1] == TabNames[n - 1];
          }
        }
      } else {
        assert f == prev;
      }
    }
  }

  /** The tab loop of `scrape_valuation` (the pages are those of `TabNames`, in order). */
  method StackTabs(pages: seq<TabPage>) returns (r: Result<Frame>)
    requires |pages| <= |TabNames|
    ensures r == Stacked(pages, |pages|)
  {
    var frame: Frame := [];
    var i := 0;
    TabsStacked(pages, 0);
    while i < |pages|
      invariant i <= |pages|
      invariant TabsFrom(pages, frame, i) == Stacked(pages, |pages|)
    {
      match pages[i] {
        case Empty =>
        case Shown(rowNames, tds) =>
          var rows := FillTab(TabNames[i], rowNames, tds);
          if rows.Fail? {
            return Fail(rows.error);
          }
          frame := frame + rows.value;
      }
      i := i + 1;
    }
    r := Ok(frame);
  }

  /** `clean` on every cell of a row but its `Type` (`apply`, so NaN cells are passed
      through too, and come back unchanged). */
  function CleanRow(m: Cells): (r: Result<Cells>)
    ensures r.Ok? <==> forall k :: k in m && k != "Type" ==> Clean(m[k]).Ok?
    ensures r.Fail? ==> r.error == AttributeError
    ensures r.Ok? ==> r.value.Keys == m.Keys
    ensures r.Ok? ==> forall k :: k in m ==> if k == "Type" then r.value[k] == m[k] else Ok(r.value[k]) == Clean(m[k])
  {
    if forall k :: k in m && k != "Type" ==> Clean(m[k]).Ok? then
      Ok(map k | k in m :: if k == "Type" then m[k] else Clean(m[k]).value)
    else Fail(AttributeError)
  }

  function CleanRows(f: Frame, hi: nat): (r: Result<Frame>)
    requires hi <= |f|
    ensures r.Ok? <==> forall i :: 0 <= i < hi ==> CleanRow(f[i].value).Ok?
    ensures r.Ok? ==> |r.value| == hi
    ensures r.Ok? ==> forall i :: 0 <= i < hi ==>
              r.value[i].name == f[i].name && Ok(r.value[i].value) == CleanRow(f[i].value)
    decreases hi
  {
    if hi == 0 then Ok([])
    else
      match CleanRows(f, hi - 1)
      case Fail(e) => Fail(e)
      case Ok(prev) =>
        match CleanRow(f[hi - 1].value)
        case Fail(e) => Fail(e)
        case Ok(c) => Ok(prev + [Entry(f[hi - 1].name, c)])
  }

  /** `a / b` on two cleaned cells: pandas divides only where both cells are present,
      so NaN on either side gives NaN (whatever is on the other side), and so does a zero
      industry figure; a date beside a present cell raises TypeError. */
  function Ratio(a: Value, b: Value): (r: Result<Value>)
    ensures r.Ok? <==> a.Missing? || b.Missing? || (a.Num? && b.Num?)
    ensures a.Missing? || b.Missing? ==> r == Ok(Missing)
    ensures r.Fail? ==> r.error == TypeError
    ensures r.Ok? ==> (r.value.Num? <==> a.Num? && b.Num? && b.x != 0.0)
    ensures r.Ok? && r.value.Num? ==> r.value.x * b.x == a.x
  {
    if a.Missing? || b.Missing? then Ok(Missing)
    else if a.Num? && b.Num? then Ok(if b.x == 0.0 then Missing else Num(a.x / b.x))
    else Fail(TypeError)
  }

  function Ratios(xs: seq<Value>, ys: seq<Value>, hi: nat): (r: Result<seq<Value>>)
    requires hi <= |xs| && hi <= |ys|
    ensures r.Ok? <==> forall i :: 0 <= i < hi ==> Ratio(xs[i], ys[i]).Ok?
    ensures r.Fail? ==> r.error == TypeError
    ensures r.Ok? ==> |r.value| == hi && forall i :: 0 <= i < hi ==> Ratio(xs[i], ys[i]) == Ok(r.value[i])
    decreases hi
  {
    if hi == 0 then Ok([])
    else
      match Ratios(xs, ys, hi - 1)
      case Fail(e) => Fail(e)
      case Ok(prev) =>
        match Ratio(xs[hi - 1], ys[hi - 1])
        case Fail(e) => Fail(e)
        case Ok(v) => Ok(prev + [v])
  }

  const RatioColumn := "Ratio to Industry"

  /** `valuation_df['Ratio to Industry'] = valuation_df[ticker] / valuation_df['Industry']`:
      KeyError when no row has either column. */
  function WithRatio(f: Frame, ticker: string): (r: Result<Frame>)
    ensures (forall i :: 0 <= i < |f| ==> ticker !in f[i].value) ==> r == Fail(KeyError)
    ensures (forall i :: 0 <= i < |f| ==> "Industry" !in f[i].value) ==> r == Fail(KeyError)
    ensures r.Ok? ==> |r.value| == |f|
    ensures r.Ok? ==> forall i :: 0 <= i < |f| ==>
              r.value[i].name == f[i].name && RatioColumn in r.value[i].value &&
              Ratio(CellOf(f[i].value, ticker), CellOf(f[i].value, "Industry")) == Ok(r.value[i].value[RatioColumn])
  {
    var mine :- Column(f, ticker);
    var industry :- Column(f, "Industry");
    var ratios :- Ratios(mine, industry, |f|);
    Ok(WithColumn(f, RatioColumn, ratios))
  }

  function CellOf(m: Cells, k: string): Value {
    if k in m then m[k] else Missing
  }

  /** The frame of the tab: the shown sub-tabs stacked, cleaned, and the ratio added. */
  function ValuationTab(ticker: string, pages: seq<TabPage>): (r: Result<Frame>)
    requires |pages| <= |TabNames|
  {
    var stacked :- Stacked(pages, |pages|);
    var cleaned :- CleanRows(stacked, |stacked|);
    WithRatio(cleaned, ticker)
  }

  /** With no shown sub-tab the frame has no columns, and the ratio raises KeyError. */
  lemma {:induction false} NothingShown(ticker: string, pages: seq<TabPage>, n: nat)
    requires n <= |pages| <= |TabNames|
    requires forall i :: 0 <= i < n ==> pages[i].Empty?
    ensures Stacked(pages, n) == Ok([])
    ensures n == |pages| ==> ValuationTab(ticker, pages) == Fail(KeyError)
    decreases n
  {
    if n > 0 {
      NothingShown(ticker, pages, n - 1);
    }
  }

  method ScrapeValuation(ticker: string, pages: seq<TabPage>) returns (r: Result<Frame>)
    requires |pages| <= |TabNames|
    ensures r == ValuationTab(ticker, pages)
  {
    var stacked := StackTabs(pages);
    if stacked.Fail? {
      return Fail(stacked.error);
    }
    var cleaned := CleanRows(stacked.value, |stacked.value|);
    if cleaned.Fail? {
      return Fail(cleaned.error);
    }
    r := WithRatio(cleaned.value, ticker);
  }
}
