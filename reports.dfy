/** The yearly side of `scrape_fundamentals`: the report grids its inner `scrape_report`
    fills, their merge with the price periods, the cleaning of every cell, and the free
    cash flow derived from the Cash Flow report.

    A yearly frame is kept one row per year (the orientation after the final transpose):
    each row maps a line name of a report (`Total Cash from Operations`, `Date`, ...) to
    its cell. The `Report` tag that records which report a line came from is not kept. */
module Reports {
  import opened Values
  import opened Strings
  import opened Cleaner
  import opened Series

  /** One `<tr>` of a report table: its text joined with `|` and the texts of its `<td>`
      cells, left to right. */
  datatype Line = Line(header: string, cells: seq<string>)

  /** A report table as extracted: the column header texts (`year|date`) and every row,
      header row included. */
  datatype Grid = Grid(heads: seq<string>, lines: seq<Line>)

  // ---------------------------------------------------------------------------
  // The grid fill of `scrape_report` (lines 695-714).

  function HeadYear(head: string): string {
    Split(head, '|')[0]
  }

  function LineName(l: Line): string {
    Split(l.header, '|')[0]
  }

  /** `years = [x.split('|')[0] for x in year_info]`. */
  function HeadYears(heads: seq<string>): (r: seq<string>)
    ensures |r| == |heads|
  {
    seq(|heads|, i requires 0 <= i < |heads| => HeadYear(heads[i]))
  }

  /** `dates = [x.split('|')[1] for x in year_info]`: IndexError as soon as a header has no
      `|`. */
  function HeadDates(heads: seq<string>, hi: nat): (r: Result<seq<string>>)
    requires hi <= |heads|
    ensures r.Ok? <==> forall i :: 0 <= i < hi ==> |Split(heads[i], '|')| >= 2
    ensures r.Fail? ==> r.error == IndexError
    ensures r.Ok? ==> |r.value| == hi
    ensures r.Ok? ==> forall i :: 0 <= i < hi ==> r.value[i] == Split(heads[i], '|')[1]
    decreases hi
  {
    if hi == 0 then Ok([])
    else
      var prev :- HeadDates(heads, hi - 1);
      var parts := Split(heads[hi - 1], '|');
      if |parts| < 2 then Fail(IndexError) else Ok(prev + [parts[1]])
  }

  /** The fresh row each year starts with: only its date. */
  function DateRows(dates: seq<string>): (r: seq<Cells>)
    ensures |r| == |dates|
  {
    seq(|dates|, i requires 0 <= i < |dates| => map["Date" := Text(dates[i])])
  }

  /** The cells a frame holds for `year`, none when it has no such row. */
  function CellsOf(f: Frame, year: string): Cells {
    match Lookup(f, year)
    case Some(c) => c
    case None => map[]
  }

  /** `sheet[year][name] = text`. */
  function SetCell(sheet: Frame, year: string, name: string, text: string): Frame {
    Put(sheet, year, CellsOf(sheet, year)[name := Text(text)])
  }

  /** The inner loop over one row's cells from cell `i` on: cell `i` goes to the year of
      column `i`; a row with more cells than there are years raises IndexError. */
  function FillLine(sheet: Frame, years: seq<string>, name: string, cells: seq<string>, i: nat)
    : Result<Frame>
    requires i <= |cells|
    decreases |cells| - i
  {
    if i == |cells| then Ok(sheet)
    else if i >= |years| then Fail(IndexError)
    else FillLine(SetCell(sheet, years[i], name, cells[i]), years, name, cells, i + 1)
  }

  /** The outer loop over the rows from row `j` on. */
  function FillLines(sheet: Frame, years: seq<string>, lines: seq<Line>, j: nat): Result<Frame>
    requires j <= |lines|
    decreases |lines| - j
  {
    if j == |lines| then Ok(sheet)
    else
      var next :- FillLine(sheet, years, LineName(lines[j]), lines[j].cells, 0);
      FillLines(next, years, lines, j + 1)
  }

  /** `rows[1:]`: the table's header row is skipped. */
  function Body(lines: seq<Line>): seq<Line> {
    if |lines| == 0 then [] else lines[1..]
  }

  /** The sheet `scrape_report` builds, one row per year. */
  function GridSheet(g: Grid): Result<Frame> {
    var dates :- HeadDates(g.heads, |g.heads|);
    var years := HeadYears(g.heads);
    FillLines(DictZipUpTo(years, DateRows(dates), |years|), years, Body(g.lines), 0)
  }

  /** The loops of `scrape_report` over the years and then over the rows and their cells. */
  method FillGrid(g: Grid) returns (r: Result<Frame>)
    ensures r == GridSheet(g)
  {
    var years := HeadYears(g.heads);
    var dates := HeadDates(g.heads, |g.heads|);
    if dates.Fail? {
      return Fail(dates.error);
    }
    var sheet: Frame := [];
    var i := 0;
    while i < |years|
      invariant 0 <= i <= |years|
      invariant sheet == DictZipUpTo(years, DateRows(dates.value), i)
    {
      sheet := Put(sheet, years[i], map["Date" := Text(dates.value[i])]);
      i := i + 1;
    }
    var lines := Body(g.lines);
    var j := 0;
    while j < |lines|
      invariant 0 <= j <= |lines|
      invariant FillLines(sheet, years, lines, j) == GridSheet(g)
    {
      var name := LineName(lines[j]);
      var cells := lines[j].cells;
      ghost var before := sheet;
      var k := 0;
      while k < |cells|
        invariant 0 <= k <= |cells|
        invariant FillLine(sheet, years, name, cells, k) == FillLine(before, years, name, cells, 0)
      {
        if k >= |years| {
          FillLinesFrom(before, years, lines, j);
          return Fail(IndexError);
        }
        sheet := SetCell(sheet, years[k], name, cells[k]);
        k := k + 1;
      }
      j := j + 1;
    }
    r := Ok(sheet);
  }

  /** A row that fails aborts the rest of the fill with its error. */
  lemma FillLinesFrom(sheet: Frame, years: seq<string>, lines: seq<Line>, j: nat)
    requires j < |lines| && FillLine(sheet, years, LineName(lines[j]), lines[j].cells, 0).Fail?
    ensures FillLines(sheet, years, lines, j) == Fail(FillLine(sheet, years, LineName(lines[j]), lines[j].cells, 0).error)
  {
  }

  /** A row fills exactly when it has no more cells than there are years. */
  lemma {:induction false} FillLineFails(sheet: Frame, years: seq<string>, name: string, cells: seq<string>, i: nat)
    requires i <= |cells|
    ensures var r := FillLine(sheet, years, name, cells, i);
            (r.Ok? <==> i == |cells| || |cells| <= |years|) && (r.Fail? ==> r.error == IndexError)
    decreases |cells| - i
  {
    if i < |cells| && i < |years| {
      FillLineFails(SetCell(sheet, years[i], name, cells[i]), years, name, cells, i + 1);
    }
  }

  /** The fill raises IndexError exactly when some row has more cells than there are
      years. */
  lemma {:induction false} FillLinesFails(sheet: Frame, years: seq<string>, lines: seq<Line>, j: nat)
    requires j <= |lines|
    ensures var r := FillLines(sheet, years, lines, j);
            (r.Ok? <==> forall k :: j <= k < |lines| ==> |lines[k].cells| <= |years|) &&
            (r.Fail? ==> r.error == IndexError)
    decreases |lines| - j
  {
    if j < |lines| {
      FillLineFails(sheet, years, LineName(lines[j]), lines[j].cells, 0);
      var next := FillLine(sheet, years, LineName(lines[j]), lines[j].cells, 0);
      if next.Ok? {
        FillLinesFails(next.value, years, lines, j + 1);
      }
    }
  }

  /** Setting a cell changes the row of that year only, and in it that cell only. */
  lemma SetCellReads(sheet: Frame, year: string, name: string, text: string, y: string)
    ensures CellsOf(SetCell(sheet, year, name, text), y) ==
              if y == year then CellsOf(sheet, year)[name := Text(text)] else CellsOf(sheet, y)
  {
    PutLookup(sheet, year, CellsOf(sheet, year)[name := Text(text)], y);
  }

  /** The rest of a row leaves a cell alone when it writes another line, or other years. */
  lemma {:induction false} FillLineKeeps(sheet: Frame, years: seq<string>, name: string, cells: seq<string>,
                                         i: nat, y: string, n: string)
    requires i <= |cells| && FillLine(sheet, years, name, cells, i).Ok?
    requires n != name || forall q :: i <= q < |cells| && q < |years| ==> years[q] != y
    requires n in CellsOf(sheet, y)
    ensures var c := CellsOf(FillLine(sheet, years, name, cells, i).value, y);
            n in c && c[n] == CellsOf(sheet, y)[n]
    decreases |cells| - i
  {
    if i < |cells| {
      SetCellReads(sheet, years[i], name, cells[i], y);
      FillLineKeeps(SetCell(sheet, years[i], name, cells[i]), years, name, cells, i + 1, y, n);
    }
  }

  /** With distinct years, cell `p` of a row ends up under the row's name in year `p`. */
  lemma {:induction false} FillLineCell(sheet: Frame, years: seq<string>, name: string, cells: seq<string>,
                                        i: nat, p: nat)
    requires i <= p < |cells| <= |years|
    requires forall a, b :: 0 <= a < b < |years| ==> years[a] != years[b]
    ensures FillLine(sheet, years, name, cells, i).Ok?
    ensures var c := CellsOf(FillLine(sheet, years, name, cells, i).value, years[p]);
            name in c && c[name] == Text(cells[p])
    decreases |cells| - i
  {
    var next := SetCell(sheet, years[i], name, cells[i]);
    FillLineFails(next, years, name, cells, i + 1);
    if i < p {
      FillLineCell(next, years, name, cells, i + 1, p);
    } else {
      SetCellReads(sheet, years[i], name, cells[i], years[p]);
      FillLineKeeps(next, years, name, cells, i + 1, years[p], name);
    }
  }

  /** Rows that write other lines leave a cell alone. */
  lemma {:induction false} FillLinesKeeps(sheet: Frame, years: seq<string>, lines: seq<Line>, j: nat,
                                          y: string, n: string)
    requires j <= |lines| && FillLines(sheet, years, lines, j).Ok?
    requires forall k :: j <= k < |lines| ==> LineName(lines[k]) != n
    requires n in CellsOf(sheet, y)
    ensures var c := CellsOf(FillLines(sheet, years, lines, j).value, y);
            n in c && c[n] == CellsOf(sheet, y)[n]
    decreases |lines| - j
  {
    if j < |lines| {
      var next := FillLine(sheet, years, LineName(lines[j]), lines[j].cells, 0).value;
      FillLineKeeps(sheet, years, LineName(lines[j]), lines[j].cells, 0, y, n);
      FillLinesKeeps(next, years, lines, j + 1, y, n);
    }
  }

  /** With distinct years, the cell of a line in year `p` is the text of column `p` of the
      last row carrying that line name. */
  lemma {:induction false} FillLinesCell(sheet: Frame, years: seq<string>, lines: seq<Line>, j: nat,
                                         k: nat, p: nat)
    requires j <= k < |lines| && FillLines(sheet, years, lines, j).Ok?
    requires forall a, b :: 0 <= a < b < |years| ==> years[a] != years[b]
    requires p < |lines[k].cells| && p < |years|
    requires forall q :: k < q < |lines| ==> LineName(lines[q]) != LineName(lines[k])
    ensures var c := CellsOf(FillLines(sheet, years, lines, j).value, years[p]);
            LineName(lines[k]) in c && c[LineName(lines[k])] == Text(lines[k].cells[p])
    decreases |lines| - j
  {
    FillLineFails(sheet, years, LineName(lines[j]), lines[j].cells, 0);
    var next := FillLine(sheet, years, LineName(lines[j]), lines[j].cells, 0).value;
    if j < k {
      FillLinesCell(next, years, lines, j + 1, k, p);
    } else {
      FillLinesFails(sheet, years, lines, j);
      FillLineCell(sheet, years, LineName(lines[j]), lines[j].cells, 0, p);
      FillLinesKeeps(next, years, lines, j + 1, years[p], LineName(lines[j]));
    }
  }

  /** `scrape_report`'s sheet: with distinct years, year `p` holds the text of column `p`
      of the last body row for each line name, and its date unless a row is itself
      named `Date`; the fill raises IndexError exactly when a body row has more cells than
      there are years. */
  lemma GridCell(g: Grid, k: nat, p: nat)
    requires GridSheet(g).Ok?
    requires forall a, b :: 0 <= a < b < |g.heads| ==> HeadYear(g.heads[a]) != HeadYear(g.heads[b])
    requires k < |Body(g.lines)| && p < |Body(g.lines)[k].cells|
    requires forall q :: k < q < |Body(g.lines)| ==> LineName(Body(g.lines)[q]) != LineName(Body(g.lines)[k])
    ensures p < |g.heads|
    ensures var c := CellsOf(GridSheet(g).value, HeadYear(g.heads[p]));
            LineName(Body(g.lines)[k]) in c && c[LineName(Body(g.lines)[k])] == Text(Body(g.lines)[k].cells[p])
  {
    var dates := HeadDates(g.heads, |g.heads|).value;
    var years := HeadYears(g.heads);
    var start := DictZipUpTo(years, DateRows(dates), |years|);
    FillLinesFails(start, years, Body(g.lines), 0);
    FillLinesCell(start, years, Body(g.lines), 0, k, p);
  }

  lemma GridDate(g: Grid, p: nat)
    requires GridSheet(g).Ok? && p < |g.heads|
    requires forall a, b :: 0 <= a < b < |g.heads| ==> HeadYear(g.heads[a]) != HeadYear(g.heads[b])
    requires forall q :: 0 <= q < |Body(g.lines)| ==> LineName(Body(g.lines)[q]) != "Date"
    ensures var c := CellsOf(GridSheet(g).value, HeadYear(g.heads[p]));
            "Date" in c && c["Date"] == Text(Split(g.heads[p], '|')[1])
  {
    var dates := HeadDates(g.heads, |g.heads|).value;
    var years := HeadYears(g.heads);
    var start := DictZipUpTo(years, DateRows(dates), |years|);
    DictZipUpToLookup(years, DateRows(dates), years[p], |years|);
    ZippedLast(years, DateRows(dates), years[p], |years|, p);
    FillLinesKeeps(start, years, Body(g.lines), 0, years[p], "Date");
  }

  lemma GridFails(g: Grid)
    requires HeadDates(g.heads, |g.heads|).Ok?
    ensures var r := GridSheet(g);
            (r.Ok? <==> forall k :: 0 <= k < |Body(g.lines)| ==> |Body(g.lines)[k].cells| <= |g.heads|) &&
            (r.Fail? ==> r.error == IndexError)
  {
    var dates := HeadDates(g.heads, |g.heads|).value;
    var years := HeadYears(g.heads);
    FillLinesFails(DictZipUpTo(years, DateRows(dates), |years|), years, Body(g.lines), 0);
  }

  // ---------------------------------------------------------------------------
  // The yearly frame (lines 737-747): `pd.concat` of the price periods and the three
  // sheets, then `clean` on every cell.

  /** One more year row: a year already present gains the row's cells, its own cells
      winning where both have one; a new year is appended. */
  function MergeRow(t: Frame, e: Entry<Cells>): Frame {
    Put(t, e.name, e.value + CellsOf(t, e.name))
  }

  /** `pd.concat([a, b])` in year-row orientation, over the first `n` rows of `b`. */
  function Merge(a: Frame, b: Frame, n: nat): Frame
    requires n <= |b|
    decreases n
  {
    if n == 0 then a else MergeRow(Merge(a, b, n - 1), b[n - 1])
  }

  lemma MergeRowReads(t: Frame, e: Entry<Cells>, y: string)
    ensures CellsOf(MergeRow(t, e), y) == if y == e.name then e.value + CellsOf(t, y) else CellsOf(t, y)
  {
    PutLookup(t, e.name, e.value + CellsOf(t, e.name), y);
  }

  /** A cell the earlier frame holds survives the merge unchanged. */
  lemma {:induction false} MergeKeepsFirst(a: Frame, b: Frame, n: nat, y: string, k: string)
    requires n <= |b| && k in CellsOf(a, y)
    ensures k in CellsOf(Merge(a, b, n), y) && CellsOf(Merge(a, b, n), y)[k] == CellsOf(a, y)[k]
    decreases n
  {
    if n > 0 {
      MergeKeepsFirst(a, b, n - 1, y, k);
      MergeRowReads(Merge(a, b, n - 1), b[n - 1], y);
    }
  }

  /** Every cell of the later frame appears in the merge under its year and line. */
  lemma {:induction false} MergeCovers(a: Frame, b: Frame, n: nat, i: nat, k: string)
    requires i < n <= |b| && k in b[i].value
    ensures k in CellsOf(Merge(a, b, n), b[i].name)
    decreases n
  {
    MergeRowReads(Merge(a, b, n - 1), b[n - 1], b[i].name);
    if i < n - 1 {
      MergeCovers(a, b, n - 1, i, k);
    }
  }

  /** `clean` on every cell of a year row (`map(clean, na_action='ignore')` column by
      column): no raw text survives; the first cell `clean` refuses aborts. */
  function CleanCells(m: Cells): (r: Result<Cells>)
    ensures r.Ok? <==> forall k :: k in m ==> Clean(m[k]).Ok?
    ensures r.Fail? ==> r.error == AttributeError
    ensures r.Ok? ==> r.value.Keys == m.Keys && forall k :: k in m ==> Ok(r.value[k]) == Clean(m[k])
    ensures r.Ok? ==> forall k :: k in m && m[k].Text? ==> !r.value[k].Text?
  {
    if forall k :: k in m ==> Clean(m[k]).Ok? then Ok(map k | k in m :: Clean(m[k]).value)
    else Fail(AttributeError)
  }

  function CleanFrame(f: Frame, hi: nat): (r: Result<Frame>)
    requires hi <= |f|
    ensures r.Ok? <==> forall i :: 0 <= i < hi ==> CleanCells(f[i].value).Ok?
    ensures r.Fail? ==> r.error == AttributeError
    ensures r.Ok? ==> |r.value| == hi
    ensures r.Ok? ==> forall i :: 0 <= i < hi ==>
              r.value[i].name == f[i].name && Ok(r.value[i].value) == CleanCells(f[i].value)
    decreases hi
  {
    if hi == 0 then Ok([])
    else
      match CleanFrame(f, hi - 1)
      case Fail(e) => Fail(e)
      case Ok(prev) =>
        match CleanCells(f[hi - 1].value)
        case Fail(e) => Fail(e)
        case Ok(c) => Ok(prev + [Entry(f[hi - 1].name, c)])
  }

  /** The yearly frame before cleaning: the price periods, then the Balance Sheet,
      Income Statement and Cash Flow sheets, in that order; a sheet whose grid does not
      fill aborts it. */
  function YearlyFrame(past: Frame, balance: Grid, income: Grid, cash: Grid): (r: Result<Frame>)
  {
    var s1 :- GridSheet(balance);
    var s2 :- GridSheet(income);
    var s3 :- GridSheet(cash);
    Ok(Merge(Merge(Merge(past, s1, |s1|), s2, |s2|), s3, |s3|))
  }

  // ---------------------------------------------------------------------------
  // Free cash flow (lines 752-764).

  /** `a + b` on two cleaned cells of the object-typed yearly frame: pandas adds only
      where both cells are present, so NaN on either side gives NaN (whatever is on the
      other side); a date beside a present cell raises TypeError. */
  function Add(a: Value, b: Value): (r: Result<Value>)
    ensures r.Ok? <==> a.Missing? || b.Missing? || (a.Num? && b.Num?)
    ensures a.Missing? || b.Missing? ==> r == Ok(Missing)
    ensures r.Fail? ==> r.error == TypeError
    ensures r.Ok? ==> (r.value.Num? <==> a.Num? && b.Num?)
    ensures r.Ok? && r.value.Num? ==> r.value.x == a.x + b.x
  {
    if a.Missing? || b.Missing? then Ok(Missing)
    else if a.Num? && b.Num? then Ok(Num(a.x + b.x))
    else Fail(TypeError)
  }

  /** The element-wise sum of the first `hi` pairs. */
  function AddAll(xs: seq<Value>, ys: seq<Value>, hi: nat): (r: Result<seq<Value>>)
    requires hi <= |xs| == |ys|
    ensures r.Ok? <==> forall i :: 0 <= i < hi ==> Add(xs[i], ys[i]).Ok?
    ensures r.Fail? ==> r.error == TypeError
    ensures r.Ok? ==> |r.value| == hi && forall i :: 0 <= i < hi ==> Add(xs[i], ys[i]) == Ok(r.value[i])
    decreases hi
  {
    if hi == 0 then Ok([])
    else
      match AddAll(xs, ys, hi - 1)
      case Fail(e) => Fail(e)
      case Ok(prev) =>
        match Add(xs[hi - 1], ys[hi - 1])
        case Fail(e) => Fail(e)
        case Ok(v) => Ok(prev + [v])
  }

  const Operations := "Total Cash from Operations"
  const Expenditures := "Capital Expenditures"

  /** `Total Cash from Operations + Capital Expenditures` for every year: KeyError when
      either line is in no year, TypeError when a cell is not a number or NaN. */
  function FreeCashFlow(f: Frame): (r: Result<seq<Value>>)
    ensures (forall i :: 0 <= i < |f| ==> Operations !in f[i].value) ==> r == Fail(KeyError)
    ensures (forall i :: 0 <= i < |f| ==> Expenditures !in f[i].value) ==> r == Fail(KeyError)
    ensures r.Ok? ==> |r.value| == |f| && forall i :: 0 <= i < |f| ==>
              Add(CellOf(f[i].value, Operations), CellOf(f[i].value, Expenditures)) == Ok(r.value[i])
  {
    var operations :- Column(f, Operations);
    var expenditures :- Column(f, Expenditures);
    AddAll(operations, expenditures, |f|)
  }

  /** The cell a row holds under `name`, NaN when it has none. */
  function CellOf(row: Cells, name: string): Value {
    if name in row then row[name] else Missing
  }

  /** The yearly frame with `Free Cash Flow` and `FCF Growth`, and the `FCF Growth 5yr`
      figure: the sums, their `pct_change` and its NaN-skipping mean; when the sum fails,
      both columns stay NaN in every year and so does the figure. */
  function Cash(f: Frame): (r: (Frame, Value))
    ensures |r.0| == |f|
    ensures forall i :: 0 <= i < |f| ==>
              r.0[i].name == f[i].name && "Free Cash Flow" in r.0[i].value && "FCF Growth" in r.0[i].value
    ensures FreeCashFlow(f).Fail? ==> r.1 == Missing
    ensures FreeCashFlow(f).Fail? ==> forall i :: 0 <= i < |f| ==>
              r.0[i].value["Free Cash Flow"] == Missing && r.0[i].value["FCF Growth"] == Missing
    ensures FreeCashFlow(f).Ok? ==>
              var fcf := FreeCashFlow(f).value;
              r.1 == MeanSkipNa(PctChange(fcf)) &&
              forall i :: 0 <= i < |f| ==>
                r.0[i].value["Free Cash Flow"] == fcf[i] && r.0[i].value["FCF Growth"] == PctChange(fcf)[i]
  {
    var blank := seq(|f|, i => Missing);
    match FreeCashFlow(f)
    case Ok(fcf) =>
      var growth := PctChange(fcf);
      (WithColumn(WithColumn(f, "Free Cash Flow", fcf), "FCF Growth", growth), MeanSkipNa(growth))
    case Fail(_) =>
      (WithColumn(WithColumn(f, "Free Cash Flow", blank), "FCF Growth", blank), Missing)
  }
}
