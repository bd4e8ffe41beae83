/** The "Analyst Reports" tab (`scrape_analysts`): one row per provider, its rating
    read from the provider's CSS classes by a provider-specific rule, and the date the
    rating was given. */
module Analysts {
  import opened Values
  import opened Strings
  import opened Numbers

  /** One `<div>` of a provider row: its `class` list, `None` when it has none. */
  datatype Div = Div(classes: Option<seq<string>>)

  /** One provider row: its divs, and the text of its `p.rating-since`, if any. */
  datatype Tr = Tr(divs: seq<Div>, since: Option<string>)

  /** The rating and the date recorded for one provider. */
  datatype Rating = Rating(rating: Value, since: Value)

  /** `divs[d].get('class')[c]`: IndexError for a missing div or class, TypeError for a
      div without a class list. */
  function ClassAt(divs: seq<Div>, d: nat, c: nat): (r: Result<string>)
    ensures r.Ok? <==> d < |divs| && divs[d].classes.Some? && c < |divs[d].classes.value|
    ensures r.Ok? ==> r.value == divs[d].classes.value[c]
  {
    if d >= |divs| then Fail(IndexError)
    else match divs[d].classes
      case None => Fail(TypeError)
      case Some(cs) => if c < |cs| then Ok(cs[c]) else Fail(IndexError)
  }

  /** The date of a row: the text without its `Rating Since ` prefix, NaN without one. */
  function SinceDate(since: Option<string>): Value {
    match since
    case Some(txt) => Text(ReplaceAll(txt, "Rating Since ", ""))
    case None => Missing
  }

  // ---------------------------------------------------------------------------
  // Reading one character as a number.

  /** `float(ch.strip())` on a single character succeeds exactly on a digit, which it
      reads as itself. */
  lemma FloatOfChar(c: char)
    ensures PyFloat(Strip([c])).Ok? && PyFloat(Strip([c])).value.Num? <==> IsDigit(c)
    ensures PyFloat(Strip([c])).Ok? ==> IsDigit(c) && PyFloat(Strip([c])).value == Num(DigitValue(c) as real)
  {
    OneChar(c);
    var t := Strip([c]);
    if |t| == 1 {
      assert Dots(t, 0, 1) == (if c == '.' then 1 else 0);
      assert DigitCount(t, 0, 1) == (if IsDigit(c) then 1 else 0);
      if IsDigit(c) {
        assert DigitsValue(t, 0, 1) == DigitValue(c);
        assert FractionLength(t, 0, 1) == 0;
      }
    }
  }

  /** `int(ch.strip())` likewise. */
  lemma IntOfChar(c: char)
    ensures PyInt(Strip([c])).Ok? <==> IsDigit(c)
    ensures PyInt(Strip([c])).Ok? ==> PyInt(Strip([c])).value == DigitValue(c)
  {
    OneChar(c);
    var t := Strip([c]);
    if |t| == 1 && IsDigit(c) {
      assert DigitsValue(t, 0, 1) == DigitValue(c);
    }
  }

  /** Stripping one character leaves it, unless it is whitespace. */
  lemma OneChar(c: char)
    ensures c in Whitespace ==> Strip([c]) == []
    ensures c !in Whitespace ==> Strip([c]) == [c]
  {
    if c !in Whitespace {
      StripCharsNoop([c], Whitespace);
    }
  }

  // ---------------------------------------------------------------------------
  // The marketEdge scan.

  /** The scan of `s` from its `i`-th last character leftwards for a digit, the only
      characters `float` reads (`FloatOfChar`); `None` when it runs off the front, where
      the source raises IndexError. */
  function ScanFrom(s: string, i: nat): (r: Option<nat>)
    requires 1 <= i
    ensures r.Some? ==> i <= r.value <= |s| && IsDigit(s[|s| - r.value])
    ensures r.Some? ==> forall p :: |s| - r.value < p <= |s| - i ==> !IsDigit(s[p])
    ensures r.None? <==> forall p :: 0 <= p <= |s| - i ==> !IsDigit(s[p])
    decreases |s| + 1 - i
  {
    if i > |s| then None
    else if IsDigit(s[|s| - i]) then Some(i)
    else ScanFrom(s, i + 1)
  }

  /** The marketEdge rating from `divs[3].get('class')[1]`: its last digit as it is when
      that digit ends the class, negated when it stands further in; NaN rating and NaN
      date when there is no digit, or no such class. */
  function EdgeRating(divs: seq<Div>, date: Value): (r: Rating)
    ensures ClassAt(divs, 3, 1).Fail? ==> r == Rating(Missing, Missing)
    ensures ClassAt(divs, 3, 1).Ok? ==>
              var s := ClassAt(divs, 3, 1).value;
              ((forall j :: 0 <= j < |s| ==> !IsDigit(s[j])) <==> r == Rating(Missing, Missing)) &&
              (|s| > 0 && IsDigit(s[|s| - 1]) ==> r == Rating(Num(DigitValue(s[|s| - 1]) as real), date))
    ensures r.rating.Num? ==> r.since == date && -9.0 <= r.rating.x <= 9.0
  {
    match ClassAt(divs, 3, 1)
    case Fail(_) => Rating(Missing, Missing)
    case Ok(s) =>
      match ScanFrom(s, 1)
      case None => Rating(Missing, Missing)
      case Some(i) =>
        var d := DigitValue(s[|s| - i]) as real;
        Rating(Num(if i != 1 then -d else d), date)
  }

  /** When the last digit of the marketEdge class stands at `p`, before its final
      character, the rating is that digit negated. */
  lemma EdgeRatingInner(divs: seq<Div>, date: Value, p: nat)
    requires ClassAt(divs, 3, 1).Ok?
    requires var s := ClassAt(divs, 3, 1).value;
             p + 1 < |s| && IsDigit(s[p]) && forall q :: p < q < |s| ==> !IsDigit(s[q])
    ensures EdgeRating(divs, date) == Rating(Num(-(DigitValue(ClassAt(divs, 3, 1).value[p]) as real)), date)
  {
    var s := ClassAt(divs, 3, 1).value;
    assert ScanFrom(s, 1) == Some(|s| - p) by {
      assert ScanFrom(s, 1).Some?;
      var i := ScanFrom(s, 1).value;
      assert !(|s| - i < p);
      assert !(|s| - i > p);
    }
  }

  /** The `while` scan with its index counter. */
  method ScanEdge(s: string) returns (r: Option<nat>)
    ensures r == ScanFrom(s, 1)
  {
    var i := 0;
    while true
      invariant i <= |s|
      invariant ScanFrom(s, i + 1) == ScanFrom(s, 1)
      decreases |s| - i
    {
      i := i + 1;
      if i > |s| {
        return None;
      }
      FloatOfChar(s[|s| - i]);
      if PyFloat(Strip([s[|s| - i]])).Ok? {
        return Some(i);
      }
    }
  }

  // ---------------------------------------------------------------------------
  // One provider row.

  /** The name a row appends (none for vickers; two for marketEdge) with its ratings and
      dates; only an unreadable provider class aborts the scrape. Any other failure
      inside the row records NaN for every name the row has appended. */
  function RowStep(tr: Tr): (r: Result<(seq<string>, seq<Rating>)>)
    ensures r.Ok? ==> |r.value.0| == |r.value.1|
    ensures r.Ok? <==> ClassAt(tr.divs, 0, 1).Ok?
    ensures r.Ok? && Strip(ClassAt(tr.divs, 0, 1).value) == "vickers" ==> r.value.0 == []
    ensures r.Ok? && Strip(ClassAt(tr.divs, 0, 1).value) == "marketEdge" ==>
              r.value.0 == ["marketEdge opinion", "marketEdge"]
  {
    var provider :- ClassAt(tr.divs, 0, 1);
    var analyst := Strip(provider);
    if analyst == "vickers" then Ok(([], []))
    else
      var date := SinceDate(tr.since);
      if analyst == "marketEdge" then
        match ClassAt(tr.divs, 2, 2)
        case Fail(_) => Ok((["marketEdge opinion", "marketEdge"], [Rating(Missing, Missing), Rating(Missing, Missing)]))
        case Ok(opinion) => Ok((["marketEdge opinion", "marketEdge"], [Rating(Text(opinion), date), EdgeRating(tr.divs, date)]))
      else Ok(([analyst], [OtherRating(analyst, tr.divs, date)]))
  }

  /** cfra: the last character of `divs[2].get('class')[1]` as an integer, NaN when it
      is not a digit; anyone else: that class as an integer when it is one, as text
      otherwise. A missing class gives NaN rating and NaN date. */
  function OtherRating(analyst: string, divs: seq<Div>, date: Value): (r: Rating)
    ensures ClassAt(divs, 2, 1).Fail? ==> r == Rating(Missing, Missing)
    ensures analyst == "cfra" && ClassAt(divs, 2, 1).Ok? ==>
              var s := ClassAt(divs, 2, 1).value;
              if |s| == 0 then r == Rating(Missing, Missing)
              else if IsDigit(s[|s| - 1]) then r == Rating(Num(DigitValue(s[|s| - 1]) as real), date)
              else r == Rating(Missing, date)
    ensures analyst != "cfra" && ClassAt(divs, 2, 1).Ok? ==>
              var s := Strip(ClassAt(divs, 2, 1).value);
              r == Rating(if PyInt(s).Ok? then Num(PyInt(s).value as real) else Text(s), date)
  {
    match ClassAt(divs, 2, 1)
    case Fail(_) => Rating(Missing, Missing)
    case Ok(s) =>
      if analyst == "cfra" then
        if |s| == 0 then Rating(Missing, Missing)
        else
          var ch := Strip([s[|s| - 1]]);
          IntOfChar(s[|s| - 1]);
          match PyInt(ch)
          case Ok(n) => Rating(Num(n as real), date)
          case Fail(_) => Rating(Missing, date)
      else
        var t := Strip(s);
        match PyInt(t)
        case Ok(n) => Rating(Num(n as real), date)
        case Fail(_) => Rating(Text(t), date)
  }

  /** A marketEdge row without the opinion class, the one row the two steps treat apart. */
  predicate OpinionMissing(tr: Tr) {
    ClassAt(tr.divs, 0, 1).Ok? && Strip(ClassAt(tr.divs, 0, 1).value) == "marketEdge" &&
    ClassAt(tr.divs, 2, 2).Fail?
  }

  /** The row as the source handles it: when marketEdge's opinion class is missing,
      the opinion's name has already been appended but its rating and date have not,
      so the names run one ahead of the ratings from there on. Every other row is
      handled as `RowStep` handles it. */
  function WrittenRowStep(tr: Tr): (r: Result<(seq<string>, seq<Rating>)>)
    ensures r.Ok? <==> RowStep(tr).Ok?
    ensures OpinionMissing(tr) ==> r == Ok((["marketEdge opinion", "marketEdge"], [Rating(Missing, Missing)]))
    ensures !OpinionMissing(tr) ==> r == RowStep(tr)
    ensures r.Ok? && |r.value.0| != |r.value.1| ==> OpinionMissing(tr) && |r.value.0| == |r.value.1| + 1
  {
    var provider :- ClassAt(tr.divs, 0, 1);
    if Strip(provider) == "marketEdge" && ClassAt(tr.divs, 2, 2).Fail? then
      Ok((["marketEdge opinion", "marketEdge"], [Rating(Missing, Missing)]))
    else RowStep(tr)
  }

  // ---------------------------------------------------------------------------
  // The loop over the rows and the table it builds.

  /** The row loop from row `i` on, given the names and ratings appended so far. */
  function RowsFrom(trs: seq<Tr>, names: seq<string>, ratings: seq<Rating>, i: nat): Result<(seq<string>, seq<Rating>)>
    requires i <= |trs|
    decreases |trs| - i
  {
    if i == |trs| then Ok((names, ratings))
    else
      var step :- RowStep(trs[i]);
      RowsFrom(trs, names + step.0, ratings + step.1, i + 1)
  }

  function WrittenRowsFrom(trs: seq<Tr>, names: seq<string>, ratings: seq<Rating>, i: nat): Result<(seq<string>, seq<Rating>)>
    requires i <= |trs|
    decreases |trs| - i
  {
    if i == |trs| then Ok((names, ratings))
    else
      var step :- WrittenRowStep(trs[i]);
      WrittenRowsFrom(trs, names + step.0, ratings + step.1, i + 1)
  }

  /** Without a marketEdge row that lacks its opinion class, the loop as written and the
      corrected loop collect the same lists. */
  lemma {:induction false} WrittenRowsAgree(trs: seq<Tr>, names: seq<string>, ratings: seq<Rating>, i: nat)
    requires i <= |trs| && forall j :: i <= j < |trs| ==> !OpinionMissing(trs[j])
    ensures WrittenRowsFrom(trs, names, ratings, i) == RowsFrom(trs, names, ratings, i)
    decreases |trs| - i
  {
    if i < |trs| && RowStep(trs[i]).Ok? {
      var step := RowStep(trs[i]).value;
      WrittenRowsAgree(trs, names + step.0, ratings + step.1, i + 1);
    }
  }

  /** `pd.to_datetime` on the date column: a date text becomes a date. */
  function ToDate(v: Value): Value {
    match v
    case Text(s) => Date(s)
    case _ => v
  }

  function Dated(ratings: seq<Rating>): (r: seq<Rating>)
    ensures |r| == |ratings|
    ensures forall i :: 0 <= i < |ratings| ==> r[i] == Rating(ratings[i].rating, ToDate(ratings[i].since))
  {
    seq(|ratings|, i requires 0 <= i < |ratings| => Rating(ratings[i].rating, ToDate(ratings[i].since)))
  }

  /** `dict(zip(analysts, zip(ratings, dates)))` with the dates converted. */
  function Table(names: seq<string>, ratings: seq<Rating>): seq<Entry<Rating>> {
    DictZip(names, Dated(ratings))
  }

  function AnalystsTab(trs: seq<Tr>): Result<seq<Entry<Rating>>> {
    var lists :- RowsFrom(trs, [], [], 0);
    Ok(Table(lists.0, lists.1))
  }

  function WrittenAnalystsTab(trs: seq<Tr>): Result<seq<Entry<Rating>>> {
    var lists :- WrittenRowsFrom(trs, [], [], 0);
    Ok(Table(lists.0, lists.1))
  }

  /** The table as written is the corrected one unless some marketEdge row lacks its
      opinion class. */
  lemma WrittenTabAgrees(trs: seq<Tr>)
    requires forall j :: 0 <= j < |trs| ==> !OpinionMissing(trs[j])
    ensures WrittenAnalystsTab(trs) == AnalystsTab(trs)
  {
    WrittenRowsAgree(trs, [], [], 0);
  }

  /** The loop keeps one rating per name, so the zip drops nothing. */
  lemma {:induction false} RowsAligned(trs: seq<Tr>, names: seq<string>, ratings: seq<Rating>, i: nat)
    requires i <= |trs| && |names| == |ratings|
    ensures var r := RowsFrom(trs, names, ratings, i);
            r.Ok? ==> |r.value.0| == |r.value.1| && names <= r.value.0
    ensures RowsFrom(trs, names, ratings, i).Ok? <==>
              forall j :: i <= j < |trs| ==> ClassAt(trs[j].divs, 0, 1).Ok?
    decreases |trs| - i
  {
    if i < |trs| && RowStep(trs[i]).Ok? {
      var step := RowStep(trs[i]).value;
      RowsAligned(trs, names + step.0, ratings + step.1, i + 1);
      var r := RowsFrom(trs, names + step.0, ratings + step.1, i + 1);
      if r.Ok? {
        assert names <= names + step.0;
      }
    }
  }

  /** Each provider's entry holds its own rating: a table built from aligned lists
      reads, for a name, the rating at the name's last position. */
  lemma AnalystsOwnRating(trs: seq<Tr>, k: string)
    requires AnalystsTab(trs).Ok?
    ensures var lists := RowsFrom(trs, [], [], 0).value;
            |lists.0| == |lists.1| &&
            (k in lists.0 <==> Lookup(AnalystsTab(trs).value, k).Some?)
    ensures var lists := RowsFrom(trs, [], [], 0).value;
            k in lists.0 ==>
              exists j :: 0 <= j < |lists.0| && lists.0[j] == k &&
                (forall i :: j < i < |lists.0| ==> lists.0[i] != k) &&
                Lookup(AnalystsTab(trs).value, k) == Some(Dated(lists.1)[j])
  {
    RowsAligned(trs, [], [], 0);
    var lists := RowsFrom(trs, [], [], 0).value;
    var dated := Dated(lists.1);
    DictZipLookup(lists.0, dated, k);
    if k in lists.0 {
      var j :| 0 <= j < |lists.0| && lists.0[j] == k;
      assert ZippedValue(lists.0, dated, k, |lists.0|).Some?;
      DictZipLast(lists.0, dated, k);
    }
  }

  /** A marketEdge row whose opinion class is missing, then a cfra row rated 4. */
  const EdgeBroken := Tr([Div(Some(["provider", "marketEdge"])), Div(None), Div(Some(["rating"]))], None)
  const CfraRow := Tr([Div(Some(["provider", "cfra"])), Div(None), Div(Some(["rating", "stars-4"]))], None)

  /** As written, that input files cfra's rating under marketEdge and loses cfra: the
      zip stops where the ratings run out. */
  lemma WrittenMisaligns()
    ensures WrittenAnalystsTab([EdgeBroken, CfraRow]).Ok?
    ensures Lookup(WrittenAnalystsTab([EdgeBroken, CfraRow]).value, "marketEdge") == Some(Rating(Num(4.0), Missing))
    ensures Lookup(WrittenAnalystsTab([EdgeBroken, CfraRow]).value, "cfra") == None
  {
    var trs := [EdgeBroken, CfraRow];
    RowsOfExample();
    assert WrittenRowStep(EdgeBroken) == Ok((["marketEdge opinion", "marketEdge"], [Rating(Missing, Missing)]));
    var names := ["marketEdge opinion", "marketEdge", "cfra"];
    var ratings := [Rating(Missing, Missing), Rating(Num(4.0), Missing)];
    assert WrittenRowStep(CfraRow) == RowStep(CfraRow);
    assert WrittenRowsFrom(trs, names, ratings, 2) == Ok((names, ratings));
    assert ["marketEdge opinion", "marketEdge"] + ["cfra"] == names;
    assert [Rating(Missing, Missing)] + [Rating(Num(4.0), Missing)] == ratings;
    assert WrittenRowsFrom(trs, ["marketEdge opinion", "marketEdge"], [Rating(Missing, Missing)], 1) == Ok((names, ratings));
    assert [] + ["marketEdge opinion", "marketEdge"] == ["marketEdge opinion", "marketEdge"];
    assert [] + [Rating(Missing, Missing)] == [Rating(Missing, Missing)];
    assert WrittenRowsFrom(trs, [], [], 0) == Ok((names, ratings));
    TableOfExample(names, ratings);
  }

  /** What the two example rows append. */
  lemma RowsOfExample()
    ensures Strip("marketEdge") == "marketEdge" && Strip("cfra") == "cfra"
    ensures ClassAt(EdgeBroken.divs, 0, 1) == Ok("marketEdge") && ClassAt(EdgeBroken.divs, 2, 2).Fail?
    ensures RowStep(CfraRow) == Ok((["cfra"], [Rating(Num(4.0), Missing)]))
  {
    StripCharsNoop("marketEdge", Whitespace);
    StripCharsNoop("cfra", Whitespace);
    assert ClassAt(CfraRow.divs, 0, 1) == Ok("cfra");
    assert ClassAt(CfraRow.divs, 2, 1) == Ok("stars-4");
    assert "stars-4"[6] == '4' && IsDigit('4') && DigitValue('4') == 4;
  }

  /** The table two or three names make with two ratings. */
  lemma TableOfExample(names: seq<string>, ratings: seq<Rating>)
    requires |names| >= 2 && |ratings| == 2
    requires names[0] == "marketEdge opinion" && names[1] == "marketEdge"
    requires ratings[0].since == Missing && ratings[1].since == Missing
    ensures Table(names, ratings) == [Entry("marketEdge opinion", ratings[0]), Entry("marketEdge", ratings[1])]
  {
    var dated := Dated(ratings);
    assert dated == ratings;
    assert DictZipUpTo(names, dated, 1) == [Entry("marketEdge opinion", ratings[0])];
  }

  /** What the aligned loop collects from the example rows. */
  lemma AlignedRows()
    ensures RowsFrom([EdgeBroken, CfraRow], [], [], 0) ==
            Ok((["marketEdge opinion", "marketEdge", "cfra"],
                [Rating(Missing, Missing), Rating(Missing, Missing), Rating(Num(4.0), Missing)]))
  {
    var trs := [EdgeBroken, CfraRow];
    RowsOfExample();
    assert RowStep(EdgeBroken) == Ok((["marketEdge opinion", "marketEdge"], [Rating(Missing, Missing), Rating(Missing, Missing)]));
    var names := ["marketEdge opinion", "marketEdge", "cfra"];
    var ratings := [Rating(Missing, Missing), Rating(Missing, Missing), Rating(Num(4.0), Missing)];
    var first := [Rating(Missing, Missing), Rating(Missing, Missing)];
    assert RowsFrom(trs, names, ratings, 2) == Ok((names, ratings));
    assert ["marketEdge opinion", "marketEdge"] + ["cfra"] == names;
    assert first + [Rating(Num(4.0), Missing)] == ratings;
    assert RowsFrom(trs, ["marketEdge opinion", "marketEdge"], first, 1) == Ok((names, ratings));
    assert [] + ["marketEdge opinion", "marketEdge"] == ["marketEdge opinion", "marketEdge"];
    assert [] + first == first;
  }

  /** The aligned loop gives each of them its own rating. */
  lemma AlignedKeepsOwn()
    ensures AnalystsTab([EdgeBroken, CfraRow]).Ok?
    ensures Lookup(AnalystsTab([EdgeBroken, CfraRow]).value, "marketEdge") == Some(Rating(Missing, Missing))
    ensures Lookup(AnalystsTab([EdgeBroken, CfraRow]).value, "cfra") == Some(Rating(Num(4.0), Missing))
  {
    AlignedRows();
    var names := ["marketEdge opinion", "marketEdge", "cfra"];
    var ratings := [Rating(Missing, Missing), Rating(Missing, Missing), Rating(Num(4.0), Missing)];
    AlignedTable(names, ratings);
    var t := Table(names, ratings);
    assert t[1] == Entry("marketEdge", ratings[1]) && t[2] == Entry("cfra", ratings[2]);
    assert FirstIndex(t, "marketEdge", 0) == 1;
    assert FirstIndex(t, "cfra", 0) == 2;
  }

  lemma AlignedTable(names: seq<string>, ratings: seq<Rating>)
    requires names == ["marketEdge opinion", "marketEdge", "cfra"]
    requires ratings == [Rating(Missing, Missing), Rating(Missing, Missing), Rating(Num(4.0), Missing)]
    ensures Table(names, ratings) == [Entry(names[0], ratings[0]), Entry(names[1], ratings[1]), Entry(names[2], ratings[2])]
  {
    var dated := Dated(ratings);
    assert dated == ratings;
    assert DictZipUpTo(names, dated, 1) == [Entry("marketEdge opinion", ratings[0])];
    assert DictZipUpTo(names, dated, 2) == [Entry("marketEdge opinion", ratings[0]), Entry("marketEdge", ratings[1])];
  }

  /** marketEdge's rating as the source reads it, with the scan run as a loop. */
  method ReadEdge(divs: seq<Div>, date: Value) returns (rating: Rating)
    ensures rating == EdgeRating(divs, date)
  {
    rating := Rating(Missing, Missing);
    var cls := ClassAt(divs, 3, 1);
    if cls.Ok? {
      var found := ScanEdge(cls.value);
      if found.Some? {
        var d := DigitValue(cls.value[|cls.value| - found.value]) as real;
        rating := Rating(Num(if found.value != 1 then -d else d), date);
      }
    }
  }

  /** One provider row as the source reads it, with the marketEdge scan run as a loop. */
  method ReadRow(tr: Tr) returns (r: Result<(seq<string>, seq<Rating>)>)
    ensures r == WrittenRowStep(tr)
  {
    var provider := ClassAt(tr.divs, 0, 1);
    if provider.Fail? {
      return Fail(provider.error);
    }
    var analyst := Strip(provider.value);
    if analyst == "vickers" {
      return Ok(([], []));
    }
    var date := SinceDate(tr.since);
    if analyst == "marketEdge" {
      var opinion := ClassAt(tr.divs, 2, 2);
      if opinion.Fail? {
        return Ok((["marketEdge opinion", "marketEdge"], [Rating(Missing, Missing)]));
      }
      var rating := ReadEdge(tr.divs, date);
      return Ok((["marketEdge opinion", "marketEdge"], [Rating(Text(opinion.value), date), rating]));
    }
    r := Ok(([analyst], [OtherRating(analyst, tr.divs, date)]));
  }

  /** The row loop of `scrape_analysts` as written, with the marketEdge scan as a
      `while` loop. */
  method ScrapeAnalysts(trs: seq<Tr>) returns (r: Result<seq<Entry<Rating>>>)
    ensures r == WrittenAnalystsTab(trs)
  {
    var names: seq<string> := [];
    var ratings: seq<Rating> := [];
    var i := 0;
    while i < |trs|
      invariant i <= |trs|
      invariant WrittenRowsFrom(trs, names, ratings, i) == WrittenRowsFrom(trs, [], [], 0)
    {
      var step := ReadRow(trs[i]);
      if step.Fail? {
        return Fail(step.error);
      }
      names := names + step.value.0;
      ratings := ratings + step.value.1;
      i := i + 1;
    }
    r := Ok(Table(names, ratings));
  }
}
