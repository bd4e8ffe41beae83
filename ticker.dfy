/** `scrape_ticker`: each tab scraped with up to five attempts, then the tabs' ticker
    columns combined into one labelled column. */
module Ticker {
  import opened Values
  import opened Analysts

  /** The `errors` argument: give up on a tab with its placeholder, or re-raise. */
  datatype Mode = Ignore | Raise

  // ---------------------------------------------------------------------------
  // The retry loops (lines 1018-1107).

  /** The index of the first successful attempt from `i` on (`|attempts|` if none). */
  function FirstOk<T>(attempts: seq<Result<T>>, i: nat): (k: nat)
    requires i <= |attempts|
    ensures i <= k <= |attempts|
    ensures k < |attempts| ==> attempts[k].Ok?
    ensures forall j :: i <= j < k ==> attempts[j].Fail?
    decreases |attempts| - i
  {
    if i == |attempts| || attempts[i].Ok? then i else FirstOk(attempts, i + 1)
  }

  /** What one retry loop leaves, given the outcomes its attempts would have: a success
      within the first four attempts is kept; the check `tries >= 5` runs after the
      fifth attempt whatever it returned, so a fifth-attempt success is replaced by the
      placeholder as well; `raise` there has no exception being handled any more. */
  function Retried<T>(attempts: seq<Result<T>>, placeholder: T, mode: Mode): (r: Result<T>)
    requires |attempts| >= 5
    ensures forall k :: 0 <= k < 4 && attempts[k].Ok? && (forall j :: 0 <= j < k ==> attempts[j].Fail?) ==>
              r == Ok(attempts[k].value)
    ensures (forall j :: 0 <= j < 4 ==> attempts[j].Fail?) ==>
              r == if mode == Ignore then Ok(placeholder) else Fail(RuntimeError)
    ensures mode == Ignore ==> r.Ok?
    ensures r.Fail? ==> r == Fail(RuntimeError)
  {
    var k := FirstOk(attempts, 0);
    if k < 4 then Ok(attempts[k].value)
    else if mode == Ignore then Ok(placeholder)
    else Fail(RuntimeError)
  }

  /** Only the first five attempts are ever made. */
  lemma RetriedFive<T>(a: seq<Result<T>>, b: seq<Result<T>>, placeholder: T, mode: Mode)
    requires |a| >= 5 && |b| >= 5 && a[..5] == b[..5]
    ensures Retried(a, placeholder, mode) == Retried(b, placeholder, mode)
  {
    assert forall j :: 0 <= j < 5 ==> a[j] == b[j] by {
      forall j | 0 <= j < 5 ensures a[j] == b[j] {
        assert a[..5][j] == a[j] && b[..5][j] == b[j];
      }
    }
    var k := FirstOk(a, 0);
    if k < 4 {
      assert FirstOk(b, 0) == k by { FirstOkSame(a, b, 0, k); }
    } else {
      assert FirstOk(b, 0) >= 4 by { FirstOkSame(a, b, 0, 4); }
    }
  }

  lemma {:induction false} FirstOkSame<T>(a: seq<Result<T>>, b: seq<Result<T>>, i: nat, n: nat)
    requires i <= n <= |a| && n <= |b|
    requires forall j :: 0 <= j < n ==> a[j] == b[j]
    ensures FirstOk(a, i) < n ==> FirstOk(b, i) == FirstOk(a, i)
    ensures FirstOk(a, i) >= n ==> FirstOk(b, i) >= n
    decreases n - i
  {
    if i < n && a[i].Fail? {
      FirstOkSame(a, b, i + 1, n);
    }
  }

  /** One retry loop, with its `success` flag and `tries` counter. */
  method Retry<T>(attempts: seq<Result<T>>, placeholder: T, mode: Mode) returns (r: Result<T>)
    requires |attempts| >= 5
    ensures r == Retried(attempts, placeholder, mode)
  {
    var success := false;
    var tries := 0;
    var value := placeholder;
    while !success
      invariant 0 <= tries <= 4
      invariant success ==> tries <= 4 && FirstOk(attempts, 0) == tries - 1 && value == attempts[tries - 1].value
      invariant !success ==> FirstOk(attempts, 0) >= tries
      decreases 5 - tries, !success
    {
      tries := tries + 1;
      if attempts[tries - 1].Ok? {
        value := attempts[tries - 1].value;
        success := true;
      }
      if tries >= 5 {
        value := placeholder;
        if mode == Raise {
          return Fail(RuntimeError);
        }
        break;
      }
    }
    r := Ok(value);
  }

  // ---------------------------------------------------------------------------
  // Combining the tabs (lines 1110-1120).

  /** `valuation[ticker]`: the ticker's figure in each row (NaN where a row lacks it). */
  function TickerColumn(f: Frame, ticker: string): (r: Table)
    ensures Names(r) == Names(f)
    ensures forall i :: 0 <= i < |f| ==> r[i].value == (if ticker in f[i].value then f[i].value[ticker] else Missing)
  {
    seq(|f|, i requires 0 <= i < |f| => Entry(f[i].name, if ticker in f[i].value then f[i].value[ticker] else Missing))
  }

  /** `analysis[ticker]`: the ratings. */
  function RatingColumn(a: seq<Entry<Rating>>): (r: Table)
    ensures Names(r) == Names(a)
    ensures forall i :: 0 <= i < |a| ==> r[i].value == a[i].value.rating
  {
    seq(|a|, i requires 0 <= i < |a| => Entry(a[i].name, a[i].value.rating))
  }

  /** `combined.loc[~combined.index.duplicated(keep='first')]` over the first `hi`
      rows: each label once, where it first appears, with its first value. */
  function Dedup(t: Table, hi: nat): (r: Table)
    requires hi <= |t|
    ensures UniqueNames(r)
    ensures forall k :: k in Names(r) <==> k in Names(t[..hi])
    ensures forall k :: Lookup(r, k) == Lookup(t[..hi], k)
    decreases hi
  {
    if hi == 0 then []
    else
      var d := Dedup(t, hi - 1);
      var e := t[hi - 1];
      assert t[..hi] == t[..hi - 1] + [e];
      forall k ensures Lookup(t[..hi], k) == if k in Names(t[..hi - 1]) then Lookup(t[..hi - 1], k) else Lookup([e], k) {
        LookupConcat(t[..hi - 1], [e], k);
      }
      if e.name in Names(t[..hi - 1]) then
        assert Names(t[..hi]) == Names(t[..hi - 1]) + [e.name];
        d
      else
        forall k ensures Lookup(d + [e], k) == if k in Names(d) then Lookup(d, k) else Lookup([e], k) {
          LookupConcat(d, [e], k);
        }
        assert Names(d + [e]) == Names(d) + [e.name];
        assert Names(t[..hi]) == Names(t[..hi - 1]) + [e.name];
        d + [e]
  }

  /** The `<analyst> since` rows, one per analyst in the first `n`. */
  function SinceRows(t: Table, analysis: seq<Entry<Rating>>, n: nat): Table
    requires n <= |analysis|
  {
    if n == 0 then t
    else Put(SinceRows(t, analysis, n - 1), analysis[n - 1].name + " since", analysis[n - 1].value.since)
  }

  const SharesOutstanding := "Shares Outstanding"

  /** The combined column: the summary without `Shares Outstanding` (KeyError when it
      has none, as the placeholder summary does), then earnings, fundamentals, valuation
      and analysts, each label kept once with its earliest value; then the analysts'
      dates. */
  function Combine(ticker: string, summary: Table, earnings: Table, fundies: Table,
                   valuation: Frame, analysis: seq<Entry<Rating>>): (r: Result<Table>)
  {
    if SharesOutstanding !in Names(summary) then Fail(KeyError)
    else
      var all := DropName(summary, SharesOutstanding) + earnings + fundies + TickerColumn(valuation, ticker) + RatingColumn(analysis);
      Ok(SinceRows(Dedup(all, |all|), analysis, |analysis|))
  }

  /** Before the dates are added, a label reads its value from the earliest tab that
      has it, in the order summary, earnings, fundamentals, valuation, analysts; the
      summary's `Shares Outstanding` is gone. */
  lemma CombinedEarliest(ticker: string, summary: Table, earnings: Table, fundies: Table,
                         valuation: Frame, analysis: seq<Entry<Rating>>, k: string)
    requires SharesOutstanding in Names(summary)
    ensures var s := DropName(summary, SharesOutstanding);
            var v := TickerColumn(valuation, ticker);
            var a := RatingColumn(analysis);
            var all := s + earnings + fundies + v + a;
            Lookup(Dedup(all, |all|), k) ==
              if k in Names(s) then Lookup(s, k)
              else if k in Names(earnings) then Lookup(earnings, k)
              else if k in Names(fundies) then Lookup(fundies, k)
              else if k in Names(v) then Lookup(v, k)
              else Lookup(a, k)
    ensures SharesOutstanding !in Names(DropName(summary, SharesOutstanding))
  {
    DropNameLookup(summary, SharesOutstanding);
    var s := DropName(summary, SharesOutstanding);
    var v := TickerColumn(valuation, ticker);
    var a := RatingColumn(analysis);
    var all := s + earnings + fundies + v + a;
    assert all[..|all|] == all;
    LookupConcat(s + earnings + fundies + v, a, k);
    LookupConcat(s + earnings + fundies, v, k);
    LookupConcat(s + earnings, fundies, k);
    LookupConcat(s, earnings, k);
    NamesConcat(s, earnings);
    NamesConcat(s + earnings, fundies);
    NamesConcat(s + earnings + fundies, v);
  }

  lemma NamesConcat(a: Table, b: Table)
    ensures Names(a + b) == Names(a) + Names(b)
  {
  }

  /** Each analyst's `since` row holds that analyst's date; other labels are left as
      they were unless they collide with such a row. */
  lemma {:induction false} SinceRowsRead(t: Table, analysis: seq<Entry<Rating>>, n: nat, k: string)
    requires n <= |analysis| && UniqueNames(analysis)
    ensures forall i :: 0 <= i < n && k == analysis[i].name + " since" ==>
              Lookup(SinceRows(t, analysis, n), k) == Some(analysis[i].value.since)
    ensures (forall i :: 0 <= i < n ==> k != analysis[i].name + " since") ==>
              Lookup(SinceRows(t, analysis, n), k) == Lookup(t, k)
    decreases n
  {
    if n > 0 {
      SinceRowsRead(t, analysis, n - 1, k);
      var e := analysis[n - 1];
      PutSpec(SinceRows(t, analysis, n - 1), e.name + " since", e.value.since);
      forall i | 0 <= i < n - 1
        ensures analysis[i].name + " since" != e.name + " since"
      {
        if analysis[i].name + " since" == e.name + " since" {
          SuffixInjective(analysis[i].name, e.name, " since");
        }
      }
    }
  }

  lemma SuffixInjective(a: string, b: string, suffix: string)
    requires a + suffix == b + suffix
    ensures a == b
  {
    assert |a| == |b|;
    assert forall i :: 0 <= i < |a| ==> a[i] == (a + suffix)[i] && b[i] == (b + suffix)[i];
  }

  /** The for loop over the analysts. */
  method AddSince(t: Table, analysis: seq<Entry<Rating>>) returns (r: Table)
    ensures r == SinceRows(t, analysis, |analysis|)
  {
    r := t;
    for i := 0 to |analysis|
      invariant r == SinceRows(t, analysis, i)
    {
      r := Put(r, analysis[i].name + " since", analysis[i].value.since);
    }
  }

  /** Everything `scrape_ticker` returns. */
  datatype Scraped = Scraped(combined: Table, summary: Table, earnings: Table, earningsYearly: Frame,
                             fundies: Table, fundiesYearly: Frame, valuation: Frame,
                             analysts: seq<Entry<Rating>>)

  /** The five retry loops in order, then the combination. The outcomes of each tab's
      attempts are given: scraping a page is browser work. */
  method ScrapeTicker(ticker: string, mode: Mode,
                      summaryTries: seq<Result<Table>>, earningsTries: seq<Result<(Table, Frame)>>,
                      fundiesTries: seq<Result<(Table, Frame)>>, valuationTries: seq<Result<Frame>>,
                      analystsTries: seq<Result<seq<Entry<Rating>>>>) returns (r: Result<Scraped>)
    requires |summaryTries| >= 5 && |earningsTries| >= 5 && |fundiesTries| >= 5
    requires |valuationTries| >= 5 && |analystsTries| >= 5
    ensures r.Ok? ==> Retried(summaryTries, [], mode) == Ok(r.value.summary)
    ensures r.Ok? ==> Retried(earningsTries, ([], []), mode) == Ok((r.value.earnings, r.value.earningsYearly))
    ensures r.Ok? ==> Retried(fundiesTries, ([], []), mode) == Ok((r.value.fundies, r.value.fundiesYearly))
    ensures r.Ok? ==> Retried(valuationTries, [], mode) == Ok(r.value.valuation)
    ensures r.Ok? ==> Retried(analystsTries, [], mode) == Ok(r.value.analysts)
    ensures r.Ok? ==>
              Combine(ticker, r.value.summary, r.value.earnings, r.value.fundies, r.value.valuation, r.value.analysts) == Ok(r.value.combined)
    ensures mode == Ignore ==>
              (r.Ok? <==> SharesOutstanding in Names(Retried(summaryTries, [], Ignore).value))
    ensures r.Ok? <==>
              Retried(summaryTries, [], mode).Ok? && Retried(earningsTries, ([], []), mode).Ok? &&
              Retried(fundiesTries, ([], []), mode).Ok? && Retried(valuationTries, [], mode).Ok? &&
              Retried(analystsTries, [], mode).Ok? &&
              SharesOutstanding in Names(Retried(summaryTries, [], mode).value)
    ensures r.Fail? ==> r.error == RuntimeError || r.error == KeyError
    ensures r.Fail? && r.error == KeyError ==> Retried(summaryTries, [], mode).Ok?
  {
    var summary := Retry(summaryTries, [], mode);
    if summary.Fail? {
      return Fail(summary.error);
    }
    var earnings := Retry(earningsTries, ([], []), mode);
    if earnings.Fail? {
      return Fail(earnings.error);
    }
    var fundies := Retry(fundiesTries, ([], []), mode);
    if fundies.Fail? {
      return Fail(fundies.error);
    }
    var valuation := Retry(valuationTries, [], mode);
    if valuation.Fail? {
      return Fail(valuation.error);
    }
    var analysis := Retry(analystsTries, [], mode);
    if analysis.Fail? {
      return Fail(analysis.error);
    }
    if SharesOutstanding !in Names(summary.value) {
      return Fail(KeyError);
    }
    var all := DropName(summary.value, SharesOutstanding) + earnings.value.0 + fundies.value.0 +
               TickerColumn(valuation.value, ticker) + RatingColumn(analysis.value);
    var combined := AddSince(Dedup(all, |all|), analysis.value);
    r := Ok(Scraped(combined, summary.value, earnings.value.0, earnings.value.1, fundies.value.0,
                    fundies.value.1, valuation.value, analysis.value));
  }
}
