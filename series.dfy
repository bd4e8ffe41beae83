/** Column arithmetic on a pandas Series of floats: forward fill, `pct_change`, the
    NaN-skipping `Series.mean` and the NaN-propagating `np.mean`. A column is a
    sequence of cells in row order; only `Num` and `Missing` cells take part. */
module Series {
  import opened Values

  // ---------------------------------------------------------------------------
  // Forward fill and pct_change.

  /** Cell `i` after `ffill()`: the cell itself, or the last present cell above it. */
  function Filled(xs: seq<Value>, i: nat): (r: Value)
    requires i < |xs|
    decreases i
  {
    if !xs[i].Missing? || i == 0 then xs[i] else Filled(xs, i - 1)
  }

  function Ffill(xs: seq<Value>): (r: seq<Value>)
    ensures |r| == |xs|
  {
    seq(|xs|, i requires 0 <= i < |xs| => Filled(xs, i))
  }

  /** A filled cell is NaN exactly when every cell up to it is, and otherwise it is the
      last present cell at or above it. */
  lemma {:induction false} FilledLastPresent(xs: seq<Value>, i: nat)
    requires i < |xs|
    ensures Filled(xs, i).Missing? <==> forall j :: 0 <= j <= i ==> xs[j].Missing?
    ensures !Filled(xs, i).Missing? ==>
              exists j :: 0 <= j <= i && Filled(xs, i) == xs[j] && forall k :: j < k <= i ==> xs[k].Missing?
    decreases i
  {
    if xs[i].Missing? && i > 0 {
      FilledLastPresent(xs, i - 1);
    }
  }

  /** Filling twice is filling once. */
  lemma {:induction false} FilledTwice(xs: seq<Value>, i: nat)
    requires i < |xs|
    ensures Filled(Ffill(xs), i) == Filled(xs, i)
    decreases i
  {
    var f := Ffill(xs);
    assert f[i] == Filled(xs, i);
    if f[i].Missing? && i > 0 {
      FilledTwice(xs, i - 1);
      FilledMissing(xs, i);
    }
  }

  /** Below a NaN filled cell, the one above it is NaN too. */
  lemma FilledMissing(xs: seq<Value>, i: nat)
    requires 0 < i < |xs| && Filled(xs, i).Missing?
    ensures Filled(xs, i - 1).Missing?
  {
  }

  lemma FfillIdempotent(xs: seq<Value>)
    ensures Ffill(Ffill(xs)) == Ffill(xs)
  {
    forall i | 0 <= i < |xs| ensures Ffill(Ffill(xs))[i] == Ffill(xs)[i] {
      FilledTwice(xs, i);
    }
  }

  /** `cur / prev - 1` on two floats; NaN when either is NaN. A zero `prev` (pandas
      gives infinity) also reads NaN. */
  function Growth(prev: Value, cur: Value): (r: Value)
    ensures r.Num? <==> prev.Num? && cur.Num? && prev.x != 0.0
    ensures r.Num? ==> (r.x + 1.0) * prev.x == cur.x
  {
    if prev.Num? && cur.Num? && prev.x != 0.0 then Num(cur.x / prev.x - 1.0) else Missing
  }

  /** `pct_change()` with its default forward fill: the growth from the filled cell above
      to the filled cell itself, NaN in the first row. */
  function PctChange(xs: seq<Value>): (r: seq<Value>)
    ensures |r| == |xs|
  {
    seq(|xs|, i requires 0 <= i < |xs| => if i == 0 then Missing else Growth(Filled(xs, i - 1), Filled(xs, i)))
  }

  /** A column of numbers and NaN only. */
  predicate Numeric(xs: seq<Value>) {
    forall i :: 0 <= i < |xs| ==> xs[i].Num? || xs[i].Missing?
  }

  /** Growth is a number or NaN, whatever the column holds. */
  lemma PctChangeNumeric(xs: seq<Value>)
    ensures Numeric(PctChange(xs))
  {
  }

  /** The first row has no growth. */
  lemma PctChangeFirst(xs: seq<Value>)
    requires |xs| > 0
    ensures PctChange(xs)[0] == Missing
  {
  }

  /** Between two present cells the growth is the plain ratio minus one. */
  lemma PctChangePresent(xs: seq<Value>, i: nat)
    requires 0 < i < |xs| && xs[i - 1].Num? && xs[i].Num? && xs[i - 1].x != 0.0
    ensures PctChange(xs)[i] == Num(xs[i].x / xs[i - 1].x - 1.0)
  {
  }

  /** The forward fill turns a gap after a present non-zero cell into zero growth, not NaN. */
  lemma PctChangeGap(xs: seq<Value>, i: nat)
    requires 0 < i < |xs| && xs[i - 1].Num? && xs[i - 1].x != 0.0 && xs[i].Missing?
    ensures PctChange(xs)[i] == Num(0.0)
  {
    assert Filled(xs, i) == xs[i - 1];
  }

  // ---------------------------------------------------------------------------
  // Means.

  /** Sum and count of the present cells among the first `hi`. */
  function SumPresent(xs: seq<Value>, hi: nat): real
    requires hi <= |xs|
    decreases hi
  {
    if hi == 0 then 0.0 else SumPresent(xs, hi - 1) + (if xs[hi - 1].Num? then xs[hi - 1].x else 0.0)
  }

  function CountPresent(xs: seq<Value>, hi: nat): (r: nat)
    requires hi <= |xs|
    ensures r <= hi
    decreases hi
  {
    if hi == 0 then 0 else CountPresent(xs, hi - 1) + (if xs[hi - 1].Num? then 1 else 0)
  }

  predicate AllPresent(xs: seq<Value>) {
    forall i :: 0 <= i < |xs| ==> xs[i].Num?
  }

  /** `Series.mean()`: the mean of the present cells; NaN when there are none. */
  function MeanSkipNa(xs: seq<Value>): (r: Value)
    ensures r.Num? || r.Missing?
    ensures r.Missing? <==> CountPresent(xs, |xs|) == 0
    ensures r.Num? ==> r.x * CountPresent(xs, |xs|) as real == SumPresent(xs, |xs|)
  {
    var n := CountPresent(xs, |xs|);
    if n == 0 then Missing else Num(SumPresent(xs, |xs|) / n as real)
  }

  /** `np.mean`: NaN as soon as one cell is NaN (or the column is empty). */
  function NpMean(xs: seq<Value>): (r: Value)
    ensures r.Num? <==> |xs| > 0 && AllPresent(xs)
  {
    if |xs| > 0 && AllPresent(xs) then Num(SumPresent(xs, |xs|) / |xs| as real) else Missing
  }

  lemma {:induction false} CountAllPresent(xs: seq<Value>, hi: nat)
    requires hi <= |xs| && forall i :: 0 <= i < hi ==> xs[i].Num?
    ensures CountPresent(xs, hi) == hi
    decreases hi
  {
    if hi > 0 { CountAllPresent(xs, hi - 1); }
  }

  /** With no NaN the two means agree; with one they part ways (np.mean gives NaN). */
  lemma MeansAgree(xs: seq<Value>)
    requires |xs| > 0 && AllPresent(xs)
    ensures MeanSkipNa(xs) == NpMean(xs)
  {
    CountAllPresent(xs, |xs|);
  }

  lemma NpMeanMissing(xs: seq<Value>, i: nat)
    requires i < |xs| && xs[i].Missing?
    ensures NpMean(xs) == Missing
  {
  }

  /** Appending NaN leaves `Series.mean()` unchanged. */
  lemma MeanSkipsMissing(xs: seq<Value>)
    ensures MeanSkipNa(xs + [Missing]) == MeanSkipNa(xs)
  {
    var ys := xs + [Missing];
    SumPrefix(xs, [Missing], |xs|);
    CountPrefix(xs, [Missing], |xs|);
  }

  lemma {:induction false} SumPrefix(xs: seq<Value>, ys: seq<Value>, hi: nat)
    requires hi <= |xs|
    ensures SumPresent(xs + ys, hi) == SumPresent(xs, hi)
    decreases hi
  {
    if hi > 0 {
      SumPrefix(xs, ys, hi - 1);
      assert (xs + ys)[hi - 1] == xs[hi - 1];
    }
  }

  lemma {:induction false} CountPrefix(xs: seq<Value>, ys: seq<Value>, hi: nat)
    requires hi <= |xs|
    ensures CountPresent(xs + ys, hi) == CountPresent(xs, hi)
    decreases hi
  {
    if hi > 0 {
      CountPrefix(xs, ys, hi - 1);
      assert (xs + ys)[hi - 1] == xs[hi - 1];
    }
  }

  /** The mean lies within any bounds that hold for every present cell. */
  lemma MeanBounded(xs: seq<Value>, lo: real, hi: real)
    requires forall i :: 0 <= i < |xs| && xs[i].Num? ==> lo <= xs[i].x <= hi
    requires MeanSkipNa(xs).Num?
    ensures lo <= MeanSkipNa(xs).x <= hi
  {
    SumBounded(xs, lo, hi, |xs|);
    var n := CountPresent(xs, |xs|) as real;
    var m := MeanSkipNa(xs).x;
    assert m * n == SumPresent(xs, |xs|);
    assert lo * n <= m * n <= hi * n;
    Cancel(lo, m, n);
    Cancel(m, hi, n);
  }

  /** Dividing out a positive factor keeps an order. */
  lemma Cancel(a: real, b: real, n: real)
    requires n > 0.0 && a * n <= b * n
    ensures a <= b
  {
  }

  lemma {:induction false} SumBounded(xs: seq<Value>, lo: real, hi: real, k: nat)
    requires k <= |xs|
    requires forall i :: 0 <= i < |xs| && xs[i].Num? ==> lo <= xs[i].x <= hi
    ensures lo * CountPresent(xs, k) as real <= SumPresent(xs, k) <= hi * CountPresent(xs, k) as real
    decreases k
  {
    if k > 0 { SumBounded(xs, lo, hi, k - 1); }
  }

  /** `(a + b) / 2` on two floats; NaN when either is NaN. */
  function Midpoint(a: Value, b: Value): (r: Value)
    ensures r.Num? <==> a.Num? && b.Num?
    ensures !r.Num? ==> r == Missing
    ensures r.Num? ==> (a.x <= r.x <= b.x || b.x <= r.x <= a.x)
  {
    if a.Num? && b.Num? then Num((a.x + b.x) / 2.0) else Missing
  }

  /** Element-wise `Midpoint` of two equally long columns. */
  function Midpoints(xs: seq<Value>, ys: seq<Value>): (r: seq<Value>)
    requires |xs| == |ys|
    ensures |r| == |xs|
  {
    seq(|xs|, i requires 0 <= i < |xs| => Midpoint(xs[i], ys[i]))
  }

  lemma MidpointsNumeric(xs: seq<Value>, ys: seq<Value>)
    requires |xs| == |ys|
    ensures Numeric(Midpoints(xs, ys))
  {
  }

  /** `Series.map(f)`: every cell's image in row order, or the first failure. */
  function MapAll(xs: seq<Value>, f: Value -> Result<Value>, hi: nat): (r: Result<seq<Value>>)
    requires hi <= |xs|
    ensures r.Ok? <==> forall i :: 0 <= i < hi ==> f(xs[i]).Ok?
    ensures r.Ok? ==> |r.value| == hi && forall i :: 0 <= i < hi ==> f(xs[i]) == Ok(r.value[i])
    decreases hi
  {
    if hi == 0 then Ok([])
    else
      match MapAll(xs, f, hi - 1)
      case Fail(e) => Fail(e)
      case Ok(prev) =>
        match f(xs[hi - 1])
        case Fail(e) => Fail(e)
        case Ok(v) => Ok(prev + [v])
  }

  /** `a.fillna(b)`: the cells of `a`, with NaN replaced by the cell of `b` in the same row. */
  function FillNa(xs: seq<Value>, ys: seq<Value>): (r: seq<Value>)
    requires |xs| == |ys|
    ensures |r| == |xs|
  {
    seq(|xs|, i requires 0 <= i < |xs| => if xs[i].Missing? then ys[i] else xs[i])
  }

  /** `a.loc[b.notnull()] = b`: the cells of `b` where present, those of `a` elsewhere. */
  function Supersede(xs: seq<Value>, ys: seq<Value>): (r: seq<Value>)
    requires |xs| == |ys|
    ensures |r| == |xs|
  {
    FillNa(ys, xs)
  }
}
