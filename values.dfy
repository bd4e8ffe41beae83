/** Cell values, Python exceptions and the labelled tables that the scraper's
    section assemblers build (a pandas column indexed by field name, or an
    insertion-ordered Python dict). */
module Values {

  /** The Python exception a step raises; each one aborts the section scrape it occurs in. */
  datatype Error =
    | KeyError          // a missing row or column label, or a missing dict key
    | IndexError        // a list or string index out of range
    | ValueError        // float()/int() refused a string
    | TypeError         // arithmetic or conversion on a value of the wrong kind
    | AttributeError    // a string method called on a float (NaN)
    | ZeroDivisionError // Python float division by zero
    | RuntimeError      // a bare `raise` with no exception being handled

  datatype Result<+T> = Ok(value: T) | Fail(error: Error) {
    predicate IsFailure() { Fail? }
    function PropagateFailure<U>(): Result<U> requires Fail? { Fail(error) }
    function Extract(): T requires Ok? { value }
  }

  datatype Option<+T> = None | Some(value: T)

  /** One cell. `Missing` is NaN/NaT; `Date` is the timestamp pandas infers from
      `text`; `Text` is a string kept as it was scraped; `Items` is a Python list of
      strings kept in a cell. */
  datatype Value =
    | Missing
    | Num(x: real)
    | Date(text: string)
    | Text(s: string)
    | Items(parts: seq<string>)

  /** A labelled entry: one row of a one-column DataFrame or one dict item (`V` = Value),
      or one row of a wider DataFrame (`V` = the row's cells by column). */
  datatype Entry<+V> = Entry(name: string, value: V)

  type Field = Entry<Value>
  type Table = seq<Field>

  /** The first `hi` elements, built position by position. */
  function Prefix<X>(s: seq<X>, hi: nat): (r: seq<X>)
    requires hi <= |s|
    ensures |r| == hi
  {
    seq(hi, i requires 0 <= i < hi => s[i])
  }

  lemma PrefixStep<X>(s: seq<X>, hi: nat)
    requires 0 < hi <= |s|
    ensures Prefix(s, hi) == Prefix(s, hi - 1) + [s[hi - 1]]
  {
  }

  lemma PrefixAll<X>(s: seq<X>)
    ensures Prefix(s, |s|) == s
  {
  }

  function Names<V>(t: seq<Entry<V>>): (r: seq<string>)
    ensures |r| == |t|
    ensures forall i :: 0 <= i < |t| ==> r[i] == t[i].name
  {
    seq(|t|, i requires 0 <= i < |t| => t[i].name)
  }

  predicate UniqueNames<V>(t: seq<Entry<V>>) {
    forall i, j :: 0 <= i < j < |t| ==> t[i].name != t[j].name
  }

  /** The first position at or after `i` labelled `k` (`|t|` if none). */
  function FirstIndex<V>(t: seq<Entry<V>>, k: string, i: nat): (r: nat)
    requires i <= |t|
    ensures i <= r <= |t|
    ensures forall j :: i <= j < r ==> t[j].name != k
    ensures r < |t| ==> t[r].name == k
    decreases |t| - i
  {
    if i == |t| || t[i].name == k then i else FirstIndex(t, k, i + 1)
  }

  /** The value of the first row labelled `k` (pandas `keep='first'` reading). */
  function Lookup<V>(t: seq<Entry<V>>, k: string): (r: Option<V>)
    ensures r.None? <==> k !in Names(t)
    ensures r.Some? ==> exists i :: 0 <= i < |t| && t[i] == Entry(k, r.value)
  {
    var i := FirstIndex(t, k, 0);
    if i < |t| then
      assert Names(t)[i] == k;
      Some(t[i].value)
    else None
  }

  /** A label reads its FIRST entry: the one found has no entry with that label before it. */
  lemma LookupFirst<V>(t: seq<Entry<V>>, k: string)
    ensures Lookup(t, k).Some? ==>
              exists i :: 0 <= i < |t| && t[i] == Entry(k, Lookup(t, k).value) &&
                          forall j :: 0 <= j < i ==> t[j].name != k
  {
    var i := FirstIndex(t, k, 0);
    if i < |t| { assert t[i] == Entry(k, Lookup(t, k).value); }
  }

  /** An entry with no earlier entry of the same label is the one its label reads. */
  lemma LookupAt<V>(t: seq<Entry<V>>, i: nat)
    requires i < |t| && forall j :: 0 <= j < i ==> t[j].name != t[i].name
    ensures Lookup(t, t[i].name) == Some(t[i].value)
  {
    var f := FirstIndex(t, t[i].name, 0);
    assert f == i;
  }

  /** In a table with distinct labels, every entry is what its label reads. */
  lemma LookupUnique<V>(t: seq<Entry<V>>)
    requires UniqueNames(t)
    ensures forall i :: 0 <= i < |t| ==> Lookup(t, t[i].name) == Some(t[i].value)
  {
    forall i | 0 <= i < |t| ensures Lookup(t, t[i].name) == Some(t[i].value) {
      LookupAt(t, i);
    }
  }

  /** A lookup that raises KeyError like `df.loc[k]` / `df[k]` when the label is absent. */
  function Get<V>(t: seq<Entry<V>>, k: string): (r: Result<V>)
    ensures r.Fail? <==> k !in Names(t)
    ensures r.Fail? ==> r.error == KeyError
    ensures r.Ok? ==> Lookup(t, k) == Some(r.value)
  {
    match Lookup(t, k)
    case Some(v) => Ok(v)
    case None => Fail(KeyError)
  }

  /** The scan for a label depends only on the labels. */
  lemma {:induction false} FirstIndexSameNames<V, W>(t: seq<Entry<V>>, u: seq<Entry<W>>, k: string, i: nat)
    requires |t| == |u| && i <= |t|
    requires forall p :: 0 <= p < |t| ==> t[p].name == u[p].name
    ensures FirstIndex(t, k, i) == FirstIndex(u, k, i)
    decreases |t| - i
  {
    if i < |t| && t[i].name != k { FirstIndexSameNames(t, u, k, i + 1); }
  }

  /** Scanning `a + b` finds the first label in `a`, or else the first one in `b` shifted. */
  lemma {:induction false} FirstIndexConcat<V>(a: seq<Entry<V>>, b: seq<Entry<V>>, k: string, i: nat)
    requires i <= |a|
    ensures var f := FirstIndex(a, k, i);
            FirstIndex(a + b, k, i) == if f < |a| then f else |a| + FirstIndex(b, k, 0)
    decreases |a| + |b| - i
  {
    if i < |a| {
      assert (a + b)[i] == a[i];
      if a[i].name != k { FirstIndexConcat(a, b, k, i + 1); }
    } else {
      FirstIndexShifted(a, b, k, 0);
    }
  }

  lemma {:induction false} FirstIndexShifted<V>(a: seq<Entry<V>>, b: seq<Entry<V>>, k: string, j: nat)
    requires j <= |b|
    ensures FirstIndex(a + b, k, |a| + j) == |a| + FirstIndex(b, k, j)
    decreases |b| - j
  {
    if j < |b| {
      assert (a + b)[|a| + j] == b[j];
      if b[j].name != k { FirstIndexShifted(a, b, k, j + 1); }
    }
  }

  /** Reading `a + b` finds `a`'s row when `a` has the label, `b`'s otherwise. */
  lemma LookupConcat<V>(a: seq<Entry<V>>, b: seq<Entry<V>>, k: string)
    ensures Lookup(a + b, k) == if k in Names(a) then Lookup(a, k) else Lookup(b, k)
  {
    FirstIndexConcat(a, b, k, 0);
    var f := FirstIndex(a, k, 0);
    if f < |a| {
      assert (a + b)[f] == a[f];
    } else {
      var g := FirstIndex(b, k, 0);
      if g < |b| { assert (a + b)[|a| + g] == b[g]; }
    }
  }

  /** Dict assignment `d[k] = v`: replaces the first row labelled `k`, or appends one. */
  function Put<V>(t: seq<Entry<V>>, k: string, v: V): (r: seq<Entry<V>>)
  {
    var i := FirstIndex(t, k, 0);
    if i < |t| then t[i := Entry(k, v)] else t + [Entry(k, v)]
  }

  /** A label already present keeps the length; a new one is appended at the end. */
  lemma PutShape<V>(t: seq<Entry<V>>, k: string, v: V)
    ensures k in Names(t) ==> |Put(t, k, v)| == |t|
    ensures k !in Names(t) ==> Put(t, k, v) == t + [Entry(k, v)]
  {
    var i := FirstIndex(t, k, 0);
    if i < |t| { assert Names(t)[i] == k; }
  }

  /** After `Put`, the label reads the new value, every other label reads as before, and
      an existing label keeps its position. */
  lemma PutSpec<V>(t: seq<Entry<V>>, k: string, v: V)
    ensures Lookup(Put(t, k, v), k) == Some(v)
    ensures forall j :: j != k ==> Lookup(Put(t, k, v), j) == Lookup(t, j)
    ensures k in Names(t) ==> Names(Put(t, k, v)) == Names(t)
  {
    var i := FirstIndex(t, k, 0);
    if i < |t| { PutReplaced(t, k, v, i); } else { PutAppended(t, k, v); }
  }

  lemma PutReplaced<V>(t: seq<Entry<V>>, k: string, v: V, i: nat)
    requires i < |t| && i == FirstIndex(t, k, 0)
    ensures var r := t[i := Entry(k, v)];
            Lookup(r, k) == Some(v) && Names(r) == Names(t) &&
            forall j :: j != k ==> Lookup(r, j) == Lookup(t, j)
  {
    var r := t[i := Entry(k, v)];
    forall j ensures FirstIndex(r, j, 0) == FirstIndex(t, j, 0) {
      FirstIndexSameNames(r, t, j, 0);
    }
  }

  lemma PutAppended<V>(t: seq<Entry<V>>, k: string, v: V)
    requires FirstIndex(t, k, 0) == |t|
    ensures var r := t + [Entry(k, v)];
            Lookup(r, k) == Some(v) && forall j :: j != k ==> Lookup(r, j) == Lookup(t, j)
  {
    forall j {
      LookupConcat(t, [Entry(k, v)], j);
    }
  }

  /** `dict(zip(keys, values))`: pairs up to the shorter list; a repeated key keeps its
      first position and takes its last value. */
  function DictZip<V>(keys: seq<string>, vals: seq<V>): (r: seq<Entry<V>>)
  {
    DictZipUpTo(keys, vals, if |keys| < |vals| then |keys| else |vals|)
  }

  function DictZipUpTo<V>(keys: seq<string>, vals: seq<V>, n: nat): (r: seq<Entry<V>>)
    requires n <= |keys| && n <= |vals|
    decreases n
  {
    if n == 0 then []
    else Put(DictZipUpTo(keys, vals, n - 1), keys[n - 1], vals[n - 1])
  }

  /** The value `dict(zip(keys, vals))` holds for `k`: the one paired with the LAST
      occurrence of `k` among the first `n` pairs, found by scanning back from pair `n`. */
  function ZippedValue<V>(keys: seq<string>, vals: seq<V>, k: string, n: nat): (r: Option<V>)
    requires n <= |keys| && n <= |vals|
    ensures r.None? <==> forall j :: 0 <= j < n ==> keys[j] != k
    ensures r.Some? ==> exists j :: 0 <= j < n && keys[j] == k && vals[j] == r.value
    decreases n
  {
    if n == 0 then None
    else if keys[n - 1] == k then Some(vals[n - 1])
    else ZippedValue(keys, vals, k, n - 1)
  }

  /** In `dict(zip(keys, vals))` every key reads the value paired with its LAST occurrence
      among the zipped pairs, and keys beyond the shorter list are absent. */
  lemma DictZipLookup<V>(keys: seq<string>, vals: seq<V>, k: string)
    ensures var n := if |keys| < |vals| then |keys| else |vals|;
            Lookup(DictZip(keys, vals), k) == ZippedValue(keys, vals, k, n)
  {
    DictZipUpToLookup(keys, vals, k, if |keys| < |vals| then |keys| else |vals|);
  }

  /** The pair at position `i` is the one a key reads when no later pair repeats it. */
  lemma {:induction false} ZippedLast<V>(keys: seq<string>, vals: seq<V>, k: string, n: nat, i: nat)
    requires i < n <= |keys| && n <= |vals| && keys[i] == k
    requires forall j :: i < j < n ==> keys[j] != k
    ensures ZippedValue(keys, vals, k, n) == Some(vals[i])
    decreases n
  {
    if n - 1 > i { ZippedLast(keys, vals, k, n - 1, i); }
  }

  /** A key that occurs among the first `n` keys has a last occurrence there. */
  lemma {:induction false} LastOccurrence(keys: seq<string>, k: string, n: nat, i: nat)
    requires i < n <= |keys| && keys[i] == k
    ensures exists j :: i <= j < n && keys[j] == k && forall q :: j < q < n ==> keys[q] != k
    decreases n
  {
    if keys[n - 1] != k {
      LastOccurrence(keys, k, n - 1, i);
    }
  }

  /** With as many values as keys, a key of `dict(zip(keys, vals))` reads the value paired
      with its last occurrence. */
  lemma DictZipLast<V>(keys: seq<string>, vals: seq<V>, k: string)
    requires |keys| == |vals| && k in keys
    ensures exists j :: 0 <= j < |keys| && keys[j] == k && (forall q :: j < q < |keys| ==> keys[q] != k) &&
                        Lookup(DictZip(keys, vals), k) == Some(vals[j])
  {
    DictZipLookup(keys, vals, k);
    var i :| 0 <= i < |keys| && keys[i] == k;
    LastOccurrence(keys, k, |keys|, i);
    var j :| i <= j < |keys| && keys[j] == k && forall q :: j < q < |keys| ==> keys[q] != k;
    ZippedLast(keys, vals, k, |keys|, j);
  }

  lemma {:induction false} DictZipUpToLookup<V>(keys: seq<string>, vals: seq<V>, k: string, n: nat)
    requires n <= |keys| && n <= |vals|
    ensures Lookup(DictZipUpTo(keys, vals, n), k) == ZippedValue(keys, vals, k, n)
    decreases n
  {
    if n > 0 {
      DictZipUpToLookup(keys, vals, k, n - 1);
      DictZipStep(keys, vals, k, n, DictZipUpTo(keys, vals, n - 1));
    }
  }

  lemma DictZipStep<V>(keys: seq<string>, vals: seq<V>, k: string, n: nat, prev: seq<Entry<V>>)
    requires 0 < n <= |keys| && n <= |vals| && prev == DictZipUpTo(keys, vals, n - 1)
    requires Lookup(prev, k) == ZippedValue(keys, vals, k, n - 1)
    ensures Lookup(DictZipUpTo(keys, vals, n), k) == ZippedValue(keys, vals, k, n)
  {
    PutLookup(prev, keys[n - 1], vals[n - 1], k);
  }

  /** Reading a label after `Put`. */
  lemma PutLookup<V>(t: seq<Entry<V>>, k: string, v: V, j: string)
    ensures Lookup(Put(t, k, v), j) == if j == k then Some(v) else Lookup(t, j)
  {
    PutSpec(t, k, v);
  }

  /** Keeps every row except those labelled `k` (`drop(index=[k])`, all occurrences). */
  function DropName<V>(t: seq<Entry<V>>, k: string): (r: seq<Entry<V>>)
    ensures |r| <= |t|
  {
    DropNameUpTo(t, k, |t|)
  }

  function DropNameUpTo<V>(t: seq<Entry<V>>, k: string, hi: nat): (r: seq<Entry<V>>)
    requires hi <= |t|
    ensures |r| <= hi
    ensures k !in Names(r)
    decreases hi
  {
    if hi == 0 then []
    else
      var init := DropNameUpTo(t, k, hi - 1);
      if t[hi - 1].name == k then init
      else
        var r := init + [t[hi - 1]];
        assert Names(r) == Names(init) + [t[hi - 1].name];
        r
  }

  /** Dropping `k` removes every row labelled `k` and leaves every other label reading
      what it read before. */
  lemma DropNameLookup<V>(t: seq<Entry<V>>, k: string)
    ensures k !in Names(DropName(t, k))
    ensures forall j :: j != k ==> Lookup(DropName(t, k), j) == Lookup(t, j)
  {
    forall j | j != k ensures Lookup(DropName(t, k), j) == Lookup(t, j) {
      DropNameUpToLookup(t, k, j, |t|);
      PrefixAll(t);
    }
  }

  lemma {:induction false} DropNameUpToLookup<V>(t: seq<Entry<V>>, k: string, j: string, hi: nat)
    requires hi <= |t| && j != k
    ensures Lookup(DropNameUpTo(t, k, hi), j) == Lookup(Prefix(t, hi), j)
    decreases hi
  {
    if hi > 0 {
      DropNameUpToLookup(t, k, j, hi - 1);
      DropNameStep(t, k, j, hi);
    }
  }

  lemma DropNameStep<V>(t: seq<Entry<V>>, k: string, j: string, hi: nat)
    requires 0 < hi <= |t| && j != k
    requires Lookup(DropNameUpTo(t, k, hi - 1), j) == Lookup(Prefix(t, hi - 1), j)
    ensures Lookup(DropNameUpTo(t, k, hi), j) == Lookup(Prefix(t, hi), j)
  {
    var init := DropNameUpTo(t, k, hi - 1);
    var e := t[hi - 1];
    PrefixStep(t, hi);
    LookupConcat(Prefix(t, hi - 1), [e], j);
    if e.name != k {
      LookupConcat(init, [e], j);
      SameLabels(init, Prefix(t, hi - 1), j);
    }
  }

  /** Two tables that read the same for `j` agree on whether they hold `j`. */
  lemma SameLabels<V>(a: seq<Entry<V>>, b: seq<Entry<V>>, j: string)
    requires Lookup(a, j) == Lookup(b, j)
    ensures j in Names(a) <==> j in Names(b)
  {
  }

  /** A DataFrame built with `from_dict(..., orient='index')`: rows by label, each with
      the cells it has; a column a row lacks reads NaN. */
  type Cells = map<string, Value>
  type Frame = seq<Entry<Cells>>

  /** `df[name]`: KeyError unless some row has the column; absent cells read Missing. */
  function Column(f: Frame, name: string): (r: Result<seq<Value>>)
    ensures r.Fail? <==> forall i :: 0 <= i < |f| ==> name !in f[i].value
    ensures r.Fail? ==> r.error == KeyError
    ensures r.Ok? ==> |r.value| == |f|
    ensures r.Ok? ==> forall i :: 0 <= i < |f| ==>
              r.value[i] == (if name in f[i].value then f[i].value[name] else Missing)
  {
    if exists i :: 0 <= i < |f| && name in f[i].value then
      Ok(seq(|f|, i requires 0 <= i < |f| => if name in f[i].value then f[i].value[name] else Missing))
    else Fail(KeyError)
  }

  /** `df[name] = col` for a column as long as the frame. */
  function WithColumn(f: Frame, name: string, col: seq<Value>): (r: Frame)
    requires |col| == |f|
    ensures |r| == |f|
    ensures forall i :: 0 <= i < |f| ==> r[i].name == f[i].name && r[i].value == f[i].value[name := col[i]]
  {
    seq(|f|, i requires 0 <= i < |f| => Entry(f[i].name, f[i].value[name := col[i]]))
  }
}
