/** The Python `str` operations the scraper applies to page text. Strings are
    `seq<char>`; case mapping covers ASCII only. Every definition reads its argument by
    position (recursion on an end index `hi`), so no definition takes a slice of the
    string it is given. */
module Strings {

  /** The characters `str.strip()` and `str.split()` treat as whitespace (the ASCII and
      Latin-1 ones). */
  const Whitespace: set<char> :=
    {' ', '\t', '\n', '\U{0B}', '\U{0C}', '\r', '\U{1C}', '\U{1D}', '\U{1E}', '\U{1F}', '\U{85}', '\U{A0}'}

  predicate IsDigit(c: char) { '0' <= c <= '9' }

  predicate AllDigits(s: string) { forall i :: 0 <= i < |s| ==> IsDigit(s[i]) }

  /** `str.isdigit()`: non-empty and every character a digit. */
  predicate IsDigits(s: string) { |s| > 0 && AllDigits(s) }

  /** `s.startswith(p)` / `s.endswith(p)`, compared position by position. */
  predicate StartsWith(s: string, p: string) {
    |p| <= |s| && forall i :: 0 <= i < |p| ==> s[i] == p[i]
  }

  predicate EndsWith(s: string, p: string) {
    |p| <= |s| && EndsWithAt(s, p, |s|)
  }

  /** `s[..hi]` ends with `p`. */
  predicate EndsWithAt(s: string, p: string, hi: nat)
    requires |p| <= hi <= |s|
  {
    forall i :: 0 <= i < |p| ==> s[hi - |p| + i] == p[i]
  }

  /** `s.startswith(c)` / `s.endswith(c)` for a one-character `c`. */
  predicate StartsWithChar(s: string, c: char) { |s| > 0 && s[0] == c }

  predicate EndsWithChar(s: string, c: char) { |s| > 0 && s[|s| - 1] == c }

  /** `s[lo:hi]`, built position by position. */
  function Slice(s: string, lo: nat, hi: nat): (r: string)
    requires lo <= hi <= |s|
    ensures |r| == hi - lo
  {
    seq(hi - lo, i requires 0 <= i < hi - lo => s[lo + i])
  }

  /** The first position at or after `i` whose character is not in `cs` (`|s|` if none). */
  function FirstKept(s: string, cs: set<char>, i: nat): (k: nat)
    requires i <= |s|
    ensures i <= k <= |s|
    ensures k < |s| ==> s[k] !in cs
    decreases |s| - i
  {
    if i == |s| || s[i] !in cs then i else FirstKept(s, cs, i + 1)
  }

  /** The end of `s[..hi]` once its trailing characters in `cs` are dropped; the scan
      stops above `lo`, a position known to be kept. */
  function LastKeptEnd(s: string, cs: set<char>, lo: nat, hi: nat): (k: nat)
    requires lo < hi <= |s| && s[lo] !in cs
    ensures lo < k <= hi
    ensures s[k - 1] !in cs
    decreases hi
  {
    if s[hi - 1] !in cs then hi else LastKeptEnd(s, cs, lo, hi - 1)
  }

  /** `s.strip(cs)`: drops characters in `cs` from both ends. */
  function StripChars(s: string, cs: set<char>): (r: string)
    ensures |r| <= |s|
    ensures r == [] || (r[0] !in cs && r[|r| - 1] !in cs)
  {
    var lo := FirstKept(s, cs, 0);
    if lo == |s| then [] else Slice(s, lo, LastKeptEnd(s, cs, lo, |s|))
  }

  /** `s.strip(cs)` is the part of `s` left between a prefix and a suffix made only of
      characters in `cs`; with the function's own contract (the ends of a non-empty
      result are not in `cs`) these are the longest such prefix and suffix. */
  lemma StripCharsSpec(s: string, cs: set<char>)
    ensures exists lo: nat, hi: nat :: lo <= hi <= |s| && StripChars(s, cs) == Slice(s, lo, hi) &&
              (forall i :: 0 <= i < lo ==> s[i] in cs) && (forall i :: hi <= i < |s| ==> s[i] in cs)
  {
    var lo := FirstKept(s, cs, 0);
    FirstKeptSkips(s, cs, 0);
    if lo == |s| {
      assert StripChars(s, cs) == Slice(s, lo, lo);
    } else {
      var hi := LastKeptEnd(s, cs, lo, |s|);
      LastKeptEndSkips(s, cs, lo, |s|);
      assert StripChars(s, cs) == Slice(s, lo, hi);
    }
  }

  /** Every character `FirstKept` passes over is in `cs`. */
  lemma {:induction false} FirstKeptSkips(s: string, cs: set<char>, i: nat)
    requires i <= |s|
    ensures forall j :: i <= j < FirstKept(s, cs, i) ==> s[j] in cs
    decreases |s| - i
  {
    if i < |s| && s[i] in cs { FirstKeptSkips(s, cs, i + 1); }
  }

  /** Every character `LastKeptEnd` drops is in `cs`. */
  lemma {:induction false} LastKeptEndSkips(s: string, cs: set<char>, lo: nat, hi: nat)
    requires lo < hi <= |s| && s[lo] !in cs
    ensures forall j :: LastKeptEnd(s, cs, lo, hi) <= j < hi ==> s[j] in cs
    decreases hi
  {
    if s[hi - 1] in cs { LastKeptEndSkips(s, cs, lo, hi - 1); }
  }

  /** `s.strip()`. */
  function Strip(s: string): (r: string)
    ensures |r| <= |s|
  {
    StripChars(s, Whitespace)
  }

  /** Stripping changes nothing when neither end is a character to strip. */
  lemma StripCharsNoop(s: string, cs: set<char>)
    requires |s| > 0 ==> s[0] !in cs && s[|s| - 1] !in cs
    ensures StripChars(s, cs) == s
    ensures |s| > 0 ==> FirstKept(s, cs, 0) == 0 && LastKeptEnd(s, cs, 0, |s|) == |s|
  {
    if |s| > 0 {
      assert FirstKept(s, cs, 0) == 0;
      assert LastKeptEnd(s, cs, 0, |s|) == |s|;
    }
  }

  /** Stripping `c` off `[c] + s + [c']`-shaped text: the characters strictly between the
      first and the last kept positions. */
  lemma StripCharsInner(s: string, cs: set<char>, lo: nat, hi: nat)
    requires lo < hi <= |s| && s[lo] !in cs && s[hi - 1] !in cs
    requires forall j :: 0 <= j < lo ==> s[j] in cs
    requires forall j :: hi <= j < |s| ==> s[j] in cs
    ensures StripChars(s, cs) == Slice(s, lo, hi)
    ensures FirstKept(s, cs, 0) == lo && LastKeptEnd(s, cs, lo, |s|) == hi
  {
    FirstKeptAt(s, cs, 0, lo);
    LastKeptEndAt(s, cs, lo, |s|, hi);
  }

  lemma {:induction false} FirstKeptAt(s: string, cs: set<char>, i: nat, lo: nat)
    requires i <= lo < |s| && s[lo] !in cs && forall j :: i <= j < lo ==> s[j] in cs
    ensures FirstKept(s, cs, i) == lo
    decreases lo - i
  {
    if i < lo { FirstKeptAt(s, cs, i + 1, lo); }
  }

  lemma {:induction false} LastKeptEndAt(s: string, cs: set<char>, lo: nat, h: nat, hi: nat)
    requires lo < hi <= h <= |s| && s[lo] !in cs && s[hi - 1] !in cs
    requires forall j :: hi <= j < h ==> s[j] in cs
    ensures LastKeptEnd(s, cs, lo, h) == hi
    decreases h
  {
    if hi < h { LastKeptEndAt(s, cs, lo, h - 1, hi); }
  }

  /** `s.replace(c, '')`: removes every occurrence of `c`. */
  function Without(s: string, c: char): (r: string)
    ensures |r| <= |s|
  {
    WithoutUpTo(s, c, |s|)
  }

  /** `s[..hi].replace(c, '')`. */
  function WithoutUpTo(s: string, c: char, hi: nat): (r: string)
    requires hi <= |s|
    ensures |r| <= hi
    decreases hi
  {
    if hi == 0 then ""
    else WithoutUpTo(s, c, hi - 1) + (if s[hi - 1] == c then "" else [s[hi - 1]])
  }

  lemma {:induction false} WithoutUpToNoop(s: string, c: char, hi: nat)
    requires hi <= |s| && forall j :: 0 <= j < hi ==> s[j] != c
    ensures WithoutUpTo(s, c, hi) == Slice(s, 0, hi)
    decreases hi
  {
    if hi > 0 {
      WithoutUpToNoop(s, c, hi - 1);
      assert Slice(s, 0, hi - 1) + [s[hi - 1]] == Slice(s, 0, hi);
    }
  }

  lemma WithoutNoop(s: string, c: char)
    requires c !in s
    ensures Without(s, c) == s
  {
    WithoutUpToNoop(s, c, |s|);
  }

  /** Positions inside the first part of `a + b` read the same as in `a`. */
  lemma {:induction false} WithoutUpToPrefix(a: string, b: string, c: char, hi: nat)
    requires hi <= |a|
    ensures WithoutUpTo(a + b, c, hi) == WithoutUpTo(a, c, hi)
    decreases hi
  {
    if hi > 0 {
      WithoutUpToPrefix(a, b, c, hi - 1);
      assert (a + b)[hi - 1] == a[hi - 1];
    }
  }

  lemma {:induction false} WithoutUpToConcat(a: string, b: string, c: char, j: nat)
    requires j <= |b|
    ensures WithoutUpTo(a + b, c, |a| + j) == Without(a, c) + WithoutUpTo(b, c, j)
    decreases j
  {
    if j == 0 {
      WithoutUpToPrefix(a, b, c, |a|);
    } else {
      WithoutUpToConcat(a, b, c, j - 1);
      assert (a + b)[|a| + j - 1] == b[j - 1];
    }
  }

  lemma WithoutConcat(a: string, b: string, c: char)
    ensures Without(a + b, c) == Without(a, c) + Without(b, c)
  {
    WithoutUpToConcat(a, b, c, |b|);
  }

  /** `s.replace(pat, rep)`, matching from the right. For a pattern that cannot overlap
      itself (such as `(Unconfirmed) `) this picks the same occurrences as Python's
      left-to-right scan. */
  function ReplaceAll(s: string, pat: string, rep: string): string
    requires |pat| > 0
  {
    ReplaceUpTo(s, pat, rep, |s|)
  }

  function ReplaceUpTo(s: string, pat: string, rep: string, hi: nat): string
    requires |pat| > 0 && hi <= |s|
    decreases hi
  {
    if hi < |pat| then Slice(s, 0, hi)
    else if EndsWithAt(s, pat, hi) then ReplaceUpTo(s, pat, rep, hi - |pat|) + rep
    else ReplaceUpTo(s, pat, rep, hi - 1) + [s[hi - 1]]
  }

  /** `s.split(c)` for a one-character separator: one more piece than separators. */
  function Split(s: string, c: char): (r: seq<string>)
    ensures |r| >= 1
  {
    SplitUpTo(s, c, |s|)
  }

  /** The pieces of `s[..hi].split(c)`. */
  function SplitUpTo(s: string, c: char, hi: nat): (r: seq<string>)
    requires hi <= |s|
    ensures |r| >= 1
    decreases hi
  {
    if hi == 0 then [""]
    else
      var init := SplitUpTo(s, c, hi - 1);
      if s[hi - 1] == c then init + [""]
      else init[|init| - 1 := init[|init| - 1] + [s[hi - 1]]]
  }

  /** The pieces of `s.split(c)` are the separator-free runs between separators:
      with no separator up to `hi` there is one piece, the whole prefix. */
  lemma {:induction false} SplitUpToNoSeparator(s: string, c: char, hi: nat)
    requires hi <= |s| && forall j :: 0 <= j < hi ==> s[j] != c
    ensures SplitUpTo(s, c, hi) == [Slice(s, 0, hi)]
    decreases hi
  {
    if hi > 0 {
      SplitUpToNoSeparator(s, c, hi - 1);
      assert Slice(s, 0, hi - 1) + [s[hi - 1]] == Slice(s, 0, hi);
    }
  }

  lemma {:induction false} SplitUpToAfter(s: string, c: char, k: nat, hi: nat)
    requires k < hi <= |s| && s[k] == c && forall j :: k < j < hi ==> s[j] != c
    ensures var p := SplitUpTo(s, c, k);
            SplitUpTo(s, c, hi) == p + [Slice(s, k + 1, hi)]
    decreases hi
  {
    if hi > k + 1 {
      SplitUpToAfter(s, c, k, hi - 1);
      assert Slice(s, k + 1, hi - 1) + [s[hi - 1]] == Slice(s, k + 1, hi);
    } else {
      assert Slice(s, k + 1, hi) == "";
    }
  }

  /** A string with exactly one separator splits into the two pieces around it. */
  lemma SplitOneSeparator(s: string, c: char, k: nat)
    requires k < |s| && s[k] == c && forall j :: 0 <= j < |s| && j != k ==> s[j] != c
    ensures Split(s, c) == [Slice(s, 0, k), Slice(s, k + 1, |s|)]
  {
    SplitUpToNoSeparator(s, c, k);
    SplitUpToAfter(s, c, k, |s|);
  }

  /** A string without the separator is a single piece. */
  lemma SplitWhole(s: string, c: char)
    requires c !in s
    ensures Split(s, c) == [s]
  {
    SplitUpToNoSeparator(s, c, |s|);
    assert Slice(s, 0, |s|) == s;
  }

  /** Splitting `x + [c] + y` gives the pieces of `x` followed by the pieces of `y`. */
  lemma SplitJoin(x: string, c: char, y: string)
    ensures Split(x + [c] + y, c) == Split(x, c) + Split(y, c)
  {
    SplitJoinUpTo(x, c, y, |y|);
  }

  lemma {:induction false} SplitJoinUpTo(x: string, c: char, y: string, j: nat)
    requires j <= |y|
    ensures SplitUpTo(x + [c] + y, c, |x| + 1 + j) == Split(x, c) + SplitUpTo(y, c, j)
    decreases j
  {
    var s := x + [c] + y;
    if j == 0 {
      assert s[|x|] == c;
      SplitUpToPrefix(x, [c] + y, c, |x|);
      assert s == x + ([c] + y);
    } else {
      SplitJoinUpTo(x, c, y, j - 1);
      assert s[|x| + j] == y[j - 1];
    }
  }

  /** Positions inside the first part of `a + b` split as in `a`. */
  lemma {:induction false} SplitUpToPrefix(a: string, b: string, c: char, hi: nat)
    requires hi <= |a|
    ensures SplitUpTo(a + b, c, hi) == SplitUpTo(a, c, hi)
    decreases hi
  {
    if hi > 0 {
      SplitUpToPrefix(a, b, c, hi - 1);
      assert (a + b)[hi - 1] == a[hi - 1];
    }
  }

  /** `s.split()`: the maximal runs of non-whitespace characters. */
  function Words(s: string): (r: seq<string>)
    ensures forall i :: 0 <= i < |r| ==> |r[i]| > 0
    ensures |s| > 0 && s[|s| - 1] !in Whitespace ==> |r| > 0
  {
    WordsUpTo(s, |s|)
  }

  function WordsUpTo(s: string, hi: nat): (r: seq<string>)
    requires hi <= |s|
    ensures forall i :: 0 <= i < |r| ==> |r[i]| > 0
    ensures hi > 0 && s[hi - 1] !in Whitespace ==> |r| > 0
    decreases hi
  {
    if hi == 0 then []
    else
      var init := WordsUpTo(s, hi - 1);
      var last := s[hi - 1];
      if last in Whitespace then init
      else if hi > 1 && s[hi - 2] !in Whitespace then init[|init| - 1 := init[|init| - 1] + [last]]
      else init + [[last]]
  }

  /** `str.upper()` on ASCII letters. */
  function Upper(s: string): (r: string)
    ensures |r| == |s|
  {
    seq(|s|, i requires 0 <= i < |s| => UpperChar(s[i]))
  }

  function UpperChar(c: char): char {
    if 'a' <= c <= 'z' then (c as int - 32) as char else c
  }
}
