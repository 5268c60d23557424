/**
 The distinct symbols of a window of the text with their counts, in ascending
 order, as a walk over the prefix tree produces them.
 */
module RangeRuns {
  import opened RankSelect
  import opened StablePartition
  import opened Arithmetic
  import opened Words
  import opened WaveletMatrix
  import opened CraftCodes
  import opened SymbolWords

  /** A symbol and how often it occurs. */
  datatype Run = Run(symbol: int, count: nat)

  /** Rows of `x` below prefix `p`, one run per word of `n` digits. */
  ghost function Runs(x: seq<Word>, p: Word, n: nat): seq<Run>
    decreases n - |p|, 5
  {
    var k := |WithPrefix(x, p)|;
    if k == 0 then [] else if |p| >= n then [Run(Value(p), k)] else RunsFrom(x, p, n, 0)
  }

  /** The runs below the children `b..4` of `p`. */
  ghost function RunsFrom(x: seq<Word>, p: Word, n: nat, b: nat): seq<Run>
    requires b <= 4 && |p| < n
    decreases n - |p|, 4 - b
  {
    if b == 4 then [] else Runs(x, p + [b], n) + RunsFrom(x, p, n, b + 1)
  }

  ghost predicate Strict(runs: seq<Run>) {
    forall i, j :: 0 <= i < j < |runs| ==> runs[i].symbol < runs[j].symbol
  }

  ghost predicate Within(runs: seq<Run>, lo: int, hi: int) {
    forall i :: 0 <= i < |runs| ==> lo <= runs[i].symbol < hi
  }

  ghost function Total(runs: seq<Run>): nat {
    if runs == [] then 0 else runs[0].count + Total(runs[1..])
  }

  /** The distinct symbols of a text in ascending order, each with its number of occurrences. */
  ghost predicate DistinctRuns(runs: seq<Run>, t: seq<nat>) {
    && Strict(runs)
    && (forall i :: 0 <= i < |runs| ==> runs[i].symbol in t && runs[i].count == Occs<int>(t, runs[i].symbol))
    && forall c :: c in t ==> exists i :: 0 <= i < |runs| && runs[i].symbol == c
  }

  // ---- Shape of the list: bounds, order, total ----

  /** Symbols below prefix `p`: a quarter of the parent's interval each. */
  lemma {:induction false} RunsShape(x: seq<Word>, p: Word, n: nat)
    requires Quaternary(p) && |p| <= n
    ensures Strict(Runs(x, p, n))
    ensures Within(Runs(x, p, n), Value(p) * Pow4(n - |p|), (Value(p) + 1) * Pow4(n - |p|))
    decreases n - |p|, 5
  {
    hide WithPrefix, Value;
    if |WithPrefix(x, p)| > 0 && |p| < n {
      RunsFromShape(x, p, n, 0);
      ValueBound(p);
      MulAssociates(Value(p), 4, Pow4(n - |p| - 1));
      MulAssociates(Value(p) + 1, 4, Pow4(n - |p| - 1));
    } else {
      assert Pow4(0) == 1;
    }
  }

  lemma {:induction false} RunsFromShape(x: seq<Word>, p: Word, n: nat, b: nat)
    requires Quaternary(p) && |p| < n && b <= 4
    ensures Strict(RunsFrom(x, p, n, b))
    ensures Within(RunsFrom(x, p, n, b), (4 * Value(p) + b) * Pow4(n - |p| - 1), (4 * Value(p) + 4) * Pow4(n - |p| - 1))
    decreases n - |p|, 4 - b
  {
    hide WithPrefix, Runs, Value, Pow4;
    if b < 4 {
      var m := Pow4(n - |p| - 1);
      var v := 4 * Value(p);
      ValueStep(p, b);
      RunsShape(x, p + [b], n);
      RunsFromShape(x, p, n, b + 1);
      Widen(v + b, v + b + 1, m);
      Widen(v + b + 1, v + 4, m);
      AppendRuns(Runs(x, p + [b], n), RunsFrom(x, p, n, b + 1), (v + b) * m, (v + b + 1) * m, (v + 4) * m);
    }
  }

  lemma ValueStep(p: Word, b: int)
    ensures Value(p + [b]) == 4 * Value(p) + b
  {
    assert (p + [b])[..|p|] == p;
  }

  lemma Widen(a: int, b: int, m: nat)
    requires a <= b
    ensures a * m <= b * m
  {
    MultipleAtLeast(b - a, m);
    assert b * m == a * m + (b - a) * m;
    if b > a {
      assert (b - a) * m >= 0;
    }
  }

  lemma AppendRuns(a: seq<Run>, b: seq<Run>, lo: int, mid: int, hi: int)
    requires Strict(a) && Strict(b) && Within(a, lo, mid) && Within(b, mid, hi) && lo <= mid <= hi
    ensures Strict(a + b) && Within(a + b, lo, hi)
  {}

  lemma {:induction false} TotalAppend(a: seq<Run>, b: seq<Run>)
    ensures Total(a + b) == Total(a) + Total(b)
  {
    if a == [] {
      assert a + b == b;
    } else {
      TotalAppend(a[1..], b);
      assert (a + b)[1..] == a[1..] + b;
    }
  }

  /** Rows below a prefix go to its four children. */
  ghost function RowsFrom(x: seq<Word>, p: Word, b: nat): nat
    requires b <= 4
    decreases 4 - b
  {
    if b == 4 then 0 else |WithPrefix(x, p + [b])| + RowsFrom(x, p, b + 1)
  }

  lemma {:induction false} RowsSplit(x: seq<Word>, p: Word, n: nat)
    requires Uniform(x, n) && AllQuaternary(x) && |p| < n
    ensures RowsFrom(x, p, 0) == |WithPrefix(x, p)|
  {
    var m := |x| - 1;
    if |x| == 0 {
      assert RowsFrom(x, p, 3) == 0;
      assert RowsFrom(x, p, 1) == 0;
    } else {
      RowsSplit(x[..m], p, n);
      assert Quaternary(x[m]);
      OneRow(x, p, 0);
      OneRow(x, p, 1);
      OneRow(x, p, 2);
      OneRow(x, p, 3);
      assert RowsFrom(x, p, 2) == |WithPrefix(x, p + [2])| + |WithPrefix(x, p + [3])|;
      assert RowsFrom(x[..m], p, 2) == |WithPrefix(x[..m], p + [2])| + |WithPrefix(x[..m], p + [3])|;
    }
  }

  lemma OneRow(x: seq<Word>, p: Word, d: int)
    requires |x| > 0 && |p| < |x[|x| - 1]|
    ensures var r := x[|x| - 1];
      |WithPrefix(x, p + [d])| == |WithPrefix(x[..|x| - 1], p + [d])| + if p <= r && r[|p|] == d then 1 else 0
  {
    var r := x[|x| - 1];
    PrefixShorter(p, d, r);
    if p <= r {
      PrefixExtends(p, d, r);
    }
  }

  /** No row is lost: the counts add up to the rows below the prefix. */
  lemma {:induction false} RunsTotal(x: seq<Word>, p: Word, n: nat)
    requires Uniform(x, n) && AllQuaternary(x) && |p| <= n
    ensures Total(Runs(x, p, n)) == |WithPrefix(x, p)|
    decreases n - |p|, 5
  {
    hide WithPrefix;
    if |WithPrefix(x, p)| > 0 && |p| < n {
      RunsFromTotal(x, p, n, 0);
      RowsSplit(x, p, n);
    }
  }

  lemma {:induction false} RunsFromTotal(x: seq<Word>, p: Word, n: nat, b: nat)
    requires Uniform(x, n) && AllQuaternary(x) && |p| < n && b <= 4
    ensures Total(RunsFrom(x, p, n, b)) == RowsFrom(x, p, b)
    decreases n - |p|, 4 - b
  {
    hide WithPrefix, Runs;
    if b < 4 {
      RunsTotal(x, p + [b], n);
      RunsFromTotal(x, p, n, b + 1);
      TotalAppend(Runs(x, p + [b], n), RunsFrom(x, p, n, b + 1));
    }
  }

  // ---- Contents of the list ----

  /** Every run is the rows of one whole word. */
  ghost predicate CountsWords(runs: seq<Run>, x: seq<Word>, n: nat) {
    forall i :: 0 <= i < |runs| ==> CountsWord(runs[i], x, n)
  }

  ghost predicate CountsWord(run: Run, x: seq<Word>, n: nat) {
    exists c: Word :: |c| == n && Quaternary(c) && run == Run(Value(c), |WithPrefix(x, c)|) && |WithPrefix(x, c)| > 0
  }

  lemma {:induction false} RunsCount(x: seq<Word>, p: Word, n: nat)
    requires |p| <= n && Quaternary(p)
    ensures CountsWords(Runs(x, p, n), x, n)
    decreases n - |p|, 5
  {
    hide WithPrefix, Value;
    if |WithPrefix(x, p)| > 0 {
      if |p| < n {
        RunsFromCount(x, p, n, 0);
      } else {
        assert CountsWord(Run(Value(p), |WithPrefix(x, p)|), x, n);
      }
    }
  }

  lemma {:induction false} RunsFromCount(x: seq<Word>, p: Word, n: nat, b: nat)
    requires |p| < n && b <= 4 && Quaternary(p)
    ensures CountsWords(RunsFrom(x, p, n, b), x, n)
    decreases n - |p|, 4 - b
  {
    hide WithPrefix, Runs, Value;
    if b < 4 {
      RunsCount(x, p + [b], n);
      RunsFromCount(x, p, n, b + 1);
    }
  }

  /** Every row below the prefix is counted by the run of its word. */
  lemma {:induction false} RunsFind(x: seq<Word>, p: Word, n: nat, r: Word) returns (i: nat)
    requires Uniform(x, n) && AllQuaternary(x) && r in x && p <= r
    ensures i < |Runs(x, p, n)| && Runs(x, p, n)[i].symbol == Value(r)
    decreases n - |p|, 5
  {
    hide Value;
    WithPrefixElements(x, p);
    assert r in WithPrefix(x, p);
    hide WithPrefix;
    var k :| 0 <= k < |x| && x[k] == r;
    if |p| < n {
      i := RunsFromFind(x, p, n, 0, r);
    } else {
      assert p == r;
      i := 0;
    }
  }

  lemma {:induction false} RunsFromFind(x: seq<Word>, p: Word, n: nat, b: nat, r: Word) returns (i: nat)
    requires Uniform(x, n) && AllQuaternary(x) && r in x && p <= r && |p| < n == |r| && b <= r[|p|] < 4
    ensures i < |RunsFrom(x, p, n, b)| && RunsFrom(x, p, n, b)[i].symbol == Value(r)
    decreases n - |p|, 4 - b
  {
    hide WithPrefix, Runs, Value;
    if r[|p|] == b {
      PrefixExtends(p, b, r);
      i := RunsFind(x, p + [b], n, r);
    } else {
      var j := RunsFromFind(x, p, n, b + 1, r);
      i := |Runs(x, p + [b], n)| + j;
    }
  }

  // ---- For a window of the text ----

  /** The walk from the root lists the distinct symbols of the window with their counts. */
  lemma RunsOfWindow(t: seq<nat>, n: nat)
    requires n > 0 && Below(t, Pow4(n))
    ensures DistinctRuns(Runs(Rows(t, n), [], n), t)
    ensures Total(Runs(Rows(t, n), [], n)) == |t|
  {
    hide WithPrefix, Runs, Value, SymbolWord;
    var x := Rows(t, n);
    var runs := Runs(x, [], n);
    RowsShape(t, n);
    RunsShape(x, [], n);
    RunsTotal(x, [], n);
    WithEmptyPrefix(x);
    RunsCount(x, [], n);
    forall i | 0 <= i < |runs|
      ensures runs[i].symbol in t && runs[i].count == Occs<int>(t, runs[i].symbol)
    {
      assert CountsWord(runs[i], x, n);
      var c: Word :| |c| == n && Quaternary(c) && runs[i] == Run(Value(c), |WithPrefix(x, c)|) && |WithPrefix(x, c)| > 0;
      RunOfSymbol(t, n, c);
    }
    forall c | c in t
      ensures exists i :: 0 <= i < |runs| && runs[i].symbol == c
    {
      var j :| 0 <= j < |t| && t[j] == c;
      ValueOfSymbol(t[j], n);
      assert x[j] in x;
      var i := RunsFind(x, [], n, x[j]);
    }
  }

  lemma RunOfSymbol(t: seq<nat>, n: nat, c: Word)
    requires n > 0 && Below(t, Pow4(n)) && |c| == n && Quaternary(c) && |WithPrefix(Rows(t, n), c)| > 0
    ensures 0 <= Value(c) && Value(c) in t && |WithPrefix(Rows(t, n), c)| == Occs<int>(t, Value(c))
  {
    hide Value, SymbolWord;
    var x := Rows(t, n);
    RowsShape(t, n);
    WithPrefixElements(x, c);
    var f := WithPrefix(x, c);
    assert f[0] in f && f[0] in x;
    var j :| 0 <= j < |x| && x[j] == f[0];
    assert f[0] == c;
    ValueOfSymbol(t[j], n);
    WithWholePrefix(x, c);
    RankOfRows(t, n, t[j], |t|);
  }

  /** Such a list is unique. */
  lemma {:induction false} DistinctRunsUnique(a: seq<Run>, b: seq<Run>, t: seq<nat>)
    requires DistinctRuns(a, t) && DistinctRuns(b, t)
    ensures a == b
  {
    SameRuns(a, b, t, 0);
  }

  lemma {:induction false} SameRuns(a: seq<Run>, b: seq<Run>, t: seq<nat>, k: nat)
    requires DistinctRuns(a, t) && DistinctRuns(b, t)
    requires k <= |a| && k <= |b| && a[..k] == b[..k]
    ensures a == b
    decreases |a| - k
  {
    hide Rank;
    if k == |a| {
      if k < |b| {
        NoEarlier(b, a, t, k);
      }
    } else {
      NoEarlier(a, b, t, k);
      NoEarlier(b, a, t, k);
      assert a[..k + 1] == b[..k + 1];
      SameRuns(a, b, t, k + 1);
    }
  }

  /** The symbol after a common part is listed next by the other list. */
  lemma NoEarlier(a: seq<Run>, b: seq<Run>, t: seq<nat>, k: nat)
    requires DistinctRuns(a, t) && DistinctRuns(b, t)
    requires k <= |a| && k <= |b| && a[..k] == b[..k]
    ensures k < |a| ==> k < |b| && b[k].symbol <= a[k].symbol
  {
    hide Rank;
    if k < |a| {
      var j :| 0 <= j < |b| && b[j].symbol == a[k].symbol;
      CommonPart(a, b, k, j);
    }
  }

  lemma CommonPart<T>(a: seq<T>, b: seq<T>, k: nat, j: nat)
    requires k <= |a| && k <= |b| && a[..k] == b[..k] && j < |b|
    ensures j < k ==> a[j] == b[j]
  {
    assert j < k ==> a[..k][j] == b[..k][j];
  }
}
