/** Bulk extraction: the symbols of a range in ascending order, with or without repetition. */
module BulkExtract {
  import opened Wrappers
  import opened RankSelect
  import opened StablePartition
  import opened Arithmetic
  import opened Words
  import opened WaveletMatrix
  import opened RSQVectors
  import opened SymbolWords
  import opened LevelSteps
  import opened QuadWavelet
  import opened RangeRuns
  import opened RangeFrames
  import opened RangeIterators
  import RangeNext

  ghost function Repeat(c: int, k: nat): (r: seq<int>)
    ensures |r| == k && forall i :: 0 <= i < k ==> r[i] == c
  {
    seq(k, _ => c)
  }

  /** Every run written out. */
  ghost function Expand(runs: seq<Run>): (r: seq<int>)
    ensures |r| == Total(runs)
  {
    if runs == [] then [] else Repeat(runs[0].symbol, runs[0].count) + Expand(runs[1..])
  }

  function SymbolsOf(runs: seq<Run>): (r: seq<int>)
    ensures |r| == |runs| && forall i :: 0 <= i < |runs| ==> r[i] == runs[i].symbol
  {
    seq(|runs|, i requires 0 <= i < |runs| => runs[i].symbol)
  }

  lemma {:induction false} ExpandConcat(a: seq<Run>, b: seq<Run>)
    ensures Expand(a + b) == Expand(a) + Expand(b)
  {
    if a == [] {
      assert a + b == b;
    } else {
      ExpandConcat(a[1..], b);
      assert (a + b)[1..] == a[1..] + b;
      ExpandFirst(a);
      ExpandFirst(a + b);
      hide *;
      RangeNext.JoinLists(Repeat(a[0].symbol, a[0].count), Expand(a[1..]), Expand(b));
    }
  }

  lemma ExpandFirst(runs: seq<Run>)
    requires runs != []
    ensures Expand(runs) == Repeat(runs[0].symbol, runs[0].count) + Expand(runs[1..])
  {}

  ghost predicate Ascending(s: seq<int>) {
    forall i, j :: 0 <= i < j < |s| ==> s[i] <= s[j]
  }

  /** What `extract_range` promises: the window, sorted. */
  ghost predicate SortedCopy(out: seq<int>, t: seq<nat>) {
    Ascending(out) && |out| == |t| && forall c: int :: Occs(out, c) == Occs<int>(t, c)
  }

  /** What `extract_range_distinct` promises: the window, sorted and without repetition. */
  ghost predicate SortedSet(out: seq<int>, t: seq<nat>) {
    && (forall i, j :: 0 <= i < j < |out| ==> out[i] < out[j])
    && forall c: int :: c in out <==> c in t
  }

  lemma {:induction false} ExpandElements(runs: seq<Run>)
    ensures forall c :: c in Expand(runs) ==> exists i :: 0 <= i < |runs| && runs[i].symbol == c
  {
    if runs != [] {
      ExpandElements(runs[1..]);
      forall c | c in Expand(runs)
        ensures exists i :: 0 <= i < |runs| && runs[i].symbol == c
      {
        if c in Expand(runs[1..]) {
          var i :| 0 <= i < |runs[1..]| && runs[1..][i].symbol == c;
          assert runs[i + 1].symbol == c;
        } else {
          assert c in Repeat(runs[0].symbol, runs[0].count);
        }
      }
    }
  }

  lemma {:induction false} ExpandAscending(runs: seq<Run>)
    requires Strict(runs)
    ensures Ascending(Expand(runs))
  {
    if runs != [] {
      ExpandAscending(runs[1..]);
      ExpandElements(runs[1..]);
      var head, tail := Repeat(runs[0].symbol, runs[0].count), Expand(runs[1..]);
      forall j | 0 <= j < |tail|
        ensures runs[0].symbol <= tail[j]
      {
        assert tail[j] in tail;
        var i :| 0 <= i < |runs[1..]| && runs[1..][i].symbol == tail[j];
        assert runs[i + 1].symbol == tail[j];
      }
    }
  }

  lemma {:induction false} RepeatRank(c: int, k: nat, d: int, i: nat)
    requires i <= k
    ensures Rank(Repeat(c, k), d, i) == if c == d then i else 0
  {
    if i > 0 {
      RepeatRank(c, k, d, i - 1);
    }
  }

  lemma {:induction false} ExpandAbsent(runs: seq<Run>, c: int)
    requires forall i :: 0 <= i < |runs| ==> runs[i].symbol != c
    ensures Occs(Expand(runs), c) == 0
  {
    if runs != [] {
      ExpandAbsent(runs[1..], c);
      RepeatRank(runs[0].symbol, runs[0].count, c, runs[0].count);
      RankConcat(Repeat(runs[0].symbol, runs[0].count), Expand(runs[1..]), c, |Expand(runs)|);
    }
  }

  lemma {:induction false} ExpandCount(runs: seq<Run>, i: nat)
    requires Strict(runs) && i < |runs|
    ensures Occs(Expand(runs), runs[i].symbol) == runs[i].count
  {
    var c := runs[i].symbol;
    RepeatRank(runs[0].symbol, runs[0].count, c, runs[0].count);
    RankConcat(Repeat(runs[0].symbol, runs[0].count), Expand(runs[1..]), c, |Expand(runs)|);
    if i == 0 {
      ExpandAbsent(runs[1..], c);
    } else {
      ExpandCount(runs[1..], i - 1);
    }
  }

  /** The runs of a window, written out, are the window sorted. */
  lemma ExpandSorts(runs: seq<Run>, t: seq<nat>)
    requires DistinctRuns(runs, t) && Total(runs) == |t|
    ensures SortedCopy(Expand(runs), t)
  {
    ExpandAscending(runs);
    forall c: int
      ensures Occs(Expand(runs), c) == Occs<int>(t, c)
    {
      if i :| 0 <= i < |runs| && runs[i].symbol == c {
        ExpandCount(runs, i);
      } else {
        ExpandAbsent(runs, c);
        AbsentSymbol(t, c, |t|);
      }
    }
  }

  lemma {:induction false} AbsentSymbol(t: seq<nat>, c: int, i: nat)
    requires c !in t && i <= |t|
    ensures Rank<int>(t, c, i) == 0
  {
    if i > 0 {
      AbsentSymbol(t, c, i - 1);
      assert t[i - 1] in t;
    }
  }

  lemma SymbolsSort(runs: seq<Run>, t: seq<nat>)
    requires DistinctRuns(runs, t)
    ensures SortedSet(SymbolsOf(runs), t)
  {
    var out := SymbolsOf(runs);
    forall c: int
      ensures c in out <==> c in t
    {
      if c in out {
        var i :| 0 <= i < |out| && out[i] == c;
        assert runs[i].symbol == c;
      }
      if c in t {
        var i :| 0 <= i < |runs| && runs[i].symbol == c;
        assert out[i] == c;
      }
    }
  }

  // ---- A range of one row ----

  /** The only row of a node goes to one child. */
  lemma OnlyChild(x: seq<Word>, p: Word, n: nat, d: nat)
    requires Uniform(x, n) && AllQuaternary(x) && |p| < n && d < 4
    requires |WithPrefix(x, p)| == 1 && |WithPrefix(x, p + [d])| == 1
    ensures Runs(x, p, n) == Runs(x, p + [d], n)
  {
    hide WithPrefix;
    RowsSplit(x, p, n);
    RunsOfChildren(x, p, n);
    hide Runs;
    OnlyFrom(x, p, n, d, 0);
  }

  lemma {:induction false} OnlyFrom(x: seq<Word>, p: Word, n: nat, d: nat, b: nat)
    requires |p| < n && d < 4 && b <= 4 && |WithPrefix(x, p + [d])| == 1
    requires RowsFrom(x, p, b) == if b <= d then 1 else 0
    ensures RunsFrom(x, p, n, b) == if b <= d then Runs(x, p + [d], n) else []
    decreases 4 - b
  {
    hide WithPrefix, Runs;
    if b < 4 {
      if b < d {
        RowsAtLeast(x, p, d, b + 1);
      }
      OnlyFrom(x, p, n, d, b + 1);
      if b != d {
        NoRows(x, p + [b], n);
      }
    }
  }

  lemma {:induction false} RowsAtLeast(x: seq<Word>, p: Word, d: nat, b: nat)
    requires b <= d < 4
    ensures RowsFrom(x, p, b) >= |WithPrefix(x, p + [d])|
    decreases 4 - b
  {
    if b < d {
      RowsAtLeast(x, p, d, b + 1);
    }
  }

  ghost predicate SingleRow(w: seq<Word>, x: seq<Word>, n: nat, f: Frame) {
    RowsOk(w, x, n) && FrameOk(w, x, n, f) && f.end == f.start + 1
  }

  /** One level of the descent of a single row. */
  lemma SingleStep(w: seq<Word>, x: seq<Word>, n: nat, f: Frame, d: nat, next: Frame)
    requires SingleRow(w, x, n, f) && f.level < n && f.start < |Level(w, f.level)|
    requires d < 4 && d == Digits(Level(w, f.level), f.level)[f.start] && IsChild(w, f, d, next)
    ensures SingleRow(w, x, n, next) && next.level == f.level + 1
    ensures Runs(x, PrefixOf(f), n) == Runs(x, PrefixOf(next), n)
  {
    hide Level, WithPrefix, SymbolWord, Runs, FrameOk;
    ChildFrame(w, x, n, f, d, next);
    SingleCount(w, x, n, f);
    OnlyChild(x, PrefixOf(f), n, d);
  }

  lemma SingleCount(w: seq<Word>, x: seq<Word>, n: nat, f: Frame)
    requires SingleRow(w, x, n, f)
    ensures f.level <= n && |WithPrefix(x, PrefixOf(f))| == 1
  {}

  lemma SingleRange(w: seq<Word>, x: seq<Word>, n: nat, f: Frame)
    requires RowsOk(w, x, n) && FrameOk(w, x, n, f) && f.level < n
    ensures f.start < f.end <= |Level(w, f.level)|
  {}

  /** Follows one row to its leaf. */
  method ExtractSingletonFrom(tree: QWaveletTree, ghost s: seq<nat>, ghost t: seq<nat>, f: Frame) returns (r: nat)
    requires tree.Indexes(s) && SingleRow(Rows(s, tree.nLevels), Rows(t, tree.nLevels), tree.nLevels, f) && f.level < tree.nLevels
    ensures Runs(Rows(t, tree.nLevels), PrefixOf(f), tree.nLevels) == [Run(r, 1)]
  {
    hide QWaveletTree.Indexes, FrameOk, RowsOk, Runs, SymbolWord, Level, RSQVector.Valid, RSQVector.Contents;
    ghost var w, x, n := Rows(s, tree.nLevels), Rows(t, tree.nLevels), tree.nLevels;
    var level, pos, prefix := f.level, f.start, f.bitPath;
    while level + 1 < tree.nLevels
      invariant f.level <= level < tree.nLevels
      invariant SingleRow(w, x, n, Frame(pos, pos + 1, level, prefix))
      invariant Runs(x, PrefixOf(Frame(pos, pos + 1, level, prefix)), n) == Runs(x, PrefixOf(f), n)
    {
      pos, prefix := SingleDown(tree, s, t, Frame(pos, pos + 1, level, prefix));
      level := level + 1;
    }
    ghost var at;
    at, r := SingleDown(tree, s, t, Frame(pos, pos + 1, level, prefix));
    LeafRun(w, x, n, Frame(at, at + 1, n, r));
  }

  /** The digit of a row, and where the row stands one level down. */
  method SingleDown(tree: QWaveletTree, ghost s: seq<nat>, ghost t: seq<nat>, f: Frame) returns (pos: nat, prefix: nat)
    requires tree.Indexes(s) && SingleRow(Rows(s, tree.nLevels), Rows(t, tree.nLevels), tree.nLevels, f) && f.level < tree.nLevels
    ensures SingleRow(Rows(s, tree.nLevels), Rows(t, tree.nLevels), tree.nLevels, Frame(pos, pos + 1, f.level + 1, prefix))
    ensures Runs(Rows(t, tree.nLevels), PrefixOf(f), tree.nLevels)
         == Runs(Rows(t, tree.nLevels), PrefixOf(Frame(pos, pos + 1, f.level + 1, prefix)), tree.nLevels)
  {
    hide QWaveletTree.Indexes, FrameOk, Runs, SymbolWord, Level, RSQVector.Valid, RSQVector.Contents, Rows, OccsBelow;
    ghost var w, x, n := Rows(s, tree.nLevels), Rows(t, tree.nLevels), tree.nLevels;
    FrameLevel(tree, s, x, f);
    SingleRange(w, x, n, f);
    PathOf(w, x, n, f);
    var dig := tree.qvs[f.level].GetUnchecked(f.start);
    prefix := PushDigit(f.bitPath, dig);
    pos := tree.qvs[f.level].ChildOf(dig, f.start);
    ghost var k := Digits(Level(w, f.level), f.level);
    assert Rank(k, dig, f.start + 1) == Rank(k, dig, f.start) + 1;
    SingleStep(w, x, n, f, dig, Frame(pos, pos + 1, f.level + 1, prefix));
  }

  lemma PathOf(w: seq<Word>, x: seq<Word>, n: nat, f: Frame)
    requires RowsOk(w, x, n) && FrameOk(w, x, n, f) && f.level < n
    ensures f.bitPath < Pow4(31)
  {
    PathRoom(f, n);
  }

  // ---- Sorted extraction ----

  /** What has been written and what is still to come make up the node. */
  ghost predicate WrittenSoFar(x: seq<Word>, p: Word, n: nat, b: nat, done: seq<int>)
    requires |p| < n && b <= 4
  {
    done + Expand(RunsFrom(x, p, n, b)) == Expand(Runs(x, p, n))
  }

  lemma WriteNext(x: seq<Word>, p: Word, n: nat, b: nat, done: seq<int>)
    requires |p| < n && b < 4 && WrittenSoFar(x, p, n, b, done)
    ensures WrittenSoFar(x, p, n, b + 1, done + Expand(Runs(x, p + [b], n)))
  {
    hide Runs, Expand;
    ExpandConcat(Runs(x, p + [b], n), RunsFrom(x, p, n, b + 1));
  }

  lemma WriteStart(x: seq<Word>, p: Word, n: nat)
    requires |p| < n && |WithPrefix(x, p)| > 0
    ensures WrittenSoFar(x, p, n, 0, [])
  {
    RunsOfChildren(x, p, n);
  }

  lemma WriteEnd(x: seq<Word>, p: Word, n: nat, done: seq<int>)
    requires |p| < n && WrittenSoFar(x, p, n, 4, done)
    ensures done == Expand(Runs(x, p, n))
  {}

  lemma PieceLength(w: seq<Word>, x: seq<Word>, n: nat, f: Frame)
    requires RowsOk(w, x, n) && FrameOk(w, x, n, f)
    ensures f.start < f.end && |Expand(Runs(x, PrefixOf(f), n))| == f.end - f.start == |WithPrefix(x, PrefixOf(f))| && f.level <= n
  {
    RunsTotal(x, PrefixOf(f), n);
  }

  /** Child `b` of a frame, from the ranks of both ends. */
  method ChildOfRanks(q: RSQVector, ghost w: seq<Word>, ghost x: seq<Word>, ghost n: nat, f: Frame, b: nat, rankS: nat, rankE: nat)
    returns (child: Frame)
    requires RowsOk(w, x, n) && FrameOk(w, x, n, f) && f.level < n && b < 4 && Stores(q, Level(w, f.level), f.level)
    requires f.start <= f.end <= |q.Contents()| && rankS == Rank(q.Contents(), b, f.start) && rankE == Rank(q.Contents(), b, f.end)
    ensures IsChild(w, f, b, child)
  {
    hide RSQVector.Valid, RSQVector.Contents, Level, WithPrefix, SymbolWord, Rank, OccsBelow;
    PathOf(w, x, n, f);
    var offset := q.OccsSmallerUnchecked(b);
    child := Frame(offset + rankS, offset + rankE, f.level + 1, PushDigit(f.bitPath, b));
  }

  method SortedRec(tree: QWaveletTree, ghost s: seq<nat>, ghost t: seq<nat>, f: Frame, out: array<int>, lo: nat)
    requires tree.Indexes(s) && RowsOk(Rows(s, tree.nLevels), Rows(t, tree.nLevels), tree.nLevels)
    requires FrameOk(Rows(s, tree.nLevels), Rows(t, tree.nLevels), tree.nLevels, f) && f.level < tree.nLevels
    requires f.start <= f.end && lo + (f.end - f.start) <= out.Length
    modifies out
    ensures out[lo..lo + (f.end - f.start)] == Expand(Runs(Rows(t, tree.nLevels), PrefixOf(f), tree.nLevels))
    ensures out[..lo] == old(out[..lo])
    ensures out[lo + (f.end - f.start)..] == old(out[lo + (f.end - f.start)..])
    decreases tree.nLevels - f.level, 1
  {
    hide QWaveletTree.Indexes, FrameOk, RowsOk, Runs, SymbolWord, Level, RSQVector.Valid, RSQVector.Contents, Rows, Expand, Progress, IsChild, WithPrefix, Rank;
    ghost var w, x, n := Rows(s, tree.nLevels), Rows(t, tree.nLevels), tree.nLevels;
    ghost var p := PrefixOf(f);
    PieceLength(w, x, n, f);
    if f.end - f.start == 1 {
      var symbol := ExtractSingletonFrom(tree, s, t, f);
      out[lo] := symbol;
      SingleExpand(symbol);
      return;
    }
    FrameLevel(tree, s, x, f);
    SingleRange(w, x, n, f);
    var ranksS := tree.qvs[f.level].RankAllUnchecked(f.start);
    var ranksE := tree.qvs[f.level].RankAllUnchecked(f.end);
    var off: nat, b: nat := 0, 0;
    ghost var was := out[..];
    ProgressStart(x, p, n, was, lo);
    while b < 4
      invariant 0 <= b <= 4 && Progress(x, p, n, b, was, out[..], lo, off)
    {
      var child := ChildOfRanks(tree.qvs[f.level], w, x, n, f, b, ranksS[b], ranksE[b]);
      ghost var now := out[..];
      ChildRoom(w, x, n, f, b, child, was, now, lo, off);
      label L:
      SortedChild(tree, s, t, f, b, child, out, lo + off);
      SameSlices(out, lo + off, child.end - child.start);
      assert now[..lo + off] == old@L(out[..lo + off]);
      assert now[lo + off + (child.end - child.start)..] == old@L(out[lo + off + (child.end - child.start)..]);
      ProgressStep(w, x, n, f, b, child, was, now, out[..], lo, off);
      off := off + (child.end - child.start);
      b := b + 1;
    }
    ProgressEnd(x, p, n, was, out[..], lo, off);
    assert out[lo..lo + off] == out[..][lo..lo + off] && out[..lo] == out[..][..lo] && out[lo + off..] == out[..][lo + off..];
    assert was[..lo] == old(out[..lo]) && was[lo + off..] == old(out[lo + off..]);
  }

  lemma SameSlices(out: array<int>, lo: nat, k: nat)
    requires lo + k <= out.Length
    ensures out[..][..lo] == out[..lo] && out[..][lo..lo + k] == out[lo..lo + k] && out[..][lo + k..] == out[lo + k..]
  {}

  /** The first `off` slots of the node's window hold its first `b` children. */
  ghost predicate Progress(x: seq<Word>, p: Word, n: nat, b: nat, was: seq<int>, now: seq<int>, lo: nat, off: nat)
    requires |p| < n && b <= 4
  {
    && |was| == |now| && lo + |Expand(Runs(x, p, n))| <= |now| && lo + off <= |now|
    && WrittenSoFar(x, p, n, b, now[lo..lo + off])
    && now[..lo] == was[..lo] && now[lo + off..] == was[lo + off..]
  }

  lemma ProgressStart(x: seq<Word>, p: Word, n: nat, was: seq<int>, lo: nat)
    requires |p| < n && |WithPrefix(x, p)| > 0 && lo + |Expand(Runs(x, p, n))| <= |was|
    ensures Progress(x, p, n, 0, was, was, lo, 0)
  {
    hide Runs, Expand, WithPrefix;
    WriteStart(x, p, n);
    assert was[lo..lo] == [];
  }

  lemma ChildRoom(w: seq<Word>, x: seq<Word>, n: nat, f: Frame, b: nat, child: Frame, was: seq<int>, now: seq<int>, lo: nat, off: nat)
    requires RowsOk(w, x, n) && FrameOk(w, x, n, f) && f.level < n && b < 4 && IsChild(w, f, b, child)
    requires Progress(x, PrefixOf(f), n, b, was, now, lo, off)
    ensures child.start <= child.end && lo + off + (child.end - child.start) <= |now|
  {
    hide Runs, Expand, WithPrefix, FrameOk, RowsOk, WrittenSoFar;
    ChildPiece(w, x, n, f, b, child);
    WrittenLength(x, PrefixOf(f), n, b, now[lo..lo + off]);
  }

  lemma ProgressStep(w: seq<Word>, x: seq<Word>, n: nat, f: Frame, b: nat, child: Frame,
                     was: seq<int>, now: seq<int>, next: seq<int>, lo: nat, off: nat)
    requires RowsOk(w, x, n) && FrameOk(w, x, n, f) && f.level < n && b < 4 && IsChild(w, f, b, child)
    requires Progress(x, PrefixOf(f), n, b, was, now, lo, off)
    requires child.start <= child.end && lo + off + (child.end - child.start) <= |now| == |next|
    requires next[lo + off..lo + off + (child.end - child.start)] == Expand(Runs(x, PrefixOf(f) + [b], n))
    requires next[..lo + off] == now[..lo + off]
    requires next[lo + off + (child.end - child.start)..] == now[lo + off + (child.end - child.start)..]
    ensures Progress(x, PrefixOf(f), n, b + 1, was, next, lo, off + (child.end - child.start))
  {
    hide Runs, Expand, WithPrefix, FrameOk, RowsOk, WrittenSoFar, SymbolWord;
    var k := child.end - child.start;
    WriteNext(x, PrefixOf(f), n, b, now[lo..lo + off]);
    Splice(now, next, lo, off, k);
    assert was[lo + off..][k..] == was[lo + (off + k)..];
  }

  lemma ProgressEnd(x: seq<Word>, p: Word, n: nat, was: seq<int>, now: seq<int>, lo: nat, off: nat)
    requires |p| < n && Progress(x, p, n, 4, was, now, lo, off)
    ensures off == |Expand(Runs(x, p, n))| && lo + off <= |now| == |was|
    ensures now[lo..lo + off] == Expand(Runs(x, p, n))
    ensures now[..lo] == was[..lo] && now[lo + off..] == was[lo + off..]
  {
    hide Runs;
    WriteEnd(x, p, n, now[lo..lo + off]);
  }

  lemma Splice(was: seq<int>, now: seq<int>, lo: nat, off: nat, k: nat)
    requires |was| == |now| && lo + off + k <= |now|
    requires now[..lo + off] == was[..lo + off] && now[lo + off + k..] == was[lo + off + k..]
    ensures now[..lo] == was[..lo]
    ensures now[lo..lo + off + k] == was[lo..lo + off] + now[lo + off..lo + off + k]
    ensures now[lo + off + k..] == was[lo + off..][k..]
  {
    assert now[..lo] == now[..lo + off][..lo];
    assert now[lo..lo + off] == now[..lo + off][lo..];
    assert was[lo..lo + off] == was[..lo + off][lo..];
  }

  lemma ChildPiece(w: seq<Word>, x: seq<Word>, n: nat, f: Frame, b: nat, child: Frame)
    requires RowsOk(w, x, n) && FrameOk(w, x, n, f) && f.level < n && b < 4 && IsChild(w, f, b, child)
    ensures child.start <= child.end && child.level == f.level + 1 && |PrefixOf(f)| == f.level
    ensures |Expand(Runs(x, PrefixOf(f) + [b], n))| == child.end - child.start
    ensures child.start == child.end ==> Runs(x, PrefixOf(f) + [b], n) == []
    ensures child.start < child.end ==> FrameOk(w, x, n, child) && PrefixOf(child) == PrefixOf(f) + [b]
  {
    hide WithPrefix, Runs, SymbolWord, Expand, FrameOk, IsChild;
    ChildFrame(w, x, n, f, b, child);
    ChildLevel(w, f, b, child);
    RunsTotal(x, PrefixOf(f) + [b], n);
    if child.start == child.end {
      NoRows(x, PrefixOf(f) + [b], n);
    }
  }

  /** The rows of one child: a run at the last level, a node otherwise. */
  method SortedChild(tree: QWaveletTree, ghost s: seq<nat>, ghost t: seq<nat>, ghost f: Frame, ghost b: nat, child: Frame, out: array<int>, lo: nat)
    requires tree.Indexes(s) && RowsOk(Rows(s, tree.nLevels), Rows(t, tree.nLevels), tree.nLevels)
    requires FrameOk(Rows(s, tree.nLevels), Rows(t, tree.nLevels), tree.nLevels, f) && f.level < tree.nLevels
    requires b < 4 && IsChild(Rows(s, tree.nLevels), f, b, child)
    requires child.start <= child.end && lo + (child.end - child.start) <= out.Length
    modifies out
    ensures out[lo..lo + (child.end - child.start)] == Expand(Runs(Rows(t, tree.nLevels), PrefixOf(f) + [b], tree.nLevels))
    ensures out[..lo] == old(out[..lo])
    ensures out[lo + (child.end - child.start)..] == old(out[lo + (child.end - child.start)..])
    decreases tree.nLevels - f.level, 0
  {
    hide QWaveletTree.Indexes, FrameOk, RowsOk, Runs, SymbolWord, Level, Rows, Expand;
    ghost var w, x, n := Rows(s, tree.nLevels), Rows(t, tree.nLevels), tree.nLevels;
    ChildPiece(w, x, n, f, b, child);
    var cnt := child.end - child.start;
    if cnt == 0 {
      assert out[lo..lo] == [];
    } else if child.level == tree.nLevels {
      LeafRun(w, x, n, child);
      RunExpand(child.bitPath, cnt);
      Fill(out, lo, cnt, child.bitPath);
    } else {
      SortedRec(tree, s, t, child, out, lo);
    }
  }

  lemma RunExpand(c: int, k: nat)
    ensures Expand([Run(c, k)]) == Repeat(c, k)
  {
    assert Expand([]) == [];
  }

  method Fill(out: array<int>, lo: nat, k: nat, c: int)
    requires lo + k <= out.Length
    modifies out
    ensures out[lo..lo + k] == Repeat(c, k) && out[..lo] == old(out[..lo]) && out[lo + k..] == old(out[lo + k..])
  {
    var i := 0;
    while i < k
      invariant 0 <= i <= k
      invariant out[lo..lo + i] == Repeat(c, i)
      invariant out[..lo] == old(out[..lo]) && out[lo + k..] == old(out[lo + k..])
    {
      ghost var was := out[lo..lo + i];
      out[lo + i] := c;
      i := i + 1;
      assert out[lo..lo + i] == was + [c];
    }
  }

  /** How much room is left for child `b`. */
  lemma WrittenLength(x: seq<Word>, p: Word, n: nat, b: nat, done: seq<int>)
    requires |p| < n && b < 4 && WrittenSoFar(x, p, n, b, done)
    ensures |done| + |Expand(Runs(x, p + [b], n))| <= |Expand(Runs(x, p, n))|
  {
    hide Runs, Expand;
    ExpandConcat(Runs(x, p + [b], n), RunsFrom(x, p, n, b + 1));
  }

  lemma SingleExpand(c: int)
    ensures Expand([Run(c, 1)]) == [c]
  {
    assert Expand([]) == [];
  }

  /** The symbols of `[start, end)` in ascending order; nothing for a range that is empty or out of bounds. */
  method ExtractRange(tree: QWaveletTree, ghost s: seq<nat>, start: nat, end: nat) returns (r: array<int>)
    requires tree.Represents(s) && tree.nLevels <= 32
    ensures fresh(r)
    ensures start < end <= |s| ==> SortedCopy(r[..], s[start..end])
    ensures !(start < end <= |s|) ==> r[..] == []
  {
    hide QWaveletTree.Indexes, SortedCopy, RowsOk, FrameOk, Runs, DistinctRuns;
    tree.NoLevels(s);
    if start >= end || end > tree.n || tree.nLevels == 0 {
      return new int[0];
    }
    ghost var t, n, f := s[start..end], tree.nLevels, Frame(start, end, 0, 0);
    RootExtract(tree, s, start, end);
    r := new int[end - start](_ => 0);
    SortedRec(tree, s, t, Frame(start, end, 0, 0), r, 0);
    assert r[0..0 + (end - start)] == r[..];
    ExpandSorts(Runs(Rows(t, n), PrefixOf(f), n), t);
  }

  lemma RootExtract(tree: QWaveletTree, s: seq<nat>, start: nat, end: nat)
    requires tree.Indexes(s) && tree.nLevels <= 32 && start < end <= |s|
    ensures var n, t, f := tree.nLevels, s[start..end], Frame(start, end, 0, 0);
      && n > 0 && RowsOk(Rows(s, n), Rows(t, n), n) && FrameOk(Rows(s, n), Rows(t, n), n, f)
      && DistinctRuns(Runs(Rows(t, n), PrefixOf(f), n), t) && Total(Runs(Rows(t, n), PrefixOf(f), n)) == |t|
  {
    hide QWaveletTree.Indexes, WithPrefix, Runs, SymbolWord, Level;
    tree.Shape(s);
    RootFrame(s, tree.nLevels, start, end);
    var n, t, f := tree.nLevels, s[start..end], Frame(start, end, 0, 0);
    assert AllOk(Rows(s, n), Rows(t, n), n, [f]);
    assert [f][0] == f;
    assert PrefixOf(f) == [];
    RunsOfWindow(t, n);
  }

  // ---- Distinct extraction ----

  lemma SymbolsConcat(a: seq<Run>, b: seq<Run>)
    ensures SymbolsOf(a + b) == SymbolsOf(a) + SymbolsOf(b)
  {}

  ghost predicate EmittedSoFar(x: seq<Word>, p: Word, n: nat, b: nat, was: seq<int>, now: seq<int>)
    requires |p| < n && b <= 4
  {
    now + SymbolsOf(RunsFrom(x, p, n, b)) == was + SymbolsOf(Runs(x, p, n))
  }

  lemma EmitStart(x: seq<Word>, p: Word, n: nat, was: seq<int>)
    requires |p| < n && |WithPrefix(x, p)| > 0
    ensures EmittedSoFar(x, p, n, 0, was, was)
  {
    RunsOfChildren(x, p, n);
  }

  lemma EmitNext(x: seq<Word>, p: Word, n: nat, b: nat, was: seq<int>, now: seq<int>)
    requires |p| < n && b < 4 && EmittedSoFar(x, p, n, b, was, now)
    ensures EmittedSoFar(x, p, n, b + 1, was, now + SymbolsOf(Runs(x, p + [b], n)))
  {
    hide Runs;
    SymbolsConcat(Runs(x, p + [b], n), RunsFrom(x, p, n, b + 1));
    assert (now + SymbolsOf(Runs(x, p + [b], n))) + SymbolsOf(RunsFrom(x, p, n, b + 1))
        == now + (SymbolsOf(Runs(x, p + [b], n)) + SymbolsOf(RunsFrom(x, p, n, b + 1)));
  }

  lemma EmitEnd(x: seq<Word>, p: Word, n: nat, was: seq<int>, now: seq<int>)
    requires |p| < n && EmittedSoFar(x, p, n, 4, was, now)
    ensures now == was + SymbolsOf(Runs(x, p, n))
  {
    assert SymbolsOf([]) == [];
    assert now + [] == now;
  }

  method DistinctRec(tree: QWaveletTree, ghost s: seq<nat>, ghost t: seq<nat>, f: Frame, out: seq<int>) returns (r: seq<int>)
    requires tree.Indexes(s) && RowsOk(Rows(s, tree.nLevels), Rows(t, tree.nLevels), tree.nLevels)
    requires FrameOk(Rows(s, tree.nLevels), Rows(t, tree.nLevels), tree.nLevels, f) && f.level < tree.nLevels
    ensures r == out + SymbolsOf(Runs(Rows(t, tree.nLevels), PrefixOf(f), tree.nLevels))
    decreases tree.nLevels - f.level, 1
  {
    hide QWaveletTree.Indexes, FrameOk, RowsOk, Runs, SymbolWord, Level, RSQVector.Valid, RSQVector.Contents, Rows, SymbolsOf, EmittedSoFar, IsChild, WithPrefix, Rank;
    ghost var w, x, n := Rows(s, tree.nLevels), Rows(t, tree.nLevels), tree.nLevels;
    ghost var p := PrefixOf(f);
    PieceLength(w, x, n, f);
    if f.end - f.start == 1 {
      var symbol := ExtractSingletonFrom(tree, s, t, f);
      return out + SymbolsOf([Run(symbol, 1)]);
    }
    FrameLevel(tree, s, x, f);
    SingleRange(w, x, n, f);
    var ranksS := tree.qvs[f.level].RankAllUnchecked(f.start);
    var ranksE := tree.qvs[f.level].RankAllUnchecked(f.end);
    EmitStart(x, p, n, out);
    r := out;
    var b: nat := 0;
    while b < 4
      invariant 0 <= b <= 4 && EmittedSoFar(x, p, n, b, out, r)
    {
      var child := ChildOfRanks(tree.qvs[f.level], w, x, n, f, b, ranksS[b], ranksE[b]);
      EmitNext(x, p, n, b, out, r);
      r := DistinctChild(tree, s, t, f, b, child, r);
      b := b + 1;
    }
    EmitEnd(x, p, n, out, r);
  }

  method DistinctChild(tree: QWaveletTree, ghost s: seq<nat>, ghost t: seq<nat>, ghost f: Frame, ghost b: nat, child: Frame, out: seq<int>)
    returns (r: seq<int>)
    requires tree.Indexes(s) && RowsOk(Rows(s, tree.nLevels), Rows(t, tree.nLevels), tree.nLevels)
    requires FrameOk(Rows(s, tree.nLevels), Rows(t, tree.nLevels), tree.nLevels, f) && f.level < tree.nLevels
    requires b < 4 && IsChild(Rows(s, tree.nLevels), f, b, child)
    ensures r == out + SymbolsOf(Runs(Rows(t, tree.nLevels), PrefixOf(f) + [b], tree.nLevels))
    decreases tree.nLevels - f.level, 0
  {
    hide QWaveletTree.Indexes, FrameOk, RowsOk, Runs, SymbolWord, Level, Rows;
    ChildPiece(Rows(s, tree.nLevels), Rows(t, tree.nLevels), tree.nLevels, f, b, child);
    if child.start == child.end {
      r := out;
      assert SymbolsOf([]) == [];
    } else if child.level == tree.nLevels {
      LeafRun(Rows(s, tree.nLevels), Rows(t, tree.nLevels), tree.nLevels, child);
      r := out + [child.bitPath];
    } else {
      r := DistinctRec(tree, s, t, child, out);
    }
  }

  /** The distinct symbols of `[start, end)` in ascending order. */
  method ExtractRangeDistinct(tree: QWaveletTree, ghost s: seq<nat>, start: nat, end: nat) returns (r: seq<int>)
    requires tree.Represents(s) && tree.nLevels <= 32
    ensures start < end <= |s| ==> SortedSet(r, s[start..end])
    ensures !(start < end <= |s|) ==> r == []
  {
    hide QWaveletTree.Indexes, SortedSet, RowsOk, FrameOk, Runs, DistinctRuns;
    tree.NoLevels(s);
    if start >= end || end > tree.n || tree.nLevels == 0 {
      return [];
    }
    ghost var t, n, f := s[start..end], tree.nLevels, Frame(start, end, 0, 0);
    RootExtract(tree, s, start, end);
    r := DistinctRec(tree, s, t, Frame(start, end, 0, 0), []);
    assert r == SymbolsOf(Runs(Rows(t, n), PrefixOf(f), n));
    SymbolsSort(Runs(Rows(t, n), PrefixOf(f), n), t);
  }
}
