/** Frames of the depth-first walks over a range of rows, and their stacks. */
module RangeFrames {
  import opened RankSelect
  import opened StablePartition
  import opened Arithmetic
  import opened Words
  import opened WaveletMatrix
  import opened CraftCodes
  import opened RSQVectors
  import opened SymbolWords
  import opened LevelSteps
  import opened RangeRuns

  /** Rows `[start, end)` of a level, below the prefix whose value is `bitPath`. */
  datatype Frame = Frame(start: nat, end: nat, level: nat, bitPath: nat)

  ghost function PrefixOf(f: Frame): (p: Word)
    ensures |p| == f.level && Quaternary(p)
  {
    SymbolWord(f.bitPath, f.level)
  }

  /** The frame holds the rows of the window `x` below its prefix, and there are some. */
  ghost predicate FrameOk(w: seq<Word>, x: seq<Word>, n: nat, f: Frame) {
    && f.level <= n && f.bitPath < Pow4(f.level)
    && f.start < f.end && f.end - f.start == |WithPrefix(x, PrefixOf(f))|
    && (f.level < n ==> Holds(Level(w, f.level), x, PrefixOf(f), f.start, f.end))
  }

  /** What all walks need to know about the rows. */
  ghost predicate RowsOk(w: seq<Word>, x: seq<Word>, n: nat) {
    && n <= 32
    && Deep(w, 0) && AllQuaternary(w) && Uniform(w, n)
    && AllQuaternary(x) && Uniform(x, n)
  }

  /** `(path << 2) | digit` in 64 bits. */
  function PushDigit(path: nat, digit: nat): (r: nat)
    requires digit < 4
    ensures path < Pow4(31) ==> r == 4 * path + digit
  {
    Pow4ThirtyOne();
    ShiftIn(path % 0x4000_0000_0000_0000, digit)
  }

  lemma Pow4ThirtyOne()
    ensures Pow4(31) == 0x4000_0000_0000_0000 && Pow4(32) == 0x1_0000_0000_0000_0000
  {
    assert Pow4(2) == 16;
    Pow4Add(2, 2);
    Pow4Add(4, 4);
    Pow4Add(8, 8);
    Pow4Add(16, 16);
    assert Pow4(32) == 4 * Pow4(31);
  }

  lemma PathRoom(f: Frame, n: nat)
    requires f.level < n <= 32 && f.bitPath < Pow4(f.level)
    ensures f.bitPath < Pow4(31) && 4 * f.bitPath + 4 <= Pow4(f.level + 1)
  {
    Pow4Monotone(f.level, 31);
  }

  // ---- From a frame to its children ----

  lemma ChildPrefix(path: nat, level: nat, b: nat)
    requires b < 4
    ensures SymbolWord(4 * path + b, level + 1) == SymbolWord(path, level) + [b]
  {
    SymbolWordSplit(4 * path + b, level + 1);
    var w := SymbolWord(4 * path + b, level + 1);
    assert (4 * path + b) / 4 == path && (4 * path + b) % 4 == b;
    assert w == w[..level] + [w[level]];
  }

  ghost predicate IsChild(w: seq<Word>, f: Frame, b: nat, next: Frame)
    requires b < 4
  {
    var k := Digits(Level(w, f.level), f.level);
    && f.start <= f.end <= |k|
    && next == Frame(Child(k, b, f.start), Child(k, b, f.end), f.level + 1, 4 * f.bitPath + b)
  }

  lemma ChildFrame(w: seq<Word>, x: seq<Word>, n: nat, f: Frame, b: nat, next: Frame)
    requires RowsOk(w, x, n) && FrameOk(w, x, n, f) && f.level < n && b < 4 && IsChild(w, f, b, next)
    ensures PrefixOf(next) == PrefixOf(f) + [b]
    ensures next.start <= next.end && next.end - next.start == |WithPrefix(x, PrefixOf(f) + [b])|
    ensures next.start < next.end ==> FrameOk(w, x, n, next)
  {
    hide Level, Sorted, WithPrefix, Child, SymbolWord;
    var v := Level(w, f.level);
    UniformLevel(w, n, f.level);
    ChildPrefix(f.bitPath, f.level, b);
    NodeStep(v, x, PrefixOf(f), b, f.start, f.end);
    UniformAligned(w, n, f.level);
    PathRoom(f, n);
  }

  /** Child `b` of a frame, by two single ranks. */
  method Branch(q: RSQVector, ghost w: seq<Word>, ghost x: seq<Word>, ghost n: nat, f: Frame, b: nat) returns (next: Frame)
    requires RowsOk(w, x, n) && FrameOk(w, x, n, f) && f.level < n && b < 4
    requires Stores(q, Level(w, f.level), f.level)
    ensures IsChild(w, f, b, next)
  {
    hide RSQVector.Valid, RSQVector.Contents, Level, WithPrefix, SymbolWord, Rank, OccsBelow;
    PathRoom(f, n);
    var lo := q.RankUnchecked(b, f.start);
    var hi := q.RankUnchecked(b, f.end);
    var offset := q.OccsSmallerUnchecked(b);
    next := Frame(offset + lo, offset + hi, f.level + 1, PushDigit(f.bitPath, b));
  }

  // ---- Stacks ----

  ghost predicate AllOk(w: seq<Word>, x: seq<Word>, n: nat, stack: seq<Frame>) {
    forall i :: 0 <= i < |stack| ==> FrameOk(w, x, n, stack[i])
  }

  /** At most three frames wait above every level, which bounds the stack. */
  ghost predicate Shallow(stack: seq<Frame>) {
    forall i :: 0 <= i < |stack| ==> i <= 3 * stack[i].level
  }

  lemma StackBound(w: seq<Word>, x: seq<Word>, n: nat, stack: seq<Frame>)
    requires AllOk(w, x, n, stack) && Shallow(stack)
    ensures |stack| <= 3 * n + 1
  {
    if |stack| > 0 {
      assert FrameOk(w, x, n, stack[|stack| - 1]);
    }
  }

  /** What a walk has still to list: the frames from the top down. */
  ghost function Rest(x: seq<Word>, n: nat, stack: seq<Frame>): seq<Run> {
    if |stack| == 0 then [] else Runs(x, PrefixOf(stack[|stack| - 1]), n) + Rest(x, n, stack[..|stack| - 1])
  }

  lemma RestPush(x: seq<Word>, n: nat, stack: seq<Frame>, f: Frame)
    ensures Rest(x, n, stack + [f]) == Runs(x, PrefixOf(f), n) + Rest(x, n, stack)
  {
    assert (stack + [f])[..|stack|] == stack;
  }

  lemma NoRows(x: seq<Word>, p: Word, n: nat)
    requires |WithPrefix(x, p)| == 0
    ensures Runs(x, p, n) == []
  {}

  lemma RunsOfChildren(x: seq<Word>, p: Word, n: nat)
    requires |WithPrefix(x, p)| > 0 && |p| < n
    ensures Runs(x, p, n) == RunsFrom(x, p, n, 0)
  {}

  lemma RunsSomething(x: seq<Word>, p: Word, n: nat)
    requires Uniform(x, n) && AllQuaternary(x) && |p| <= n && |WithPrefix(x, p)| > 0
    ensures |Runs(x, p, n)| > 0
  {
    RunsTotal(x, p, n);
  }

  lemma LeafRun(w: seq<Word>, x: seq<Word>, n: nat, f: Frame)
    requires FrameOk(w, x, n, f) && f.level == n
    ensures f.start < f.end && Runs(x, PrefixOf(f), n) == [Run(f.bitPath, f.end - f.start)]
  {
    hide WithPrefix, Value;
    ValueOfSymbol(f.bitPath, f.level);
  }

  /** The root frame stands for the whole window. */
  lemma RootFrame(s: seq<nat>, n: nat, start: nat, end: nat)
    requires 0 < n <= 32 && Below(s, Pow4(n)) && start < end <= |s|
    ensures var w, x, f := Rows(s, n), Rows(s[start..end], n), Frame(start, end, 0, 0);
      && RowsOk(w, x, n) && AllOk(w, x, n, [f]) && Shallow([f])
      && Rest(x, n, [f]) == Runs(x, [], n) && DistinctRuns(Runs(x, [], n), s[start..end])
  {
    hide WithPrefix, SymbolWord, Runs, Pow4;
    var w, x, f := Rows(s, n), Rows(s[start..end], n), Frame(start, end, 0, 0);
    RowsShape(s, n);
    RowsShape(s[start..end], n);
    assert x == w[start..end];
    WithEmptyPrefix(x);
    LevelZero(w);
    assert PrefixOf(f) == [];
    PowZero();
    RestPush(x, n, [], f);
    RunsOfWindow(s[start..end], n);
    assert [] + [f] == [f];
  }

  lemma PowZero()
    ensures Pow4(0) == 1
  {}

  /** Counting a window is the difference of two ranks. */
  lemma RunsAreRankDifferences(s: seq<nat>, start: nat, end: nat, runs: seq<Run>, i: nat)
    requires start <= end <= |s| && DistinctRuns(runs, s[start..end]) && i < |runs|
    ensures runs[i].count == Rank<int>(s, runs[i].symbol, end) - Rank<int>(s, runs[i].symbol, start) > 0
  {
    var t, c := s[start..end], runs[i].symbol;
    RankSlice<int>(s, c, start, end);
    var j :| 0 <= j < |t| && t[j] == c;
    RankStrict<int>(t, c, j, |t|);
  }
}
