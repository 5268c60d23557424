/**
 The least symbol of a range that is not below a target: a walk that enters no
 child wholly below the target. Interval bounds are 64-bit sums, so at 32 levels
 the upper end of the last quarter of the alphabet wraps to zero and the walk
 never enters it.
 */
module RangeNext {
  import opened Wrappers
  import opened RankSelect
  import opened StablePartition
  import opened Arithmetic
  import opened Words
  import opened WaveletMatrix
  import opened CraftCodes
  import opened RSQVectors
  import opened SymbolWords
  import opened LevelSteps
  import opened QuadWavelet
  import opened RangeRuns
  import opened RangeFrames
  import opened RangeIterators
  import opened RangeDistinct

  const WORD: nat := 0x1_0000_0000_0000_0000

  /** Symbols at or above this bound are never reached. */
  ghost function Reach(n: nat): nat {
    if n >= 32 then 3 * Pow4(31) else Pow4(n)
  }

  /** The least element of `t` that is at least `target` and below `bound`, or nothing when there is none. */
  ghost predicate SuccessorBelow(t: seq<nat>, target: nat, bound: nat, r: Option<nat>) {
    match r
    case Some(c) => c in t && target <= c < bound && forall d :: d in t && target <= d < bound ==> c <= d
    case None => forall d :: d in t && target <= d ==> d >= bound
  }

  /** What the query promises: the least element of `t` that is at least `target`. */
  ghost predicate Successor(t: seq<nat>, target: nat, r: Option<nat>) {
    match r
    case Some(c) => c in t && target <= c && forall d :: d in t && target <= d ==> c <= d
    case None => forall d :: d in t ==> d < target
  }

  // ---- Runs at or above the target ----

  /** First run of `runs` with a symbol of at least `target` and below `bound`. */
  ghost function FirstFrom(runs: seq<Run>, target: int, bound: int): Option<Run> {
    if runs == [] then None
    else if target <= runs[0].symbol < bound then Some(runs[0])
    else FirstFrom(runs[1..], target, bound)
  }

  lemma {:induction false} FirstFromConcat(a: seq<Run>, b: seq<Run>, target: int, bound: int)
    ensures FirstFrom(a + b, target, bound) ==
      if FirstFrom(a, target, bound).Some? then FirstFrom(a, target, bound) else FirstFrom(b, target, bound)
  {
    if a == [] {
      assert a + b == b;
    } else {
      FirstFromConcat(a[1..], b, target, bound);
      assert (a + b)[1..] == a[1..] + b;
    }
  }

  lemma {:induction false} FirstFromNone(runs: seq<Run>, lo: int, hi: int, target: int, bound: int)
    requires Within(runs, lo, hi) && (hi <= target || bound <= lo)
    ensures FirstFrom(runs, target, bound) == None
  {
    if runs != [] {
      FirstFromNone(runs[1..], lo, hi, target, bound);
    }
  }

  lemma {:induction false} FirstFromLeast(runs: seq<Run>, target: int, bound: int)
    requires Strict(runs)
    ensures match FirstFrom(runs, target, bound)
      case Some(f) => (exists i :: 0 <= i < |runs| && runs[i] == f) && target <= f.symbol < bound
        && forall i :: 0 <= i < |runs| && target <= runs[i].symbol < bound ==> f.symbol <= runs[i].symbol
      case None => forall i :: 0 <= i < |runs| ==> !(target <= runs[i].symbol < bound)
  {
    if runs != [] && !(target <= runs[0].symbol < bound) {
      FirstFromLeast(runs[1..], target, bound);
      var f := FirstFrom(runs[1..], target, bound);
      if f.Some? {
        var i :| 0 <= i < |runs[1..]| && runs[1..][i] == f.value;
        assert runs[i + 1] == f.value;
      }
      assert forall i :: 1 <= i < |runs| ==> runs[i] == runs[1..][i - 1];
    }
  }

  /** The first run from the target on is the answer. */
  lemma FirstIsSuccessor(runs: seq<Run>, t: seq<nat>, target: nat, bound: nat, r: Option<nat>)
    requires DistinctRuns(runs, t)
    requires match FirstFrom(runs, target, bound) case Some(f) => r.Some? && r.value == f.symbol case None => r.None?
    ensures SuccessorBelow(t, target, bound, r)
  {
    FirstFromLeast(runs, target, bound);
    if r.Some? {
      forall d | d in t && target <= d < bound
        ensures r.value <= d
      {
        var i :| 0 <= i < |runs| && runs[i].symbol == d;
      }
    } else {
      forall d | d in t && target <= d
        ensures d >= bound
      {
        var i :| 0 <= i < |runs| && runs[i].symbol == d;
      }
    }
  }

  // ---- Frames against the target ----

  /** Lower end of the symbol interval of a frame, and its width. */
  ghost function Low(f: Frame, n: nat): nat
    requires f.level <= n
  {
    f.bitPath * Pow4(n - f.level)
  }

  ghost predicate Above(f: Frame, n: nat, target: nat) {
    f.level <= n && target <= Low(f, n)
  }

  /** Below the root: not wholly below the target, and in the part of the alphabet that can be entered. */
  ghost predicate Entered(f: Frame, n: nat, target: nat) {
    && f.level <= n
    && (f.level > 0 ==> target < Low(f, n) + Pow4(n - f.level) <= Reach(n))
  }

  /**
   How many frames may still be popped: a frame that straddles the target may fail,
   one at or above it leads straight to a leaf.
   */
  ghost function Potential(stack: seq<Frame>, n: nat, target: nat): int {
    if |stack| == 0 then 0
    else
      var top := stack[|stack| - 1];
      n + 1 - top.level + if Above(top, n, target) then 0 else n
  }

  /** Only the top of the stack may straddle the target. */
  ghost predicate TargetOk(stack: seq<Frame>, n: nat, target: nat) {
    && (forall i :: 0 <= i < |stack| ==> Entered(stack[i], n, target))
    && forall i :: 0 <= i < |stack| - 1 ==> Above(stack[i], n, target)
  }

  lemma LowOfChild(f: Frame, n: nat, b: nat, next: Frame)
    requires f.level < n && b < 4 && next.level == f.level + 1 && next.bitPath == 4 * f.bitPath + b
    ensures Low(next, n) == Low(f, n) + b * Pow4(n - f.level - 1)
    ensures Low(f, n) + Pow4(n - f.level) == Low(f, n) + 4 * Pow4(n - f.level - 1)
  {
    var m := Pow4(n - f.level - 1);
    assert f.bitPath * (4 * m) == (4 * f.bitPath) * m by { MulAssociates(f.bitPath, 4, m); }
    assert (4 * f.bitPath + b) * m == (4 * f.bitPath) * m + b * m;
  }

  /** The interval of a frame stays inside the alphabet. */
  lemma FrameInside(f: Frame, n: nat)
    requires f.level <= n <= 32 && f.bitPath < Pow4(f.level)
    ensures Low(f, n) + Pow4(n - f.level) <= Pow4(n) <= WORD
  {
    Pow4Add(f.level, n - f.level);
    MulGap(f.bitPath, Pow4(f.level), Pow4(n - f.level));
    Pow4ThirtyOne();
    Pow4Monotone(n, 32);
  }

  /** The 64-bit upper end of a child: exact, except for the last quarter at 32 levels. */
  lemma ChildEnd(f: Frame, n: nat, b: nat, next: Frame)
    requires f.level < n <= 32 && f.bitPath < Pow4(f.level) && b < 4
    requires next.level == f.level + 1 && next.bitPath == 4 * f.bitPath + b
    requires f.level > 0 ==> Low(f, n) + Pow4(n - f.level) <= Reach(n)
    ensures var hi := Low(next, n) + Pow4(n - next.level);
      && hi <= WORD && (hi <= Reach(n) <==> hi % WORD != 0) && (hi > Reach(n) ==> Low(next, n) >= Reach(n))
      && (hi % WORD == if hi == WORD then 0 else hi)
  {
    hide Pow4, Low;
    PathRoom(f, n);
    FrameInside(next, n);
    Pow4ThirtyOne();
    LowOfChild(f, n, b, next);
    var m := Pow4(n - next.level);
    Positive(n - next.level);
    InsideParent(b, m);
    if n == 32 && f.level == 0 {
      RootLow(f, n);
      assert m == Pow4(31);
    } else if n < 32 {
      Pow4Monotone(n, 31);
    }
  }

  lemma RootLow(f: Frame, n: nat)
    requires f.level == 0 && f.bitPath < Pow4(0)
    ensures Low(f, n) == 0
  {
    PowZero();
  }

  lemma Positive(k: nat)
    ensures Pow4(k) > 0
  {}

  // ---- Frames as the walk stores them ----

  datatype SymFrame = SymFrame(start: nat, end: nat, level: nat, symLo: nat, logWidth: nat)

  ghost predicate Stored(f: SymFrame, g: Frame, n: nat) {
    g.level <= n && f == SymFrame(g.start, g.end, g.level, Low(g, n), 2 * (n - g.level))
  }

  ghost predicate AllStored(fs: seq<SymFrame>, gs: seq<Frame>, n: nat) {
    |fs| == |gs| && forall i :: 0 <= i < |fs| ==> Stored(fs[i], gs[i], n)
  }

  // ---- The viable children of a frame ----

  /** In ascending order, so that at most the first straddles the target. */
  ghost predicate InPlace(w: seq<Word>, x: seq<Word>, n: nat, cur: Frame, target: nat, b: nat, gs: seq<Frame>)
    requires cur.level < n && b <= 4
  {
    && AllOk(w, x, n, gs) && |gs| <= b
    && (forall i :: 0 <= i < |gs| ==> gs[i].level == cur.level + 1 && Entered(gs[i], n, target))
    && (forall i :: 0 < i < |gs| ==> Above(gs[i], n, target))
    && (|gs| > 0 ==> target < Low(cur, n) + b * Pow4(n - cur.level - 1))
    && (Above(cur, n, target) ==> forall i :: 0 <= i < |gs| ==> Above(gs[i], n, target))
  }

  /** Dropping the other children among the first `b` loses no answer. */
  ghost predicate Searched(x: seq<Word>, n: nat, cur: Frame, target: nat, b: nat, gs: seq<Frame>)
    requires cur.level < n && b <= 4
  {
    && FirstFrom(Listed(x, n, gs) + RunsFrom(x, PrefixOf(cur), n, b), target, Reach(n))
       == FirstFrom(RunsFrom(x, PrefixOf(cur), n, 0), target, Reach(n))
    && (|gs| == 0 && Above(cur, n, target) && cur.level > 0 ==> RowsFrom(x, PrefixOf(cur), b) == RowsFrom(x, PrefixOf(cur), 0))
  }

  ghost predicate Viable(w: seq<Word>, x: seq<Word>, n: nat, cur: Frame, target: nat, b: nat, gs: seq<Frame>)
    requires cur.level < n && b <= 4
  {
    InPlace(w, x, n, cur, target, b, gs) && Searched(x, n, cur, target, b, gs)
  }

  lemma ViableNone(w: seq<Word>, x: seq<Word>, n: nat, cur: Frame, target: nat)
    requires cur.level < n
    ensures Viable(w, x, n, cur, target, 0, [])
  {
    assert Listed(x, n, []) + RunsFrom(x, PrefixOf(cur), n, 0) == RunsFrom(x, PrefixOf(cur), n, 0);
  }

  /** The symbols below a prefix lie in its interval. */
  lemma PrefixRuns(x: seq<Word>, f: Frame, n: nat)
    requires AllQuaternary(x) && Uniform(x, n) && f.level <= n <= 32 && f.bitPath < Pow4(f.level)
    ensures Within(Runs(x, PrefixOf(f), n), Low(f, n), Low(f, n) + Pow4(n - f.level))
  {
    hide Runs, Pow4;
    RunsShape(x, PrefixOf(f), n);
    ValueOfSymbol(f.bitPath, f.level);
    assert (f.bitPath + 1) * Pow4(n - f.level) == f.bitPath * Pow4(n - f.level) + Pow4(n - f.level);
  }

  /** The symbols below a child lie in its interval. */
  lemma ChildRuns(w: seq<Word>, x: seq<Word>, n: nat, cur: Frame, b: nat, next: Frame)
    requires RowsOk(w, x, n) && FrameOk(w, x, n, cur) && cur.level < n && b < 4 && IsChild(w, cur, b, next)
    ensures Within(Runs(x, PrefixOf(cur) + [b], n), Low(next, n), Low(next, n) + Pow4(n - next.level))
    ensures next.level == cur.level + 1 && next.bitPath == 4 * cur.bitPath + b
  {
    hide WithPrefix, Runs, SymbolWord, Level, Pow4;
    ChildLevelPath(w, cur, b, next);
    assert PrefixOf(next) == PrefixOf(cur) + [b] by {
      ChildFrame(w, x, n, cur, b, next);
    }
    PathRoom(cur, n);
    PrefixRuns(x, next, n);
  }

  lemma ChildLevelPath(w: seq<Word>, f: Frame, b: nat, next: Frame)
    requires b < 4 && IsChild(w, f, b, next)
    ensures next.level == f.level + 1 && next.bitPath == 4 * f.bitPath + b
  {}

  /** A child of which nothing can be the answer drops out of the search. */
  lemma SkipRuns(x: seq<Word>, n: nat, p: Word, b: nat, gs: seq<Frame>, target: int, bound: int)
    requires |p| < n && b < 4
    requires FirstFrom(Runs(x, p + [b], n), target, bound) == None
    ensures FirstFrom(Listed(x, n, gs) + RunsFrom(x, p, n, b), target, bound)
         == FirstFrom(Listed(x, n, gs) + RunsFrom(x, p, n, b + 1), target, bound)
  {
    hide Runs;
    FirstFromConcat(Listed(x, n, gs), RunsFrom(x, p, n, b), target, bound);
    FirstFromConcat(Listed(x, n, gs), RunsFrom(x, p, n, b + 1), target, bound);
    FirstFromConcat(Runs(x, p + [b], n), RunsFrom(x, p, n, b + 1), target, bound);
  }

  /** Upper end of child `b`, as the query computes it. */
  ghost function EndOfChild(symLo: nat, b: nat, width: nat): nat {
    (symLo + b * width + width) % WORD
  }

  /** A child that ends at or below the target, or past the last reachable symbol. */
  lemma ViableSkip(w: seq<Word>, x: seq<Word>, n: nat, cur: Frame, target: nat, b: nat, gs: seq<Frame>, next: Frame)
    requires RowsOk(w, x, n) && FrameOk(w, x, n, cur) && cur.level < n && b < 4 && IsChild(w, cur, b, next)
    requires Entered(cur, n, target) && Viable(w, x, n, cur, target, b, gs)
    requires EndOfChild(Low(cur, n), b, Pow4(n - cur.level - 1)) <= target
    ensures Viable(w, x, n, cur, target, b + 1, gs)
  {
    hide FrameOk, WithPrefix, Runs, SymbolWord, Level, IsChild, Reach, Pow4, InPlace, Searched;
    var m := Pow4(n - cur.level - 1);
    ChildRuns(w, x, n, cur, b, next);
    TopLevelPath(w, x, n, cur);
    LowOfChild(cur, n, b, next);
    ChildEnd(cur, n, b, next);
    Positive(n - cur.level - 1);
    InsideParent(b, m);
    FirstFromNone(Runs(x, PrefixOf(cur) + [b], n), Low(next, n), Low(next, n) + m, target, Reach(n));
    EmptyInPlace(w, x, n, cur, target, b, gs);
    SkipSearched(x, n, cur, target, b, gs);
  }

  lemma SkipSearched(x: seq<Word>, n: nat, cur: Frame, target: nat, b: nat, gs: seq<Frame>)
    requires cur.level < n && b < 4 && Searched(x, n, cur, target, b, gs)
    requires FirstFrom(Runs(x, PrefixOf(cur) + [b], n), target, Reach(n)) == None
    requires !(Above(cur, n, target) && cur.level > 0)
    ensures Searched(x, n, cur, target, b + 1, gs)
  {
    hide Runs, Above, Reach, FirstFrom, Listed, SymbolWord, WithPrefix;
    SkipRuns(x, n, PrefixOf(cur), b, gs, target, Reach(n));
  }

  lemma InsideParent(b: nat, m: nat)
    requires b < 4
    ensures 0 <= b * m && b * m + m <= 4 * m
  {
    MulGap(b, 4, m);
  }

  lemma TopLevelPath(w: seq<Word>, x: seq<Word>, n: nat, f: Frame)
    requires FrameOk(w, x, n, f)
    ensures f.level <= n && f.start < f.end && f.bitPath < Pow4(f.level)
  {}

  lemma ViableOther(w: seq<Word>, x: seq<Word>, n: nat, cur: Frame, target: nat, b: nat, gs: seq<Frame>, next: Frame)
    requires RowsOk(w, x, n) && FrameOk(w, x, n, cur) && cur.level < n && b < 4 && IsChild(w, cur, b, next)
    requires Entered(cur, n, target) && Viable(w, x, n, cur, target, b, gs)
    requires EndOfChild(Low(cur, n), b, Pow4(n - cur.level - 1)) > target
    ensures next.start <= next.end
    ensures Viable(w, x, n, cur, target, b + 1, if next.end > next.start then gs + [next] else gs)
  {
    hide FrameOk, WithPrefix, Runs, SymbolWord, Level, IsChild, Reach, Pow4, InPlace, Searched;
    ChildFrame(w, x, n, cur, b, next);
    ChildRuns(w, x, n, cur, b, next);
    TopLevelPath(w, x, n, cur);
    LowOfChild(cur, n, b, next);
    ChildEnd(cur, n, b, next);
    if next.end > next.start {
      AddInPlace(w, x, n, cur, target, b, gs, next);
      AddSearched(x, n, cur, target, b, gs, next);
    } else {
      EmptyInPlace(w, x, n, cur, target, b, gs);
      EmptySearched(x, n, cur, target, b, gs);
    }
  }

  lemma AddInPlace(w: seq<Word>, x: seq<Word>, n: nat, cur: Frame, target: nat, b: nat, gs: seq<Frame>, next: Frame)
    requires cur.level < n && b < 4 && InPlace(w, x, n, cur, target, b, gs)
    requires FrameOk(w, x, n, next) && next.level == cur.level + 1
    requires Low(next, n) == Low(cur, n) + b * Pow4(n - cur.level - 1)
    requires target < Low(next, n) + Pow4(n - next.level) <= Reach(n)
    ensures InPlace(w, x, n, cur, target, b + 1, gs + [next])
  {
    hide FrameOk, Low, Reach, Pow4;
    var m := Pow4(n - cur.level - 1);
    assert (b + 1) * m == b * m + m;
    InsideParent(b, m);
  }

  lemma AddSearched(x: seq<Word>, n: nat, cur: Frame, target: nat, b: nat, gs: seq<Frame>, next: Frame)
    requires cur.level < n && b < 4 && Searched(x, n, cur, target, b, gs) && PrefixOf(next) == PrefixOf(cur) + [b]
    ensures Searched(x, n, cur, target, b + 1, gs + [next])
  {
    hide Runs, SymbolWord, WithPrefix, Low;
    ListedPush(x, n, gs, next);
    assert (Listed(x, n, gs) + Runs(x, PrefixOf(next), n)) + RunsFrom(x, PrefixOf(cur), n, b + 1)
        == Listed(x, n, gs) + (Runs(x, PrefixOf(next), n) + RunsFrom(x, PrefixOf(cur), n, b + 1));
  }

  lemma EmptyInPlace(w: seq<Word>, x: seq<Word>, n: nat, cur: Frame, target: nat, b: nat, gs: seq<Frame>)
    requires cur.level < n && b < 4 && InPlace(w, x, n, cur, target, b, gs)
    ensures InPlace(w, x, n, cur, target, b + 1, gs)
  {
    hide FrameOk, Low, Pow4;
    var m := Pow4(n - cur.level - 1);
    assert (b + 1) * m == b * m + m;
  }

  lemma EmptySearched(x: seq<Word>, n: nat, cur: Frame, target: nat, b: nat, gs: seq<Frame>)
    requires cur.level < n && b < 4 && Searched(x, n, cur, target, b, gs) && |WithPrefix(x, PrefixOf(cur) + [b])| == 0
    ensures Searched(x, n, cur, target, b + 1, gs)
  {
    hide Runs, SymbolWord, WithPrefix, Low;
    var p := PrefixOf(cur);
    NoRows(x, p + [b], n);
    assert RunsFrom(x, p, n, b) == Runs(x, p + [b], n) + RunsFrom(x, p, n, b + 1) == RunsFrom(x, p, n, b + 1);
    assert RowsFrom(x, p, b) == RowsFrom(x, p, b + 1);
  }

  lemma ViableAll(w: seq<Word>, x: seq<Word>, n: nat, cur: Frame, target: nat, gs: seq<Frame>)
    requires RowsOk(w, x, n) && FrameOk(w, x, n, cur) && cur.level < n && Viable(w, x, n, cur, target, 4, gs)
    ensures FirstFrom(Listed(x, n, gs), target, Reach(n)) == FirstFrom(Runs(x, PrefixOf(cur), n), target, Reach(n))
    ensures Above(cur, n, target) && cur.level > 0 ==> |gs| > 0
    ensures InPlace(w, x, n, cur, target, 4, gs)
    ensures AllOk(w, x, n, gs) && |gs| <= 4 && forall i :: 0 <= i < |gs| ==> gs[i].level == cur.level + 1
  {
    hide WithPrefix, SymbolWord, Runs;
    RunsOfChildren(x, PrefixOf(cur), n);
    RowsSplit(x, PrefixOf(cur), n);
    assert Listed(x, n, gs) + [] == Listed(x, n, gs);
  }

  /** One child: skipped unseen when it ends at or below the target. */
  method TryChild(q: RSQVector, ghost w: seq<Word>, ghost x: seq<Word>, ghost n: nat, ghost g: Frame, cur: SymFrame, target: nat,
                  childWidth: nat, b: nat, ghost gs: seq<Frame>)
    returns (r: Option<SymFrame>, ghost gs': seq<Frame>)
    requires RowsOk(w, x, n) && FrameOk(w, x, n, g) && g.level < n && Stores(q, Level(w, g.level), g.level) && b < 4
    requires Stored(cur, g, n) && Entered(g, n, target) && Viable(w, x, n, g, target, b, gs)
    requires childWidth == Pow4(n - g.level - 1)
    ensures Viable(w, x, n, g, target, b + 1, gs')
    ensures if r.None? then gs' == gs else |gs'| == |gs| + 1 && gs'[..|gs|] == gs && Stored(r.value, gs'[|gs|], n)
  {
    hide RSQVector.Valid, RSQVector.Contents, Level, WithPrefix, SymbolWord, Rank, OccsBelow, RowsOk, Viable, FrameOk, Entered, Pow4;
    var childSymLo := cur.symLo + b * childWidth;
    var childSymHi := (childSymLo + childWidth) % WORD;
    ghost var k := Digits(Level(w, g.level), g.level);
    FrameRange(w, x, n, g);
    ghost var next := Frame(Child(k, b, g.start), Child(k, b, g.end), g.level + 1, 4 * g.bitPath + b);
    if childSymHi <= target {
      ViableSkip(w, x, n, g, target, b, gs, next);
      return None, gs;
    }
    ViableOther(w, x, n, g, target, b, gs, next);
    LowOfChild(g, n, b, next);
    var lo := q.RankUnchecked(b, cur.start);
    var hi := q.RankUnchecked(b, cur.end);
    if hi > lo {
      var offset := q.OccsSmallerUnchecked(b);
      r := Some(SymFrame(offset + lo, offset + hi, cur.level + 1, childSymLo, cur.logWidth - 2));
      gs' := gs + [next];
    } else {
      r, gs' := None, gs;
    }
  }

  lemma FrameRange(w: seq<Word>, x: seq<Word>, n: nat, f: Frame)
    requires FrameOk(w, x, n, f) && f.level < n
    ensures f.start <= f.end <= |Level(w, f.level)|
  {}

  // ---- The walk ----

  /** Candidates in ascending order. */
  method ViableChildren(q: RSQVector, ghost w: seq<Word>, ghost x: seq<Word>, ghost n: nat, ghost g: Frame, cur: SymFrame, target: nat)
    returns (cands: seq<SymFrame>, ghost gs: seq<Frame>)
    requires RowsOk(w, x, n) && FrameOk(w, x, n, g) && g.level < n && Stores(q, Level(w, g.level), g.level)
    requires Stored(cur, g, n) && Entered(g, n, target)
    ensures AllStored(cands, gs, n) && |cands| == |gs| <= 4 && Viable(w, x, n, g, target, 4, gs)
  {
    hide Level, WithPrefix, RowsOk, Viable, FrameOk, Entered, Stored, Stores;
    var childWidth := WidthOf(cur.logWidth - 2, g, cur, n);
    cands, gs := [], [];
    ViableNone(w, x, n, g, target);
    var b: nat := 0;
    while b < 4
      invariant 0 <= b <= 4 && |cands| <= b && AllStored(cands, gs, n) && Viable(w, x, n, g, target, b, gs)
    {
      var cand, gs' := TryChild(q, w, x, n, g, cur, target, childWidth, b, gs);
      if cand.Some? {
        cands := cands + [cand.value];
      }
      gs := gs';
      b := b + 1;
    }
  }

  /** `1 << log`, for the width of a child. */
  function WidthOf(log: int, ghost g: Frame, ghost cur: SymFrame, ghost n: nat): (r: nat)
    requires Stored(cur, g, n) && g.level < n && log == cur.logWidth - 2
    ensures r == Pow4(n - g.level - 1)
  {
    Pow4(log / 2)
  }

  ghost function Reversed<T>(s: seq<T>): (r: seq<T>)
    ensures |r| == |s|
  {
    if s == [] then [] else Reversed(s[1..]) + [s[0]]
  }

  lemma {:induction false} ReversedAt<T>(s: seq<T>, i: nat)
    requires i < |s|
    ensures Reversed(s)[i] == s[|s| - 1 - i]
  {
    if i < |s| - 1 {
      ReversedAt(s[1..], i);
    }
  }

  lemma ReversedAll<T>(s: seq<T>)
    ensures forall i :: 0 <= i < |s| ==> Reversed(s)[i] == s[|s| - 1 - i]
  {
    forall i | 0 <= i < |s|
      ensures Reversed(s)[i] == s[|s| - 1 - i]
    {
      ReversedAt(s, i);
    }
  }

  lemma NoneListed(x: seq<Word>, n: nat)
    ensures Listed(x, n, []) == []
  {}

  lemma ListedFirst(x: seq<Word>, n: nat, cs: seq<Frame>)
    requires cs != []
    ensures Listed(x, n, cs) == Runs(x, PrefixOf(cs[0]), n) + Listed(x, n, cs[1..])
  {
    hide Runs;
  }

  lemma JoinLists<T>(a: seq<T>, b: seq<T>, c: seq<T>)
    ensures a + (b + c) == (a + b) + c
  {}

  lemma {:induction false} RestReversed(x: seq<Word>, n: nat, base: seq<Frame>, cs: seq<Frame>)
    ensures Rest(x, n, base + Reversed(cs)) == Listed(x, n, cs) + Rest(x, n, base)
  {
    hide Runs, Rest, Listed, PrefixOf;
    if cs == [] {
      NoneListed(x, n);
      assert base + Reversed(cs) == base;
    } else {
      RestReversed(x, n, base, cs[1..]);
      assert base + Reversed(cs) == (base + Reversed(cs[1..])) + [cs[0]];
      RestPush(x, n, base + Reversed(cs[1..]), cs[0]);
      ListedFirst(x, n, cs);
      hide Reversed;
      JoinLists(Runs(x, PrefixOf(cs[0]), n), Listed(x, n, cs[1..]), Rest(x, n, base));
    }
  }

  ghost predicate State(tree: QWaveletTree, s: seq<nat>, t: seq<nat>, target: nat, fs: seq<SymFrame>, gs: seq<Frame>) {
    AllStored(fs, gs, tree.nLevels) && WalkOk(tree, s, t, gs) && TargetOk(gs, tree.nLevels, target)
  }

  ghost function Goal(tree: QWaveletTree, t: seq<nat>, target: nat, gs: seq<Frame>): Option<Run> {
    FirstFrom(Listing(tree, t, gs), target, Reach(tree.nLevels))
  }

  /** Opening a frame: the answer stays the same and the potential drops. */
  lemma OpenFrame(tree: QWaveletTree, s: seq<nat>, t: seq<nat>, target: nat, gs: seq<Frame>, g: Frame, cs: seq<Frame>)
    requires |gs| > 0 && g == gs[|gs| - 1] && WalkOk(tree, s, t, gs) && TargetOk(gs, tree.nLevels, target)
    requires g.level < tree.nLevels
    requires Viable(Rows(s, tree.nLevels), Rows(t, tree.nLevels), tree.nLevels, g, target, 4, cs)
    ensures var next := gs[..|gs| - 1] + Reversed(cs);
      && WalkOk(tree, s, t, next) && TargetOk(next, tree.nLevels, target)
      && Goal(tree, t, target, next) == Goal(tree, t, target, gs)
      && Potential(next, tree.nLevels, target) < Potential(gs, tree.nLevels, target)
      && |next| <= 3 * tree.nLevels + 1
  {
    hide FrameOk, Runs, WithPrefix, Level, Rows, QWaveletTree.Indexes, Viable, Goal, Potential, TargetOk, InPlace, WalkOk, Listing, RowsOk, FirstFrom;
    var n := tree.nLevels;
    WalkPop(tree, s, t, gs);
    ViableAll(Rows(s, n), Rows(t, n), n, g, target, cs);
    OpenWalk(tree, s, t, gs, g, cs);
    OpenGoal(tree, s, t, target, gs, cs);
    OpenTarget(Rows(s, n), Rows(t, n), n, target, gs, g, cs);
    FirstInPlace(Rows(s, n), Rows(t, n), n, target, g, cs);
    OpenPotential(n, target, gs, g, cs);
  }

  lemma FirstInPlace(w: seq<Word>, x: seq<Word>, n: nat, target: nat, g: Frame, cs: seq<Frame>)
    requires g.level < n && InPlace(w, x, n, g, target, 4, cs)
    ensures |cs| > 0 ==> cs[0].level == g.level + 1 && (Above(g, n, target) ==> Above(cs[0], n, target))
  {
    hide FrameOk, Entered, Above, Low, Pow4;
  }

  lemma OpenWalk(tree: QWaveletTree, s: seq<nat>, t: seq<nat>, gs: seq<Frame>, g: Frame, cs: seq<Frame>)
    requires |gs| > 0 && g == gs[|gs| - 1] && WalkOk(tree, s, t, gs)
    requires AllOk(Rows(s, tree.nLevels), Rows(t, tree.nLevels), tree.nLevels, cs) && |cs| <= 4
    requires forall i :: 0 <= i < |cs| ==> cs[i].level == g.level + 1
    ensures WalkOk(tree, s, t, gs[..|gs| - 1] + Reversed(cs)) && |gs[..|gs| - 1] + Reversed(cs)| <= 3 * tree.nLevels + 1
    ensures g.level == 0 ==> |gs| == 1
  {
    hide FrameOk, Rows, QWaveletTree.Indexes, RowsOk;
    ReversedAll(cs);
    var next := gs[..|gs| - 1] + Reversed(cs);
    assert forall i :: |gs| - 1 <= i < |next| ==> next[i] == cs[|cs| - 1 - (i - (|gs| - 1))];
    WalkBound(tree, s, t, next);
    LevelZeroBottom(gs);
  }

  lemma OpenGoal(tree: QWaveletTree, s: seq<nat>, t: seq<nat>, target: nat, gs: seq<Frame>, cs: seq<Frame>)
    requires |gs| > 0 && WalkOk(tree, s, t, gs)
    requires FirstFrom(Listed(Rows(t, tree.nLevels), tree.nLevels, cs), target, Reach(tree.nLevels))
          == FirstFrom(Runs(Rows(t, tree.nLevels), PrefixOf(gs[|gs| - 1]), tree.nLevels), target, Reach(tree.nLevels))
    ensures Goal(tree, t, target, gs[..|gs| - 1] + Reversed(cs)) == Goal(tree, t, target, gs)
  {
    hide Runs, WithPrefix, SymbolWord, Rows, QWaveletTree.Indexes, Reach, Rest, Listed, FrameOk;
    var x, n := Rows(t, tree.nLevels), tree.nLevels;
    var base := gs[..|gs| - 1];
    WalkPop(tree, s, t, gs);
    RestReversed(x, n, base, cs);
    FirstFromConcat(Listed(x, n, cs), Rest(x, n, base), target, Reach(n));
    FirstFromConcat(Runs(x, PrefixOf(gs[|gs| - 1]), n), Rest(x, n, base), target, Reach(n));
  }

  lemma OpenTarget(w: seq<Word>, x: seq<Word>, n: nat, target: nat, gs: seq<Frame>, g: Frame, cs: seq<Frame>)
    requires |gs| > 0 && g == gs[|gs| - 1] && TargetOk(gs, n, target) && g.level < n && InPlace(w, x, n, g, target, 4, cs)
    ensures TargetOk(gs[..|gs| - 1] + Reversed(cs), n, target)
  {
    hide FrameOk, Entered, Above, Pow4, Low;
    ReversedAll(cs);
    var base := gs[..|gs| - 1];
    var next := base + Reversed(cs);
    forall i | 0 <= i < |next|
      ensures Entered(next[i], n, target) && (i < |next| - 1 ==> Above(next[i], n, target))
    {
      if i < |base| {
        assert next[i] == gs[i];
      } else {
        assert next[i] == cs[|cs| - 1 - (i - |base|)];
      }
    }
  }

  lemma OpenPotential(n: nat, target: nat, gs: seq<Frame>, g: Frame, cs: seq<Frame>)
    requires |gs| > 0 && g == gs[|gs| - 1] && TargetOk(gs, n, target) && g.level < n
    requires |cs| > 0 ==> cs[0].level == g.level + 1 && (Above(g, n, target) ==> Above(cs[0], n, target))
    requires Above(g, n, target) && |gs| > 1 ==> |cs| > 0
    ensures Potential(gs[..|gs| - 1] + Reversed(cs), n, target) < Potential(gs, n, target)
  {
    hide Entered, Above;
    ReversedAll(cs);
    hide Reversed;
    var next := gs[..|gs| - 1] + Reversed(cs);
    if |cs| > 0 {
      assert next[|next| - 1] == cs[0];
    } else {
      assert next == gs[..|gs| - 1];
    }
  }

  lemma LevelZeroBottom(gs: seq<Frame>)
    requires |gs| > 0 && Shallow(gs)
    ensures gs[|gs| - 1].level == 0 ==> |gs| == 1
  {}

  /** A leaf on top of the stack is never below the target. */
  lemma LeafAnswers(tree: QWaveletTree, s: seq<nat>, t: seq<nat>, target: nat, gs: seq<Frame>)
    requires |gs| > 0 && WalkOk(tree, s, t, gs) && TargetOk(gs, tree.nLevels, target) && tree.nLevels > 0
    requires gs[|gs| - 1].level == tree.nLevels
    ensures var g := gs[|gs| - 1];
      && Low(g, tree.nLevels) == g.bitPath >= target
      && Goal(tree, t, target, gs) == Some(Run(g.bitPath, g.end - g.start))
  {
    hide Runs, WithPrefix, Rows, QWaveletTree.Indexes, Level, Reach;
    var g := gs[|gs| - 1];
    WalkPop(tree, s, t, gs);
    LeafRun(Rows(s, tree.nLevels), Rows(t, tree.nLevels), tree.nLevels, g);
    assert Entered(g, tree.nLevels, target);
    PowZero();
    FirstFromConcat([Run(g.bitPath, g.end - g.start)], Listing(tree, t, gs[..|gs| - 1]), target, Reach(tree.nLevels));
  }

  method PushAllReversed(stack: array<SymFrame>, sp0: nat, cands: seq<SymFrame>) returns (sp: nat)
    requires sp0 + |cands| <= stack.Length
    modifies stack
    ensures sp == sp0 + |cands| && stack[..sp] == old(stack[..sp0]) + Reversed(cands)
  {
    sp := sp0;
    var i := |cands|;
    while i > 0
      invariant 0 <= i <= |cands| && sp == sp0 + |cands| - i
      invariant stack[..sp] == old(stack[..sp0]) + Reversed(cands[i..])
    {
      i := i - 1;
      assert cands[i..][1..] == cands[i + 1..];
      ghost var was := stack[..sp];
      stack[sp] := cands[i];
      sp := sp + 1;
      assert stack[..sp] == was + [cands[i]];
    }
    assert cands[0..] == cands;
  }

  lemma StoredReversed(fs: seq<SymFrame>, gs: seq<Frame>, cands: seq<SymFrame>, cs: seq<Frame>, n: nat)
    requires AllStored(fs, gs, n) && AllStored(cands, cs, n)
    ensures AllStored(fs + Reversed(cands), gs + Reversed(cs), n)
  {
    hide Stored;
    ReversedAll(cands);
    ReversedAll(cs);
  }

  lemma StartWalk(tree: QWaveletTree, s: seq<nat>, start: nat, end: nat, target: nat)
    requires tree.Indexes(s) && tree.nLevels <= 32 && start < end <= |s|
    ensures var n, root := tree.nLevels, Frame(start, end, 0, 0);
      && State(tree, s, s[start..end], target, [SymFrame(start, end, 0, 0, 2 * n)], [root])
      && 0 < Potential([root], n, target) <= 2 * n + 1
      && DistinctRuns(Listing(tree, s[start..end], [root]), s[start..end])
  {
    hide QWaveletTree.Indexes, WalkOk, Listing, DistinctRuns;
    WalkStart(tree, s, start, end);
  }

  lemma AtTop(tree: QWaveletTree, s: seq<nat>, t: seq<nat>, target: nat, fs: seq<SymFrame>, gs: seq<Frame>)
    requires State(tree, s, t, target, fs, gs) && |gs| > 0
    ensures var n, g, cur := tree.nLevels, gs[|gs| - 1], fs[|fs| - 1];
      && tree.Indexes(s) && n > 0
      && RowsOk(Rows(s, n), Rows(t, n), n) && FrameOk(Rows(s, n), Rows(t, n), n, g)
      && Stored(cur, g, n) && Entered(g, n, target)
      && cur.start < cur.end && cur.level == g.level <= n && (cur.logWidth == 0 <==> g.level == n) && cur.symLo == Low(g, n)
    ensures WalkOk(tree, s, t, gs) && TargetOk(gs, tree.nLevels, target)
    ensures AllStored(fs[..|fs| - 1], gs[..|gs| - 1], tree.nLevels)
    ensures |gs| == |fs| <= 3 * tree.nLevels + 1
  {
    hide QWaveletTree.Indexes, RowsOk, Level, WithPrefix, SymbolWord, Rows;
    var n := tree.nLevels;
    tree.Shape(s);
    WalkPop(tree, s, t, gs);
    WalkBound(tree, s, t, gs);
    assert Stored(fs[|fs| - 1], gs[|gs| - 1], n);
  }

  lemma NextState(tree: QWaveletTree, s: seq<nat>, t: seq<nat>, target: nat, fs: seq<SymFrame>, gs: seq<Frame>)
    requires AllStored(fs, gs, tree.nLevels) && WalkOk(tree, s, t, gs) && TargetOk(gs, tree.nLevels, target)
    ensures State(tree, s, t, target, fs, gs)
    ensures |gs| > 0 ==> Potential(gs, tree.nLevels, target) > 0
  {
    hide Stored, TargetOk, Above;
    WalkBound(tree, s, t, gs);
  }

  /** The leaf that ends the walk is the answer. */
  lemma AnswerFound(tree: QWaveletTree, t: seq<nat>, target: nat, gs: seq<Frame>, run: Option<Run>, r: Option<nat>)
    requires DistinctRuns(Listing(tree, t, gs), t) && Goal(tree, t, target, gs) == run
    requires match run case Some(f) => r.Some? && r.value == f.symbol case None => r.None?
    ensures SuccessorBelow(t, target, Reach(tree.nLevels), r)
  {
    hide Reach, Listing, DistinctRuns;
    FirstIsSuccessor(Listing(tree, t, gs), t, target, Reach(tree.nLevels), r);
  }

  lemma NoGoal(tree: QWaveletTree, t: seq<nat>, target: nat)
    ensures Goal(tree, t, target, []) == None && Potential([], tree.nLevels, target) == 0
  {}

  /** The walk from `[start, end)`, counting the frames it takes off the stack. */
  method RangeNextValueUnchecked(tree: QWaveletTree, ghost s: seq<nat>, start: nat, end: nat, target: nat)
    returns (r: Option<nat>, ghost pops: nat)
    requires tree.Indexes(s) && tree.nLevels <= 32 && start < end <= |s| && target < WORD
    ensures SuccessorBelow(s[start..end], target, Reach(tree.nLevels), r)
    ensures pops <= 2 * tree.nLevels + 1
  {
    hide QWaveletTree.Indexes, State, Goal, Potential, Stored, FrameOk, Viable, RowsOk, Stores, Reach, Low, WalkOk, TargetOk, AllStored, Entered, DistinctRuns, Listing, SuccessorBelow;
    tree.Shape(s);
    var n := tree.nLevels;
    ghost var t, root := s[start..end], Frame(start, end, 0, 0);
    ghost var gs := [root];
    var stack := new SymFrame[128](_ => SymFrame(0, 0, 0, 0, 0));
    var sp := 1;
    stack[0] := SymFrame(start, end, 0, 0, 2 * n);
    assert stack[..1] == [SymFrame(start, end, 0, 0, 2 * n)];
    StartWalk(tree, s, start, end, target);
    pops := 0;
    while sp > 0
      invariant sp <= 3 * n + 1 && State(tree, s, t, target, stack[..sp], gs) && |gs| == sp
      invariant Goal(tree, t, target, gs) == Goal(tree, t, target, [root])
      invariant pops + Potential(gs, n, target) <= 2 * n + 1
      invariant sp > 0 ==> Potential(gs, n, target) > 0
      decreases 2 * n + 1 - pops
    {
      pops := pops + 1;
      ghost var g := gs[sp - 1];
      AtTop(tree, s, t, target, stack[..sp], gs);
      sp := sp - 1;
      var cur := stack[sp];
      assert stack[..sp + 1][..sp] == stack[..sp];
      if cur.start < cur.end {
        if cur.logWidth == 0 {
          LeafAnswers(tree, s, t, target, gs);
          if cur.symLo >= target {
            AnswerFound(tree, t, target, [root], Some(Run(g.bitPath, g.end - g.start)), Some(cur.symLo));
            return Some(cur.symLo), pops;
          }
        } else {
          FrameLevel(tree, s, Rows(t, n), g);
          var cands, cs := ViableChildren(tree.qvs[cur.level], Rows(s, n), Rows(t, n), n, g, cur, target);
          OpenFrame(tree, s, t, target, gs, g, cs);
          StoredReversed(stack[..sp], gs[..sp], cands, cs, n);
          gs := gs[..sp] + Reversed(cs);
          sp := PushAllReversed(stack, sp, cands);
          NextState(tree, s, t, target, stack[..sp], gs);
        }
      }
    }
    r := None;
    assert gs == [];
    NoGoal(tree, t, target);
    AnswerFound(tree, t, target, [root], None, None);
  }

  /** The answer is the least symbol of the range from `target` on, unless it lies in the quarter that 32 levels never enter. */
  ghost predicate Reached(t: seq<nat>, target: nat, n: nat) {
    || n < 32
    || (exists c :: c in t && target <= c < Reach(n))
    || (forall d :: d in t && target <= d ==> d < Reach(n))
  }

  lemma ReachedExactly(t: seq<nat>, target: nat, n: nat, r: Option<nat>)
    requires n <= 32 && Below(t, Pow4(n)) && SuccessorBelow(t, target, Reach(n), r)
    ensures Successor(t, target, r) <==> Reached(t, target, n)
  {
    hide Pow4;
    if r.None? {
      forall d | d in t
        ensures n < 32 ==> d < Reach(n)
      {}
    }
  }

  method RangeNextValue(tree: QWaveletTree, ghost s: seq<nat>, start: nat, end: nat, target: nat) returns (r: Option<nat>)
    requires tree.Represents(s) && tree.nLevels <= 32 && target < WORD
    ensures !(start < end <= |s|) ==> r == None
    ensures start < end <= |s| ==> SuccessorBelow(s[start..end], target, Reach(tree.nLevels), r)
    ensures start < end <= |s| ==> (Successor(s[start..end], target, r) <==> Reached(s[start..end], target, tree.nLevels))
  {
    hide QWaveletTree.Indexes, SuccessorBelow, Successor, Reached, Reach, Pow4;
    tree.NoLevels(s);
    if start > end || end > tree.n || start == end {
      return None;
    }
    if tree.nLevels == 0 {
      return None;
    }
    ghost var pops;
    r, pops := RangeNextValueUnchecked(tree, s, start, end, target);
    tree.Shape(s);
    ReachedExactly(s[start..end], target, tree.nLevels, r);
  }

  /** A text of the largest 64-bit symbol alone: the query finds nothing. */
  lemma LargestSymbolMissed(r: Option<nat>)
    requires SuccessorBelow([WORD - 1], 0, Reach(32), r)
    ensures LevelsFor(WORD - 1) == 32 && r == None && !Successor([WORD - 1], 0, r)
  {
    Pow4ThirtyOne();
    LevelsUnique(WORD - 1, 32);
    assert (WORD - 1) in [WORD - 1];
  }
}
