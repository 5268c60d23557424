/**
 The two iterators over the symbols of a range: one on a growing stack, one on a
 fixed stack that collapses unary paths. Both list the same runs.
 */
module RangeIterators {
  import opened Wrappers
  import opened RankSelect
  import opened StablePartition
  import opened Arithmetic
  import opened Words
  import opened WaveletMatrix
  import opened RSQVectors
  import opened SymbolWords
  import opened LevelSteps
  import opened QuadWavelet
  import opened RangeRuns
  import opened RangeFrames

  /** The level of a frame that is not a leaf. */
  lemma FrameLevel(tree: QWaveletTree, s: seq<nat>, x: seq<Word>, f: Frame)
    requires tree.Indexes(s) && f.level < tree.nLevels && FrameOk(Rows(s, tree.nLevels), x, tree.nLevels, f)
    ensures f.level < |tree.qvs| && Stores(tree.qvs[f.level], Level(Rows(s, tree.nLevels), f.level), f.level)
  {
    hide Level;
    tree.AtLevel(s, f.level);
  }

  /** The stack of a walk over the window `t` of the text `s`. */
  ghost predicate WalkOk(tree: QWaveletTree, s: seq<nat>, t: seq<nat>, stack: seq<Frame>) {
    stack != [] ==>
      && tree.Indexes(s)
      && RowsOk(Rows(s, tree.nLevels), Rows(t, tree.nLevels), tree.nLevels)
      && AllOk(Rows(s, tree.nLevels), Rows(t, tree.nLevels), tree.nLevels, stack)
      && Shallow(stack)
  }

  ghost function Listing(tree: QWaveletTree, t: seq<nat>, stack: seq<Frame>): seq<Run> {
    Rest(Rows(t, tree.nLevels), tree.nLevels, stack)
  }

  lemma WalkStart(tree: QWaveletTree, s: seq<nat>, start: nat, end: nat)
    requires tree.Represents(s) && tree.nLevels <= 32 && start <= end <= |s|
    ensures start < end ==> WalkOk(tree, s, s[start..end], [Frame(start, end, 0, 0)])
    ensures DistinctRuns(Listing(tree, s[start..end], if start < end then [Frame(start, end, 0, 0)] else []), s[start..end])
  {
    hide WithPrefix, Runs, Level, SymbolWord;
    if start < end {
      tree.Shape(s);
      RootFrame(s, tree.nLevels, start, end);
    }
  }

  /** The top frame leaves the stack. */
  lemma WalkPop(tree: QWaveletTree, s: seq<nat>, t: seq<nat>, stack: seq<Frame>)
    requires WalkOk(tree, s, t, stack) && |stack| > 0
    ensures var top, base := stack[|stack| - 1], stack[..|stack| - 1];
      && WalkOk(tree, s, t, base) && tree.Indexes(s) && tree.nLevels <= 32
      && RowsOk(Rows(s, tree.nLevels), Rows(t, tree.nLevels), tree.nLevels)
      && FrameOk(Rows(s, tree.nLevels), Rows(t, tree.nLevels), tree.nLevels, top) && |base| <= 3 * top.level
      && Listing(tree, t, stack) == Runs(Rows(t, tree.nLevels), PrefixOf(top), tree.nLevels) + Listing(tree, t, base)
  {}

  // ---- OccsRangeIter ----

  class OccsRangeIter {
    const tree: QWaveletTree
    var stack: seq<Frame>
    ghost const s: seq<nat>
    ghost const t: seq<nat>

    ghost predicate Valid()
      reads this
    {
      WalkOk(tree, s, t, stack)
    }

    /** The runs still to come. */
    ghost function Remaining(): seq<Run>
      reads this
    {
      Listing(tree, t, stack)
    }

    constructor (tree: QWaveletTree, stack: seq<Frame>, ghost s: seq<nat>, ghost t: seq<nat>)
      requires WalkOk(tree, s, t, stack)
      ensures this.tree == tree && this.stack == stack && this.s == s && this.t == t && Valid()
    {
      this.tree := tree;
      this.stack := stack;
      this.s := s;
      this.t := t;
    }

    method Next() returns (r: Option<Run>)
      requires Valid()
      modifies this
      ensures Valid()
      ensures r.None? ==> old(Remaining()) == [] == Remaining()
      ensures r.Some? ==> old(Remaining()) == [r.value] + Remaining()
      ensures r.Some? ==> |stack| <= 3 * tree.nLevels + 1
    {
      hide *;
      EmptyListing(tree, t);
      while |stack| > 0
        invariant Valid() && Remaining() == old(Remaining())
        decreases Depth()
      {
        r := Pop();
        if r.Some? {
          return;
        }
      }
      Exhausted();
      r := None;
    }

    /** Levels below the top of the stack, plus one; 0 for an empty stack. */
    ghost function Depth(): nat
      reads this
    {
      if |stack| > 0 && stack[|stack| - 1].level <= tree.nLevels then tree.nLevels + 1 - stack[|stack| - 1].level else 0
    }

    lemma Exhausted()
      requires |stack| == 0
      ensures Remaining() == []
    {}

    /** One round of `next`: a leaf is delivered, another frame is replaced by its children. */
    method Pop() returns (r: Option<Run>)
      requires Valid() && |stack| > 0
      modifies this
      ensures Valid()
      ensures r.Some? ==> old(Remaining()) == [r.value] + Remaining() && |stack| <= 3 * tree.nLevels + 1
      ensures r.None? ==> Remaining() == old(Remaining()) && Depth() < old(Depth())
    {
      hide WalkOk, Listing, FrameOk, RowsOk, QWaveletTree.Indexes, AllOk, Runs, Rows;
      WalkPop(tree, s, t, stack);
      var cur := stack[|stack| - 1];
      stack := stack[..|stack| - 1];
      TopLevel(Rows(s, tree.nLevels), Rows(t, tree.nLevels), tree.nLevels, cur);
      if cur.level == tree.nLevels {
        LeafRun(Rows(s, tree.nLevels), Rows(t, tree.nLevels), tree.nLevels, cur);
        WalkBound(tree, s, t, stack);
        return Some(Run(cur.bitPath, cur.end - cur.start));
      }
      stack := PushChildren(tree, s, t, cur, stack);
      r := None;
    }

    /** All that `next` will still deliver. */
    method Collect() returns (runs: seq<Run>)
      requires Valid()
      modifies this
      ensures Valid() && runs == old(Remaining()) && Remaining() == []
    {
      hide *;
      runs := [];
      ghost var all := Remaining();
      var r := Next();
      while r.Some?
        invariant Valid()
        invariant all == runs + (if r.Some? then [r.value] else []) + Remaining()
        invariant r.None? ==> Remaining() == []
        decreases |Remaining()|, r.Some?
      {
        runs := runs + [r.value];
        r := Next();
      }
    }
  }

  lemma EmptyListing(tree: QWaveletTree, t: seq<nat>)
    ensures Listing(tree, t, []) == []
  {}

  lemma WalkBound(tree: QWaveletTree, s: seq<nat>, t: seq<nat>, stack: seq<Frame>)
    requires WalkOk(tree, s, t, stack)
    ensures |stack| <= 3 * tree.nLevels + 1
    ensures |stack| > 0 ==> stack[|stack| - 1].level <= tree.nLevels
  {
    if |stack| > 0 {
      RangeFrames.StackBound(Rows(s, tree.nLevels), Rows(t, tree.nLevels), tree.nLevels, stack);
    }
  }

  lemma TopLevel(w: seq<Word>, x: seq<Word>, n: nat, f: Frame)
    requires FrameOk(w, x, n, f)
    ensures f.level <= n && f.start < f.end
  {}

  /** What pushing children leaves on the stack. */
  ghost predicate Pushed(tree: QWaveletTree, s: seq<nat>, t: seq<nat>, cur: Frame, base: seq<Frame>, bit: nat, stack: seq<Frame>)
    requires bit <= 4 && cur.level < tree.nLevels
  {
    var x, n := Rows(t, tree.nLevels), tree.nLevels;
    && AllOk(Rows(s, n), x, n, stack)
    && Shallow(stack) && |base| <= |stack| <= |base| + 4 - bit && |base| <= 3 * cur.level
    && Rest(x, n, stack) == RunsFrom(x, PrefixOf(cur), n, bit) + Rest(x, n, base)
    && (if |stack| > |base| then stack[|stack| - 1].level == cur.level + 1 else RowsFrom(x, PrefixOf(cur), bit) == 0)
  }

  lemma PushOne(tree: QWaveletTree, s: seq<nat>, t: seq<nat>, cur: Frame, base: seq<Frame>, bit: nat, stack: seq<Frame>, next: Frame)
    requires bit < 4 && cur.level < tree.nLevels && Pushed(tree, s, t, cur, base, bit + 1, stack)
    requires RowsOk(Rows(s, tree.nLevels), Rows(t, tree.nLevels), tree.nLevels)
    requires FrameOk(Rows(s, tree.nLevels), Rows(t, tree.nLevels), tree.nLevels, cur)
    requires IsChild(Rows(s, tree.nLevels), cur, bit, next)
    ensures next.start <= next.end
    ensures Pushed(tree, s, t, cur, base, bit, if next.start == next.end then stack else stack + [next])
  {
    hide FrameOk, Runs, WithPrefix, SymbolWord, IsChild;
    var w, x, n := Rows(s, tree.nLevels), Rows(t, tree.nLevels), tree.nLevels;
    ChildFrame(w, x, n, cur, bit, next);
    ChildLevel(w, cur, bit, next);
    if next.start == next.end {
      NoRows(x, PrefixOf(cur) + [bit], n);
    } else {
      RestPush(x, n, stack, next);
    }
  }

  lemma ChildLevel(w: seq<Word>, f: Frame, b: nat, next: Frame)
    requires b < 4 && IsChild(w, f, b, next)
    ensures next.level == f.level + 1
  {}

  lemma PushNone(tree: QWaveletTree, s: seq<nat>, t: seq<nat>, cur: Frame, base: seq<Frame>)
    requires cur.level < tree.nLevels && WalkOk(tree, s, t, base) && |base| <= 3 * cur.level
    ensures Pushed(tree, s, t, cur, base, 4, base)
  {}

  lemma PushAll(tree: QWaveletTree, s: seq<nat>, t: seq<nat>, cur: Frame, base: seq<Frame>, stack: seq<Frame>)
    requires cur.level < tree.nLevels && tree.Indexes(s) && Pushed(tree, s, t, cur, base, 0, stack)
    requires RowsOk(Rows(s, tree.nLevels), Rows(t, tree.nLevels), tree.nLevels)
    requires FrameOk(Rows(s, tree.nLevels), Rows(t, tree.nLevels), tree.nLevels, cur)
    ensures WalkOk(tree, s, t, stack)
    ensures Listing(tree, t, stack) == Runs(Rows(t, tree.nLevels), PrefixOf(cur), tree.nLevels) + Listing(tree, t, base)
    ensures |stack| > 0 && stack[|stack| - 1].level == cur.level + 1
  {
    hide WithPrefix, SymbolWord, Runs;
    var x, n := Rows(t, tree.nLevels), tree.nLevels;
    RunsOfChildren(x, PrefixOf(cur), n);
    RowsSplit(x, PrefixOf(cur), n);
  }

  /** Children in reverse, so that the smallest ends on top. */
  method PushChildren(tree: QWaveletTree, ghost s: seq<nat>, ghost t: seq<nat>, cur: Frame, base: seq<Frame>) returns (stack: seq<Frame>)
    requires tree.Indexes(s) && WalkOk(tree, s, t, base)
    requires RowsOk(Rows(s, tree.nLevels), Rows(t, tree.nLevels), tree.nLevels)
    requires FrameOk(Rows(s, tree.nLevels), Rows(t, tree.nLevels), tree.nLevels, cur)
    requires cur.level < tree.nLevels && |base| <= 3 * cur.level
    ensures WalkOk(tree, s, t, stack)
    ensures Listing(tree, t, stack) == Runs(Rows(t, tree.nLevels), PrefixOf(cur), tree.nLevels) + Listing(tree, t, base)
    ensures |stack| > 0 && stack[|stack| - 1].level == cur.level + 1
  {
    hide WalkOk, Listing, FrameOk, RowsOk, QWaveletTree.Indexes, Pushed, IsChild, Stores;
    FrameLevel(tree, s, Rows(t, tree.nLevels), cur);
    stack := base;
    PushNone(tree, s, t, cur, base);
    var bit := 4;
    while bit > 0
      invariant 0 <= bit <= 4 && Pushed(tree, s, t, cur, base, bit, stack)
    {
      bit := bit - 1;
      var next := Branch(tree.qvs[cur.level], Rows(s, tree.nLevels), Rows(t, tree.nLevels), tree.nLevels, cur, bit);
      PushOne(tree, s, t, cur, base, bit, stack, next);
      if next.start != next.end {
        stack := stack + [next];
      }
    }
    PushAll(tree, s, t, cur, base, stack);
  }

  /** `occs_range` on the range `[start, end)`. */
  method OccsRange(tree: QWaveletTree, ghost s: seq<nat>, start: nat, end: nat) returns (r: Option<OccsRangeIter>)
    requires tree.Represents(s) && tree.nLevels <= 32
    ensures r.None? <==> end > |s| || start > end
    ensures r.Some? ==> fresh(r.value) && r.value.Valid() && DistinctRuns(r.value.Remaining(), s[start..end])
  {
    hide QWaveletTree.Indexes, WalkOk, Listing, DistinctRuns;
    tree.NoLevels(s);
    if end > tree.n || start > end {
      return None;
    }
    WalkStart(tree, s, start, end);
    EmptyWalk(tree, s, s[start..end]);
    var it := new OccsRangeIter(tree, if start == end then [] else [Frame(start, end, 0, 0)], s, s[start..end]);
    return Some(it);
  }

  lemma EmptyWalk(tree: QWaveletTree, s: seq<nat>, t: seq<nat>)
    ensures WalkOk(tree, s, t, [])
  {}
}
