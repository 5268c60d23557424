/** The distinct-symbol iterator on a fixed stack of 128 frames, with unary paths collapsed. */
module RangeDistinct {
  import opened Wrappers
  import opened RankSelect
  import opened StablePartition
  import opened Words
  import opened WaveletMatrix
  import opened RSQVectors
  import opened SymbolWords
  import opened LevelSteps
  import opened QuadWavelet
  import opened RangeRuns
  import opened RangeFrames
  import opened RangeIterators

  const STACK_SIZE: nat := 128

  /** The runs of a list of frames, first frame first. */
  ghost function Listed(x: seq<Word>, n: nat, frames: seq<Frame>): seq<Run> {
    if frames == [] then [] else Runs(x, PrefixOf(frames[0]), n) + Listed(x, n, frames[1..])
  }

  lemma {:induction false} ListedPush(x: seq<Word>, n: nat, frames: seq<Frame>, f: Frame)
    ensures Listed(x, n, frames + [f]) == Listed(x, n, frames) + Runs(x, PrefixOf(f), n)
  {
    hide Runs;
    if frames == [] {
      assert frames + [f] == [f];
    } else {
      ListedPush(x, n, frames[1..], f);
      assert (frames + [f])[1..] == frames[1..] + [f];
    }
  }

  /** The candidates among children `0..b` of `cur`. */
  ghost predicate Gathered(w: seq<Word>, x: seq<Word>, n: nat, cur: Frame, b: nat, cands: seq<Frame>)
    requires cur.level < n && b <= 4
  {
    && AllOk(w, x, n, cands) && |cands| <= b
    && (forall i :: 0 <= i < |cands| ==> cands[i].level == cur.level + 1)
    && Listed(x, n, cands) + RunsFrom(x, PrefixOf(cur), n, b) == RunsFrom(x, PrefixOf(cur), n, 0)
    && (|cands| == 0 ==> RowsFrom(x, PrefixOf(cur), b) == RowsFrom(x, PrefixOf(cur), 0))
  }

  lemma GatherOne(w: seq<Word>, x: seq<Word>, n: nat, cur: Frame, b: nat, cands: seq<Frame>, next: Frame)
    requires RowsOk(w, x, n) && FrameOk(w, x, n, cur) && cur.level < n && b < 4
    requires Gathered(w, x, n, cur, b, cands) && IsChild(w, cur, b, next)
    ensures next.start <= next.end
    ensures Gathered(w, x, n, cur, b + 1, if next.end > next.start then cands + [next] else cands)
  {
    hide FrameOk, Runs, WithPrefix, SymbolWord, IsChild;
    ChildFrame(w, x, n, cur, b, next);
    ChildLevel(w, cur, b, next);
    if next.end > next.start {
      ListedPush(x, n, cands, next);
    } else {
      NoRows(x, PrefixOf(cur) + [b], n);
    }
  }

  lemma GatherNone(w: seq<Word>, x: seq<Word>, n: nat, cur: Frame)
    requires cur.level < n
    ensures Gathered(w, x, n, cur, 0, [])
  {}

  lemma GatherAll(w: seq<Word>, x: seq<Word>, n: nat, cur: Frame, cands: seq<Frame>)
    requires RowsOk(w, x, n) && FrameOk(w, x, n, cur) && cur.level < n && Gathered(w, x, n, cur, 4, cands)
    ensures Listed(x, n, cands) == Runs(x, PrefixOf(cur), n) && 0 < |cands| <= 4
    ensures AllOk(w, x, n, cands) && forall i :: 0 <= i < |cands| ==> cands[i].level == cur.level + 1
  {
    hide WithPrefix, SymbolWord, Runs;
    RunsOfChildren(x, PrefixOf(cur), n);
    RowsSplit(x, PrefixOf(cur), n);
  }

  /** The children that hold rows, by the shared ranks of both ends. */
  method Candidates(q: RSQVector, ghost w: seq<Word>, ghost x: seq<Word>, ghost n: nat, cur: Frame) returns (cands: seq<Frame>)
    requires RowsOk(w, x, n) && FrameOk(w, x, n, cur) && cur.level < n && Stores(q, Level(w, cur.level), cur.level)
    ensures Listed(x, n, cands) == Runs(x, PrefixOf(cur), n) && 0 < |cands| <= 4
    ensures AllOk(w, x, n, cands) && forall i :: 0 <= i < |cands| ==> cands[i].level == cur.level + 1
  {
    hide RSQVector.Valid, RSQVector.Contents, Level, WithPrefix, SymbolWord, Rank, OccsBelow, RowsOk, Gathered;
    var ranksS := q.RankAllUnchecked(cur.start);
    var ranksE := q.RankAllUnchecked(cur.end);
    cands := [];
    GatherNone(w, x, n, cur);
    var b: nat := 0;
    while b < 4
      invariant 0 <= b <= 4 && Gathered(w, x, n, cur, b, cands)
    {
      PathSpace(w, x, n, cur);
      var offset := q.OccsSmallerUnchecked(b);
      var next := Frame(offset + ranksS[b], offset + ranksE[b], cur.level + 1, PushDigit(cur.bitPath, b));
      GatherOne(w, x, n, cur, b, cands, next);
      if ranksE[b] > ranksS[b] {
        cands := cands + [next];
      }
      b := b + 1;
    }
    GatherAll(w, x, n, cur, cands);
  }

  lemma PathSpace(w: seq<Word>, x: seq<Word>, n: nat, f: Frame)
    requires RowsOk(w, x, n) && FrameOk(w, x, n, f) && f.level < n
    ensures forall b: nat :: b < 4 ==> PushDigit(f.bitPath, b) == 4 * f.bitPath + b
  {
    PathRoom(f, n);
  }

  /** Candidates `i..` lie on top of the stack `base`, the smallest uppermost. */
  ghost predicate Stacked(w: seq<Word>, x: seq<Word>, n: nat, level: nat, base: seq<Frame>, cands: seq<Frame>, i: nat, stack: seq<Frame>)
    requires i <= |cands|
  {
    && AllOk(w, x, n, stack) && Shallow(stack) && |stack| == |base| + |cands| - i
    && Rest(x, n, stack) == Listed(x, n, cands[i..]) + Rest(x, n, base)
    && (i < |cands| ==> stack[|stack| - 1].level == level)
  }

  lemma StackOne(w: seq<Word>, x: seq<Word>, n: nat, level: nat, base: seq<Frame>, cands: seq<Frame>, i: nat, stack: seq<Frame>)
    requires i < |cands| <= 4 && AllOk(w, x, n, cands) && level > 0 && |base| <= 3 * (level - 1)
    requires forall j :: 0 <= j < |cands| ==> cands[j].level == level
    requires Stacked(w, x, n, level, base, cands, i + 1, stack)
    ensures Stacked(w, x, n, level, base, cands, i, stack + [cands[i]])
  {
    hide FrameOk, Runs;
    RestPush(x, n, stack, cands[i]);
    assert cands[i..][1..] == cands[i + 1..];
  }

  lemma StackNone(w: seq<Word>, x: seq<Word>, n: nat, level: nat, base: seq<Frame>, cands: seq<Frame>)
    requires AllOk(w, x, n, base) && Shallow(base)
    ensures Stacked(w, x, n, level, base, cands, |cands|, base)
  {}

  lemma StackAll(tree: QWaveletTree, s: seq<nat>, t: seq<nat>, level: nat, base: seq<Frame>, cands: seq<Frame>, stack: seq<Frame>)
    requires tree.Indexes(s) && RowsOk(Rows(s, tree.nLevels), Rows(t, tree.nLevels), tree.nLevels) && |cands| > 0
    requires Stacked(Rows(s, tree.nLevels), Rows(t, tree.nLevels), tree.nLevels, level, base, cands, 0, stack)
    ensures WalkOk(tree, s, t, stack) && |stack| > 0 && stack[|stack| - 1].level == level
    ensures Listing(tree, t, stack) == Listed(Rows(t, tree.nLevels), tree.nLevels, cands) + Listing(tree, t, base)
  {
    assert cands[0..] == cands;
  }

  lemma BaseOk(tree: QWaveletTree, s: seq<nat>, t: seq<nat>, stack: seq<Frame>)
    requires WalkOk(tree, s, t, stack)
    ensures AllOk(Rows(s, tree.nLevels), Rows(t, tree.nLevels), tree.nLevels, stack) && Shallow(stack)
  {}

  lemma SingleListed(x: seq<Word>, n: nat, f: Frame)
    ensures Listed(x, n, [f]) == Runs(x, PrefixOf(f), n)
  {}

  class RangeDistinctIter {
    const tree: QWaveletTree
    const stack: array<Frame>
    var sp: nat
    ghost const s: seq<nat>
    ghost const t: seq<nat>

    ghost predicate Valid()
      reads this, stack
    {
      stack.Length == STACK_SIZE && sp <= STACK_SIZE && WalkOk(tree, s, t, stack[..sp])
    }

    /** The runs still to come. */
    ghost function Remaining(): seq<Run>
      requires Valid()
      reads this, stack
    {
      Listing(tree, t, stack[..sp])
    }

    /** An empty or invalid range yields nothing. */
    constructor (tree: QWaveletTree, start: nat, end: nat, ghost s: seq<nat>)
      requires tree.Represents(s) && tree.nLevels <= 32
      ensures fresh(stack) && Valid()
      ensures start < end <= |s| ==> DistinctRuns(Remaining(), s[start..end])
      ensures !(start < end <= |s|) ==> Remaining() == []
    {
      this.tree := tree;
      this.s := s;
      this.t := if start <= end <= |s| then s[start..end] else [];
      this.sp := 0;
      this.stack := new Frame[STACK_SIZE](_ => Frame(0, 0, 0, 0));
      new;
      hide QWaveletTree.Indexes, WalkOk, Listing, DistinctRuns;
      tree.NoLevels(s);
      EmptyWalk(tree, s, t);
      EmptyListing(tree, t);
      assert stack[..0] == [];
      if start < end && end <= tree.n && tree.nLevels > 0 {
        stack[0] := Frame(start, end, 0, 0);
        sp := 1;
        WalkStart(tree, s, start, end);
        assert stack[..1] == [Frame(start, end, 0, 0)];
      }
    }

    method NextSymbol() returns (r: Option<Run>)
      requires Valid()
      modifies this, stack
      ensures Valid()
      ensures r.None? ==> old(Remaining()) == [] == Remaining()
      ensures r.Some? ==> old(Remaining()) == [r.value] + Remaining()
      ensures r.Some? ==> sp <= 3 * tree.nLevels + 1
    {
      hide WalkOk, Listing, FrameOk, RowsOk, QWaveletTree.Indexes, AllOk;
      ghost var all := Remaining();
      EmptyListing(tree, t);
      WalkBound(tree, s, t, stack[..sp]);
      while sp > 0
        invariant Valid() && Remaining() == all
        invariant sp > 0 ==> stack[sp - 1].level <= tree.nLevels
        decreases if sp > 0 then tree.nLevels + 1 - stack[sp - 1].level else 0
      {
        WalkPop(tree, s, t, stack[..sp]);
        sp := sp - 1;
        var cur := stack[sp];
        assert stack[..sp + 1][..sp] == stack[..sp];
        TopLevel(Rows(s, tree.nLevels), Rows(t, tree.nLevels), tree.nLevels, cur);
        if cur.start < cur.end {
          if cur.level == tree.nLevels {
            LeafRun(Rows(s, tree.nLevels), Rows(t, tree.nLevels), tree.nLevels, cur);
            WalkBound(tree, s, t, stack[..sp]);
            return Some(Run(cur.bitPath, cur.end - cur.start));
          }
          var leaf := Expand(cur);
          if leaf.Some? {
            WalkBound(tree, s, t, stack[..sp]);
            return leaf;
          }
        }
      }
      r := None;
    }

    /** Follows single children in place until a leaf or a branching; a branching goes to the stack. */
    method Expand(top: Frame) returns (leaf: Option<Run>)
      requires Valid() && tree.Indexes(s) && sp <= 3 * top.level && top.level < tree.nLevels <= 32
      requires RowsOk(Rows(s, tree.nLevels), Rows(t, tree.nLevels), tree.nLevels)
      requires FrameOk(Rows(s, tree.nLevels), Rows(t, tree.nLevels), tree.nLevels, top)
      modifies this, stack
      ensures Valid()
      ensures leaf.Some? ==> Runs(Rows(t, tree.nLevels), PrefixOf(top), tree.nLevels) == [leaf.value] && Remaining() == old(Remaining())
      ensures leaf.None? ==> Remaining() == Runs(Rows(t, tree.nLevels), PrefixOf(top), tree.nLevels) + old(Remaining())
      ensures leaf.None? ==> sp > 0 && top.level < stack[sp - 1].level <= tree.nLevels
    {
      hide WalkOk, Listing, RowsOk, QWaveletTree.Indexes, Runs, Stacked, WithPrefix, SymbolWord, Listed, Rest, Shallow, Rows, Stores, Level, PrefixOf;
      var cur := top;
      ghost var w, x, n := Rows(s, tree.nLevels), Rows(t, tree.nLevels), tree.nLevels;
      ghost var base := stack[..sp];
      while true
        invariant Valid() && stack[..sp] == base && sp == old(sp)
        invariant FrameOk(w, x, n, cur) && top.level <= cur.level < n
        invariant Runs(x, PrefixOf(cur), n) == Runs(x, PrefixOf(top), n)
        decreases n - cur.level
      {
        FrameLevel(tree, s, x, cur);
        var cands := Candidates(tree.qvs[cur.level], w, x, n, cur);
        if |cands| == 1 {
          SingleListed(x, n, cands[0]);
          assert cands == [cands[0]];
          cur := cands[0];
          if cur.level == tree.nLevels {
            LeafRun(w, x, n, cur);
            return Some(Run(cur.bitPath, cur.end - cur.start));
          }
        } else {
          BaseOk(tree, s, t, base);
          StackNone(w, x, n, cur.level + 1, base, cands);
          PushReversed(cands, cur.level + 1);
          StackAll(tree, s, t, cur.level + 1, base, cands, stack[..sp]);
          return None;
        }
      }
    }

    method PushReversed(cands: seq<Frame>, ghost level: nat)
      requires stack.Length == STACK_SIZE && 0 < level <= tree.nLevels <= 32 && sp <= 3 * (level - 1) && |cands| <= 4
      requires AllOk(Rows(s, tree.nLevels), Rows(t, tree.nLevels), tree.nLevels, cands)
      requires forall j :: 0 <= j < |cands| ==> cands[j].level == level
      requires Stacked(Rows(s, tree.nLevels), Rows(t, tree.nLevels), tree.nLevels, level, stack[..sp], cands, |cands|, stack[..sp])
      modifies this, stack
      ensures sp == old(sp) + |cands| <= STACK_SIZE
      ensures Stacked(Rows(s, tree.nLevels), Rows(t, tree.nLevels), tree.nLevels, level, old(stack[..sp]), cands, 0, stack[..sp])
    {
      hide Stacked, AllOk;
      ghost var w, x, n := Rows(s, tree.nLevels), Rows(t, tree.nLevels), tree.nLevels;
      ghost var base := stack[..sp];
      var i := |cands|;
      while i > 0
        invariant 0 <= i <= |cands| && sp == old(sp) + |cands| - i
        invariant Stacked(w, x, n, level, base, cands, i, stack[..sp])
      {
        i := i - 1;
        ghost var was := stack[..sp];
        stack[sp] := cands[i];
        sp := sp + 1;
        assert stack[..sp] == was + [cands[i]];
        StackOne(w, x, n, level, base, cands, i, was);
      }
    }

    /** All that `next` will still deliver. */
    method Collect() returns (runs: seq<Run>)
      requires Valid()
      modifies this, stack
      ensures Valid() && runs == old(Remaining()) && Remaining() == []
    {
      hide *;
      runs := [];
      ghost var all := Remaining();
      var r := NextSymbol();
      while r.Some?
        invariant Valid()
        invariant all == runs + (if r.Some? then [r.value] else []) + Remaining()
        invariant r.None? ==> Remaining() == []
        decreases |Remaining()|, r.Some?
      {
        runs := runs + [r.value];
        r := NextSymbol();
      }
    }
  }

  /** Both iterators list the same runs of a range. */
  method BothIterators(tree: QWaveletTree, ghost s: seq<nat>, start: nat, end: nat) returns (a: seq<Run>, b: seq<Run>)
    requires tree.Represents(s) && tree.nLevels <= 32 && start < end <= |s|
    ensures a == b && DistinctRuns(a, s[start..end])
  {
    hide QWaveletTree.Indexes, WalkOk, Listing, DistinctRuns;
    tree.NoLevels(s);
    var it := OccsRange(tree, s, start, end);
    a := it.value.Collect();
    var distinct := new RangeDistinctIter(tree, start, end, s);
    b := distinct.Collect();
    DistinctRunsUnique(a, b, s[start..end]);
  }
}
