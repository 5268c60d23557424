/** The iterator over the symbols of a range of a Huffman-shaped tree. */
module HuffIterators {
  import opened Wrappers
  import opened RankSelect
  import opened StablePartition
  import opened Arithmetic
  import opened Words
  import opened WaveletMatrix
  import opened CraftCodes
  import opened RSQVectors
  import opened PartitionInto
  import opened SymbolWords
  import opened LevelSteps
  import opened CodeTables
  import opened DecodeTables
  import opened QuadWavelet
  import opened RangeRuns
  import RangeFrames
  import opened HuffPaths
  import opened HuffWavelet
  import opened HuffParts
  import opened HuffWalk
  import opened HuffAssembly
  import opened HuffRuns

  /** Rows `[start, end)` of a level, below the digits in the last `bitLen` bits of `bitPath`. */
  datatype HuffFrame = HuffFrame(start: nat, end: nat, level: nat, bitPath: nat, bitLen: nat)

  ghost function PrefixOf(f: HuffFrame): (p: Word)
    ensures |p| == f.level && Quaternary(p)
  {
    SymbolWord(f.bitPath, f.level)
  }

  /** The frame counts the rows of the window below its prefix; unless they all end there, it says where they are. */
  ghost predicate FrameOk(ks: seq<seq<int>>, decode: seq<seq<Entry>>, x: seq<Word>, f: HuffFrame)
    requires Levels(ks)
  {
    var p := PrefixOf(f);
    && f.bitLen == 2 * f.level && f.level <= 16 && f.bitPath == Value(p)
    && f.start < f.end && f.end - f.start == |WithPrefix(x, p)|
    && (!IsLeaf(decode, p) ==> Node(ks, x, p, f.start, f.end))
  }

  ghost predicate AllOk(ks: seq<seq<int>>, decode: seq<seq<Entry>>, x: seq<Word>, stack: seq<HuffFrame>)
    requires Levels(ks)
  {
    && (forall i :: 0 <= i < |stack| ==> FrameOk(ks, decode, x, stack[i]))
    && forall i :: 0 <= i < |stack| ==> i <= 3 * stack[i].level
  }

  /** What every walk over a window needs to know of the tree. */
  ghost predicate TreeOk(tree: HuffQWaveletTree, x: seq<Word>) {
    && tree.Shaped() && TablesAgree(tree.codesEncode, tree.codesDecode, tree.nLevels)
    && DecodedRows(tree.codesDecode, x, tree.nLevels)
  }

  ghost predicate WalkOk(tree: HuffQWaveletTree, x: seq<Word>, stack: seq<HuffFrame>) {
    stack != [] ==> TreeOk(tree, x) && AllOk(tree.Ks(), tree.codesDecode, x, stack)
  }

  /** What a walk has still to list: the frames from the top down. */
  ghost function Rest(decode: seq<seq<Entry>>, x: seq<Word>, n: nat, stack: seq<HuffFrame>): seq<Run> {
    if |stack| == 0 then []
    else CodeRuns(decode, x, PrefixOf(stack[|stack| - 1]), n) + Rest(decode, x, n, stack[..|stack| - 1])
  }

  ghost function Listing(tree: HuffQWaveletTree, x: seq<Word>, stack: seq<HuffFrame>): seq<Run> {
    Rest(tree.codesDecode, x, tree.nLevels, stack)
  }

  // ---- A frame ----

  /** A row below the prefix: it decodes to an entry within the levels and within 32 bits. */
  lemma FrameRow(tree: HuffQWaveletTree, x: seq<Word>, f: HuffFrame) returns (r: Word)
    requires TreeOk(tree, x) && FrameOk(tree.Ks(), tree.codesDecode, x, f)
    ensures r in x && PrefixOf(f) <= r && |r| <= tree.nLevels && |r| <= 16 && 2 * |r| < |tree.codesDecode|
    ensures f.level <= tree.nLevels && f.bitLen < |tree.codesDecode|
    ensures !IsLeaf(tree.codesDecode, PrefixOf(f)) ==> f.level < |r|
  {
    hide Node, SymbolWord, Decodes;
    WithPrefixElements(x, PrefixOf(f));
    r := WithPrefix(x, PrefixOf(f))[0];
    assert r in WithPrefix(x, PrefixOf(f));
    var i :| 0 <= i < |x| && x[i] == r;
    assert RowDecodes(tree.codesDecode, x[i]);
    LeafIsShort(tree.codesEncode, tree.codesDecode, tree.nLevels, 2 * |r|, Value(r));
    if |r| == f.level {
      assert r == PrefixOf(f);
    }
  }

  /** A frame whose digits are a code stands for one run. */
  lemma LeafFrame(decode: seq<seq<Entry>>, x: seq<Word>, n: nat, f: HuffFrame, entry: Entry)
    requires f.level <= 16 && f.end - f.start == |WithPrefix(x, PrefixOf(f))| > 0 && f.bitPath == Value(PrefixOf(f))
    requires 2 * f.level < |decode| && Ascending(decode[2 * f.level]) && entry in decode[2 * f.level] && entry.content == f.bitPath
    ensures CodeRuns(decode, x, PrefixOf(f), n) == [Run(entry.symbol, f.end - f.start)]
  {
    hide WithPrefix, SymbolWord;
    var p := PrefixOf(f);
    var bucket := decode[2 * |p|];
    var k :| 0 <= k < |bucket| && bucket[k] == entry;
    assert IsLeaf(decode, p);
    var m :| 0 <= m < |bucket| && bucket[m] == Entry(Value(p), SymbolOf(decode, p));
    SameContent(bucket, k, m);
  }

  lemma SameContent(bucket: seq<Entry>, k: nat, m: nat)
    requires Ascending(bucket) && k < |bucket| && m < |bucket| && bucket[k].content == bucket[m].content
    ensures k == m
  {}

  // ---- Its children ----

  ghost predicate IsChild(ks: seq<seq<int>>, f: HuffFrame, b: nat, next: HuffFrame)
    requires b < 4
  {
    && f.level < |ks| && f.start <= f.end <= |ks[f.level]|
    && next == HuffFrame(Child(ks[f.level], b, f.start), Child(ks[f.level], b, f.end), f.level + 1, 4 * f.bitPath + b, f.bitLen + 2)
  }

  lemma ChildPrefix(f: HuffFrame, b: nat)
    requires b < 4 && f.bitPath == Value(PrefixOf(f))
    ensures SymbolWord(4 * f.bitPath + b, f.level + 1) == PrefixOf(f) + [b]
    ensures Value(PrefixOf(f) + [b]) == 4 * f.bitPath + b
  {
    hide SymbolWord;
    RangeFrames.ChildPrefix(f.bitPath, f.level, b);
    ValueStep(PrefixOf(f), b);
  }

  /** A child that holds a row is a frame: its rows all end there, or it lies inside the next level. */
  lemma ChildFrame(tree: HuffQWaveletTree, x: seq<Word>, f: HuffFrame, b: nat, next: HuffFrame)
    requires TreeOk(tree, x) && FrameOk(tree.Ks(), tree.codesDecode, x, f) && !IsLeaf(tree.codesDecode, PrefixOf(f))
    requires b < 4 && IsChild(tree.Ks(), f, b, next)
    ensures PrefixOf(next) == PrefixOf(f) + [b]
    ensures next.start <= next.end && next.end - next.start == |WithPrefix(x, PrefixOf(f) + [b])|
    ensures next.start < next.end ==> FrameOk(tree.Ks(), tree.codesDecode, x, next)
  {
    hide Node, WithPrefix, Child, SymbolWord, IsLeaf, TablesAgree, RowsDecode, Value;
    var ks, p, q := tree.Ks(), PrefixOf(f), PrefixOf(f) + [b];
    ChildPrefix(f, b);
    ChildInterval(ks, x, p, b, f.start, f.end);
    if next.start < next.end {
      var r := RowOfFrame(tree, x, q);
      if !IsLeaf(tree.codesDecode, q) {
        var last := |WithPrefix(x, q)| - 1;
        InnerRows(tree.codesDecode, x, q, last);
        ChildEnds(ks, x, p, b, f.start, f.end, last);
        ChildNode(ks, x, p, b, f.start, f.end);
      }
    }
  }

  lemma RowOfFrame(tree: HuffQWaveletTree, x: seq<Word>, p: Word) returns (r: Word)
    requires TreeOk(tree, x) && |WithPrefix(x, p)| > 0
    ensures p <= r && |r| <= tree.nLevels && |r| <= 16
  {
    hide Decodes;
    WithPrefixElements(x, p);
    r := WithPrefix(x, p)[0];
    assert r in WithPrefix(x, p);
    var i :| 0 <= i < |x| && x[i] == r;
    assert RowDecodes(tree.codesDecode, x[i]);
    LeafIsShort(tree.codesEncode, tree.codesDecode, tree.nLevels, 2 * |r|, Value(r));
  }

  /** Child `b` of a frame; the path is kept in 32 bits. */
  method Branch(q: RSQVector, ghost ks: seq<seq<int>>, ghost decode: seq<seq<Entry>>, ghost x: seq<Word>, f: HuffFrame, b: nat) returns (next: HuffFrame)
    requires Levels(ks) && FrameOk(ks, decode, x, f) && !IsLeaf(decode, PrefixOf(f)) && f.level < 16 && b < 4
    requires f.level < |ks| && q.Valid() && q.Contents() == ks[f.level]
    ensures IsChild(ks, f, b, next)
  {
    hide RSQVector.Valid, RSQVector.Contents, WithPrefix, SymbolWord, Rank, OccsBelow, IsLeaf, ShiftIn32;
    ValueBound(PrefixOf(f));
    Pow4Monotone(f.level, 15);
    var lo := q.RankUnchecked(b, f.start);
    var hi := q.RankUnchecked(b, f.end);
    var offset := q.OccsSmallerUnchecked(b);
    next := HuffFrame(offset + lo, offset + hi, f.level + 1, ShiftIn32(f.bitPath, b), f.bitLen + 2);
  }

  // ---- Pushing the children ----

  /** What pushing children leaves on the stack. */
  ghost predicate Pushed(tree: HuffQWaveletTree, x: seq<Word>, cur: HuffFrame, base: seq<HuffFrame>, bit: nat, stack: seq<HuffFrame>)
    requires bit <= 4 && cur.level < tree.nLevels
  {
    && tree.Shaped() && AllOk(tree.Ks(), tree.codesDecode, x, stack)
    && |base| <= |stack| <= |base| + 4 - bit && |base| <= 3 * cur.level
    && Listing(tree, x, stack) == CodeRunsFrom(tree.codesDecode, x, PrefixOf(cur), tree.nLevels, bit) + Listing(tree, x, base)
    && (if |stack| > |base| then stack[|stack| - 1].level == cur.level + 1 else RowsFrom(x, PrefixOf(cur), bit) == 0)
  }

  lemma RestPush(tree: HuffQWaveletTree, x: seq<Word>, stack: seq<HuffFrame>, f: HuffFrame)
    ensures Listing(tree, x, stack + [f]) == CodeRuns(tree.codesDecode, x, PrefixOf(f), tree.nLevels) + Listing(tree, x, stack)
  {
    assert (stack + [f])[..|stack|] == stack;
  }

  lemma PushOne(tree: HuffQWaveletTree, x: seq<Word>, cur: HuffFrame, base: seq<HuffFrame>, bit: nat, stack: seq<HuffFrame>, next: HuffFrame)
    requires TreeOk(tree, x) && FrameOk(tree.Ks(), tree.codesDecode, x, cur) && !IsLeaf(tree.codesDecode, PrefixOf(cur))
    requires bit < 4 && cur.level < tree.nLevels && Pushed(tree, x, cur, base, bit + 1, stack) && IsChild(tree.Ks(), cur, bit, next)
    ensures next.start <= next.end
    ensures Pushed(tree, x, cur, base, bit, if next.start == next.end then stack else stack + [next])
  {
    hide FrameOk, WithPrefix, SymbolWord, IsChild, Pushed, IsLeaf;
    ChildFrame(tree, x, cur, bit, next);
    ChildLevel(tree.Ks(), cur, bit, next);
    if next.start == next.end {
      PushSkip(tree, x, cur, base, bit, stack);
    } else {
      PushMore(tree, x, cur, base, bit, stack, next);
    }
  }

  lemma PushSkip(tree: HuffQWaveletTree, x: seq<Word>, cur: HuffFrame, base: seq<HuffFrame>, bit: nat, stack: seq<HuffFrame>)
    requires bit < 4 && cur.level < tree.nLevels && Pushed(tree, x, cur, base, bit + 1, stack)
    requires |WithPrefix(x, PrefixOf(cur) + [bit])| == 0
    ensures Pushed(tree, x, cur, base, bit, stack)
  {
    hide WithPrefix, AllOk, HuffQWaveletTree.Shaped, CodeRuns, Listing, PrefixOf;
    NoRows(tree.codesDecode, x, PrefixOf(cur) + [bit], tree.nLevels);
  }

  lemma PushMore(tree: HuffQWaveletTree, x: seq<Word>, cur: HuffFrame, base: seq<HuffFrame>, bit: nat, stack: seq<HuffFrame>, next: HuffFrame)
    requires bit < 4 && cur.level < tree.nLevels && Pushed(tree, x, cur, base, bit + 1, stack)
    requires FrameOk(tree.Ks(), tree.codesDecode, x, next) && next.level == cur.level + 1 && PrefixOf(next) == PrefixOf(cur) + [bit]
    ensures Pushed(tree, x, cur, base, bit, stack + [next])
  {
    hide WithPrefix, FrameOk, HuffQWaveletTree.Shaped, CodeRuns, Listing, PrefixOf, RowsFrom;
    RestPush(tree, x, stack, next);
  }

  lemma NoRows(decode: seq<seq<Entry>>, x: seq<Word>, p: Word, n: nat)
    requires |WithPrefix(x, p)| == 0
    ensures CodeRuns(decode, x, p, n) == []
  {}

  lemma ChildLevel(ks: seq<seq<int>>, f: HuffFrame, b: nat, next: HuffFrame)
    requires b < 4 && IsChild(ks, f, b, next)
    ensures next.level == f.level + 1
  {}

  lemma PushNone(tree: HuffQWaveletTree, x: seq<Word>, cur: HuffFrame, base: seq<HuffFrame>)
    requires TreeOk(tree, x) && WalkOk(tree, x, base) && cur.level < tree.nLevels && |base| <= 3 * cur.level
    ensures Pushed(tree, x, cur, base, 4, base)
  {}

  /** The rows of an inner prefix go to its children. */
  lemma {:induction false} RowsToChildren(x: seq<Word>, p: Word)
    requires AllQuaternary(x) && forall i :: 0 <= i < |x| && p <= x[i] ==> |x[i]| > |p|
    ensures RowsFrom(x, p, 0) == |WithPrefix(x, p)|
  {
    var m := |x| - 1;
    assert RowsFrom(x, p, 2) == |WithPrefix(x, p + [2])| + |WithPrefix(x, p + [3])| by {
      assert RowsFrom(x, p, 3) == |WithPrefix(x, p + [3])| + RowsFrom(x, p, 4);
    }
    if |x| > 0 {
      RowsToChildren(x[..m], p);
      assert RowsFrom(x[..m], p, 2) == |WithPrefix(x[..m], p + [2])| + |WithPrefix(x[..m], p + [3])| by {
        assert RowsFrom(x[..m], p, 3) == |WithPrefix(x[..m], p + [3])| + RowsFrom(x[..m], p, 4);
      }
      assert Quaternary(x[m]);
      OneRowAnyLength(x, p, 0);
      OneRowAnyLength(x, p, 1);
      OneRowAnyLength(x, p, 2);
      OneRowAnyLength(x, p, 3);
    } else {
      assert RowsFrom(x, p, 1) == |WithPrefix(x, p + [1])| + RowsFrom(x, p, 2);
    }
  }

  lemma OneRowAnyLength(x: seq<Word>, p: Word, d: int)
    requires |x| > 0 && (p <= x[|x| - 1] ==> |x[|x| - 1]| > |p|)
    ensures var r := x[|x| - 1];
      |WithPrefix(x, p + [d])| == |WithPrefix(x[..|x| - 1], p + [d])| + if p <= r && r[|p|] == d then 1 else 0
  {
    var r := x[|x| - 1];
    PrefixShorter(p, d, r);
    if p <= r {
      PrefixExtends(p, d, r);
    }
  }

  lemma PushAll(tree: HuffQWaveletTree, x: seq<Word>, cur: HuffFrame, base: seq<HuffFrame>, stack: seq<HuffFrame>)
    requires TreeOk(tree, x) && FrameOk(tree.Ks(), tree.codesDecode, x, cur) && !IsLeaf(tree.codesDecode, PrefixOf(cur))
    requires cur.level < tree.nLevels && Pushed(tree, x, cur, base, 0, stack)
    ensures WalkOk(tree, x, stack)
    ensures Listing(tree, x, stack) == CodeRuns(tree.codesDecode, x, PrefixOf(cur), tree.nLevels) + Listing(tree, x, base)
    ensures |stack| > 0 && stack[|stack| - 1].level == cur.level + 1
  {
    var p := PrefixOf(cur);
    forall i | 0 <= i < |x| && p <= x[i]
      ensures |x[i]| > |p|
    {
      LongerRow(tree.codesDecode, x, p, i);
    }
    RowsToChildren(x, p);
    assert |WithPrefix(x, p)| > 0;
    RunsOfInner(tree.codesDecode, x, p, tree.nLevels);
    hide WithPrefix, PrefixOf, AllOk, HuffQWaveletTree.Shaped, IsLeaf, Listing, RowsFrom, CodeRuns, CodeRunsFrom, TreeOk;
  }

  lemma RunsOfInner(decode: seq<seq<Entry>>, x: seq<Word>, p: Word, n: nat)
    requires |WithPrefix(x, p)| > 0 && !IsLeaf(decode, p) && |p| < n
    ensures CodeRuns(decode, x, p, n) == CodeRunsFrom(decode, x, p, n, 0)
  {}

  lemma LongerRow(decode: seq<seq<Entry>>, x: seq<Word>, p: Word, i: nat)
    requires RowsDecode(decode, x) && !IsLeaf(decode, p) && i < |x| && p <= x[i]
    ensures |x[i]| > |p|
  {
    assert RowDecodes(decode, x[i]);
    WholeOrLonger(p, x[i]);
  }

  lemma WholeOrLonger(p: Word, r: Word)
    requires p <= r
    ensures r == p || |r| > |p|
  {}

  /** Children in reverse, so that the smallest digit ends on top. */
  method PushChildren(tree: HuffQWaveletTree, ghost x: seq<Word>, cur: HuffFrame, base: seq<HuffFrame>) returns (stack: seq<HuffFrame>)
    requires TreeOk(tree, x) && FrameOk(tree.Ks(), tree.codesDecode, x, cur) && !IsLeaf(tree.codesDecode, PrefixOf(cur))
    requires WalkOk(tree, x, base) && cur.level < tree.nLevels && cur.level < 16 && |base| <= 3 * cur.level
    ensures WalkOk(tree, x, stack)
    ensures Listing(tree, x, stack) == CodeRuns(tree.codesDecode, x, PrefixOf(cur), tree.nLevels) + Listing(tree, x, base)
    ensures |stack| > 0 && stack[|stack| - 1].level == cur.level + 1
  {
    tree.OneLevel(cur.level);
    hide WalkOk, Listing, FrameOk, TreeOk, Pushed, IsChild, RSQVector.Valid, RSQVector.Contents, IsLeaf;
    stack := base;
    PushNone(tree, x, cur, base);
    var bit := 4;
    while bit > 0
      invariant 0 <= bit <= 4 && Pushed(tree, x, cur, base, bit, stack)
    {
      bit := bit - 1;
      var next := Branch(tree.qvs[cur.level], tree.Ks(), tree.codesDecode, x, cur, bit);
      PushOne(tree, x, cur, base, bit, stack, next);
      if next.start != next.end {
        stack := stack + [next];
      }
    }
    PushAll(tree, x, cur, base, stack);
  }

  // ---- The iterator ----

  class HuffOccsRangeIter {
    const tree: HuffQWaveletTree
    var stack: seq<HuffFrame>
    ghost const x: seq<Word>

    ghost predicate Valid()
      reads this
    {
      WalkOk(tree, x, stack)
    }

    /** The runs still to come. */
    ghost function Remaining(): seq<Run>
      reads this
    {
      Listing(tree, x, stack)
    }

    constructor (tree: HuffQWaveletTree, stack: seq<HuffFrame>, ghost x: seq<Word>)
      requires WalkOk(tree, x, stack)
      ensures this.tree == tree && this.stack == stack && this.x == x && Valid()
    {
      this.tree := tree;
      this.stack := stack;
      this.x := x;
    }

    method Next() returns (r: Option<Run>)
      requires Valid()
      modifies this
      ensures Valid()
      ensures r.None? ==> old(Remaining()) == [] == Remaining()
      ensures r.Some? ==> old(Remaining()) == [r.value] + Remaining()
      ensures r.Some? ==> |stack| <= 3 * tree.nLevels + 1
    {
      hide *;
      EmptyListing(tree, x);
      while |stack| > 0
        invariant Valid() && Remaining() == old(Remaining())
        decreases Depth()
      {
        r := Pop();
        if r.Some? {
          return;
        }
      }
      Exhausted();
      r := None;
    }

    /** Levels below the top of the stack, plus one; 0 for an empty stack. */
    ghost function Depth(): nat
      reads this
    {
      if |stack| > 0 && stack[|stack| - 1].level <= tree.nLevels then tree.nLevels + 1 - stack[|stack| - 1].level else 0
    }

    lemma Exhausted()
      requires |stack| == 0
      ensures Remaining() == []
    {}

    /** One round of `next`: a code is delivered, another frame is replaced by its children. */
    method Pop() returns (r: Option<Run>)
      requires Valid() && |stack| > 0
      modifies this
      ensures Valid()
      ensures r.Some? ==> old(Remaining()) == [r.value] + Remaining() && |stack| <= 3 * tree.nLevels + 1
      ensures r.None? ==> Remaining() == old(Remaining()) && Depth() < old(Depth())
    {
      hide WalkOk, Listing, FrameOk, TreeOk, AllOk, CodeRuns, IsLeaf, Ascending;
      WalkPop(tree, x, stack);
      var cur := stack[|stack| - 1];
      stack := stack[..|stack| - 1];
      ghost var row := FrameRow(tree, x, cur);
      AscendingBuckets(tree, x);
      var leaves := tree.codesDecode[cur.bitLen];
      var idx := Search(leaves, cur.bitPath);
      FrameFacts(tree, x, cur);
      if idx.Some? {
        var leaf := leaves[idx.value];
        LeafFrame(tree.codesDecode, x, tree.nLevels, cur, leaf);
        WalkBound(tree, x, stack);
        return Some(Run(leaf.symbol, cur.end - cur.start));
      }
      NotALeaf(tree.codesDecode, cur);
      stack := PushChildren(tree, x, cur, stack);
      r := None;
    }

    /** All that `next` will still deliver. */
    method Collect() returns (runs: seq<Run>)
      requires Valid()
      modifies this
      ensures Valid() && runs == old(Remaining()) && Remaining() == []
    {
      hide *;
      runs := [];
      ghost var all := Remaining();
      var r := Next();
      while r.Some?
        invariant Valid()
        invariant all == runs + (if r.Some? then [r.value] else []) + Remaining()
        invariant r.None? ==> Remaining() == []
        decreases |Remaining()|, r.Some?
      {
        runs := runs + [r.value];
        r := Next();
      }
    }
  }

  lemma FrameFacts(tree: HuffQWaveletTree, x: seq<Word>, f: HuffFrame)
    requires TreeOk(tree, x) && FrameOk(tree.Ks(), tree.codesDecode, x, f)
    ensures f.bitLen == 2 * f.level && f.level <= 16 && f.bitPath == Value(PrefixOf(f))
    ensures f.start < f.end && f.end - f.start == |WithPrefix(x, PrefixOf(f))|
  {}

  lemma NotALeaf(decode: seq<seq<Entry>>, f: HuffFrame)
    requires f.bitLen == 2 * f.level < |decode| && f.bitPath == Value(PrefixOf(f))
    requires forall i :: 0 <= i < |decode[f.bitLen]| ==> decode[f.bitLen][i].content != f.bitPath
    ensures !IsLeaf(decode, PrefixOf(f))
  {}

  lemma AscendingBuckets(tree: HuffQWaveletTree, x: seq<Word>)
    requires TreeOk(tree, x)
    ensures forall m :: 0 <= m < |tree.codesDecode| ==> Ascending(tree.codesDecode[m])
  {
    AllAscending(tree.codesEncode, tree.codesDecode, tree.nLevels);
  }

  lemma EmptyListing(tree: HuffQWaveletTree, x: seq<Word>)
    ensures Listing(tree, x, []) == []
  {}

  /** The top frame leaves the stack. */
  lemma WalkPop(tree: HuffQWaveletTree, x: seq<Word>, stack: seq<HuffFrame>)
    requires WalkOk(tree, x, stack) && |stack| > 0
    ensures var top, base := stack[|stack| - 1], stack[..|stack| - 1];
      && TreeOk(tree, x) && WalkOk(tree, x, base)
      && FrameOk(tree.Ks(), tree.codesDecode, x, top) && |base| <= 3 * top.level
      && Listing(tree, x, stack) == CodeRuns(tree.codesDecode, x, PrefixOf(top), tree.nLevels) + Listing(tree, x, base)
  {
    hide FrameOk, CodeRuns, HuffQWaveletTree.Shaped;
  }

  lemma WalkBound(tree: HuffQWaveletTree, x: seq<Word>, stack: seq<HuffFrame>)
    requires WalkOk(tree, x, stack)
    ensures |stack| <= 3 * tree.nLevels + 1
  {
    if |stack| > 0 {
      WalkPop(tree, x, stack);
      var row := FrameRow(tree, x, stack[|stack| - 1]);
    }
  }

  // ---- The range ----

  /** One pair: the symbol of an entry for zero digits, with the whole range. */
  ghost predicate OnlyEmptyCode(runs: seq<Run>, decode: seq<seq<Entry>>, count: nat) {
    |runs| == 1 && runs[0].count == count && |decode| > 0 && exists e :: e in decode[0] && e.content == 0 && e.symbol == runs[0].symbol
  }

  lemma RootFrameOk(tree: HuffQWaveletTree, s: seq<nat>, start: nat, end: nat)
    requires tree.Serves(s) && start < end <= |s|
    ensures Labels(s, tree.codesEncode) && Labels(s[start..end], tree.codesEncode)
    ensures TablesAgree(tree.codesEncode, tree.codesDecode, tree.nLevels)
    ensures var x := CodeRows(s[start..end], tree.codesEncode);
      WalkOk(tree, x, [HuffFrame(start, end, 0, 0, 0)]) && DecodedRows(tree.codesDecode, x, tree.nLevels)
  {
    hide CodeWord, PathWord, IsLeaf, Decodes, Fits, NoneBeyond, RSQVector.Valid, RSQVector.Contents, RowDecodes, GoodCode, Node, SymbolWord;
    tree.Shape(s);
    ServesAccepted(tree, s);
    WindowLabels(s, tree.codesEncode, start, end);
    var x, f := CodeRows(s[start..end], tree.codesEncode), HuffFrame(start, end, 0, 0, 0);
    PathRowsShape(tree.Ks(), tree.n);
    WindowDecodes(tree.codesDecode, PathRows(tree.Ks(), tree.n), x, start, end, tree.nLevels);
    WindowNode(tree.Ks(), tree.n, x, start, end);
    assert PrefixOf(f) == [] && Value([]) == 0;
    OneFrame(tree, x, f);
  }

  lemma OneFrame(tree: HuffQWaveletTree, x: seq<Word>, f: HuffFrame)
    requires TreeOk(tree, x) && FrameOk(tree.Ks(), tree.codesDecode, x, f)
    ensures WalkOk(tree, x, [f])
  {}

  lemma WindowDecodes(decode: seq<seq<Entry>>, w: seq<Word>, x: seq<Word>, start: nat, end: nat, n: nat)
    requires RowsDecode(decode, w) && AllQuaternary(w) && start <= end <= |w| && x == w[start..end]
    requires forall i :: 0 <= i < |w| ==> 0 < |w[i]| <= n
    ensures DecodedRows(decode, x, n)
  {
    hide RowDecodes, Quaternary;
  }

  /** The root interval of a window. */
  lemma WindowNode(ks: seq<seq<int>>, n: nat, x: seq<Word>, start: nat, end: nat)
    requires Levels(ks) && |ks| > 0 && n <= |ks[0]| && start <= end <= n && x == PathRows(ks, n)[start..end]
    ensures Node(ks, x, [], start, end) && |WithPrefix(x, [])| == end - start
  {
    hide PathWord;
    WithEmptyPrefix(x);
    forall i | start <= i < end
      ensures x[i - start] == PathWord(ks, 0, i)
    {
      assert PathRows(ks, n)[i] == PathWord(ks, 0, i);
    }
  }

  lemma WindowLabels(s: seq<nat>, codes: seq<PrefixCode>, start: nat, end: nat)
    requires Labels(s, codes) && start <= end <= |s|
    ensures Labels(s[start..end], codes) && CodeRows(s[start..end], codes) == CodeRows(s, codes)[start..end]
  {
    hide CodeWord, GoodCode, Different;
  }

  /**
   `occs_range` on the range `[start, end)`: every symbol of the range once with its
   count, exactly when the table has no entry for zero digits; else the symbol of that entry alone.
   */
  method OccsRange(tree: HuffQWaveletTree, ghost s: seq<nat>, start: nat, end: nat) returns (r: Option<HuffOccsRangeIter>)
    requires tree.Serves(s)
    ensures r.None? <==> end > |s| || start > end
    ensures r.Some? ==> fresh(r.value) && r.value.Valid()
    ensures r.Some? && start == end ==> r.value.Remaining() == []
    ensures r.Some? && start < end ==> (Tally(r.value.Remaining(), s[start..end]) <==> !HasEntry(tree.codesDecode, 0, 0))
    ensures r.Some? && start < end && HasEntry(tree.codesDecode, 0, 0) ==>
      OnlyEmptyCode(r.value.Remaining(), tree.codesDecode, end - start)
  {
    hide HuffQWaveletTree.Serves, WalkOk, Listing, Tally, Labels, HasEntry, TablesAgree, DecodedRows, OnlyEmptyCode;
    SameLength(tree, s);
    if end > tree.n || start > end {
      return None;
    }
    EmptyListing(tree, []);
    if start == end {
      NoFrames(tree);
      var none := new HuffOccsRangeIter(tree, [], []);
      return Some(none);
    }
    RootFrameOk(tree, s, start, end);
    RootListing(tree, s, start, end);
    var it := new HuffOccsRangeIter(tree, [HuffFrame(start, end, 0, 0, 0)], CodeRows(s[start..end], tree.codesEncode));
    return Some(it);
  }

  lemma SameLength(tree: HuffQWaveletTree, s: seq<nat>)
    requires tree.Serves(s)
    ensures tree.n == |s|
  {}

  lemma NoFrames(tree: HuffQWaveletTree)
    ensures WalkOk(tree, [], [])
  {}

  lemma RootListing(tree: HuffQWaveletTree, s: seq<nat>, start: nat, end: nat)
    requires start < end <= |s| && Labels(s[start..end], tree.codesEncode)
    requires TablesAgree(tree.codesEncode, tree.codesDecode, tree.nLevels)
    requires DecodedRows(tree.codesDecode, CodeRows(s[start..end], tree.codesEncode), tree.nLevels)
    ensures CodesCover(s[start..end], tree.codesEncode)
    ensures Tally(Listing(tree, CodeRows(s[start..end], tree.codesEncode), [HuffFrame(start, end, 0, 0, 0)]), s[start..end])
       <==> !HasEntry(tree.codesDecode, 0, 0)
    ensures HasEntry(tree.codesDecode, 0, 0) ==>
      OnlyEmptyCode(Listing(tree, CodeRows(s[start..end], tree.codesEncode), [HuffFrame(start, end, 0, 0, 0)]), tree.codesDecode, end - start)
  {
    hide TablesAgree, DecodedRows, Tally, CodeRuns, HasEntry;
    var t, f := s[start..end], HuffFrame(start, end, 0, 0, 0);
    var x := CodeRows(t, tree.codesEncode);
    WindowTally(tree.codesEncode, tree.codesDecode, tree.nLevels, t);
    RestPush(tree, x, [], f);
    assert [] + [f] == [f];
    assert PrefixOf(f) == [] && Value([]) == 0;
    EmptyListing(tree, x);
    var runs := CodeRuns(tree.codesDecode, x, [], tree.nLevels);
    assert runs + [] == runs;
    assert IsLeaf(tree.codesDecode, []) <==> HasEntry(tree.codesDecode, 0, 0);
    if IsLeaf(tree.codesDecode, []) {
      EmptyCodeRun(tree.codesDecode, x, tree.nLevels);
    }
  }

  /** An entry for zero digits ends every row at once. */
  lemma EmptyCodeRun(decode: seq<seq<Entry>>, x: seq<Word>, n: nat)
    requires |x| > 0 && IsLeaf(decode, [])
    ensures OnlyEmptyCode(CodeRuns(decode, x, [], n), decode, |x|)
  {
    WithEmptyPrefix(x);
    assert Value([]) == 0;
  }

  /** A tree from construction never has such an entry. */
  lemma BuiltHasNoEmptyCode(tree: HuffQWaveletTree, s: seq<nat>)
    requires tree.Represents(s)
    ensures !HasEntry(tree.codesDecode, 0, 0)
  {}

  /** The checks do let one through: symbol 1 has no digits, and the walk over the text `[0]` lists it. */
  lemma EmptyCodeAccepted(q: RSQVector, encode: seq<PrefixCode>, decode: seq<seq<Entry>>)
    requires q.Valid() && q.Contents() == [0]
    requires encode == [PrefixCode(0, 2), PrefixCode(0, 0)] && decode == [[Entry(0, 1)], [], [Entry(0, 0)]]
    ensures OwnedAcceptable(1, 1, encode, decode, [q], [1]) && HasEntry(decode, 0, 0)
  {
    hide RSQVector.Valid, RSQVector.Contents, TablesAgree;
    EmptyCodeTables(encode, decode);
    CodeOfZero();
    var ks := ContentsOf([q]);
    assert ks[0] == [0] && decode[0][0].content == 0 && decode[2][0].content == 0;
    assert PathPos(ks, [0], 1, 0) == 1;
    assert PathWord(ks, 0, 0) == [0];
    assert Value([0]) == 0 && IsLeaf(decode, [0]);
    assert RowDecodes(decode, PathRows(ks, 1)[0]);
  }

  lemma CodeOfZero()
    ensures CodeWord(PrefixCode(0, 2)) == [0] && Pow4(1) == 4
  {
    assert Pow4(0) == 1;
    assert CodeWord(PrefixCode(0, 2))[0] == 0;
  }

  lemma EmptyCodeTables(encode: seq<PrefixCode>, decode: seq<seq<Entry>>)
    requires encode == [PrefixCode(0, 2), PrefixCode(0, 0)] && decode == [[Entry(0, 1)], [], [Entry(0, 0)]]
    ensures TablesAgree(encode, decode, 1)
  {
    CodeOfZero();
    assert Entry(0, 0) in decode[2];
    assert BucketOf(decode[0], 0, encode, 2) && BucketOf(decode[1], 1, encode, 2) && BucketOf(decode[2], 2, encode, 2);
  }
}
