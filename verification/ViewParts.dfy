/** Opening a plain tree as a view: the largest symbol is found by one walk along the largest digits. */
module ViewParts {
  import opened Wrappers
  import opened RankSelect
  import opened StablePartition
  import opened Arithmetic
  import opened Words
  import opened WaveletMatrix
  import opened CraftCodes
  import opened RSQVectors
  import opened SymbolWords
  import opened LevelSteps
  import opened QuadWavelet
  import opened BuildQuadWavelet
  import opened RangeRuns
  import opened RangeFrames
  import opened BulkExtract
  import opened LevelStacks
  import opened PlainParts

  /** The last run below `p` is the last run below its largest child that holds rows. */
  lemma LastChild(x: seq<Word>, p: Word, n: nat, d: nat)
    requires |p| < n && d < 4 && |WithPrefix(x, p)| > 0
    requires |Runs(x, p + [d], n)| > 0 && forall b :: d < b < 4 ==> |WithPrefix(x, p + [b])| == 0
    ensures |Runs(x, p, n)| > 0 && Runs(x, p, n)[|Runs(x, p, n)| - 1] == Runs(x, p + [d], n)[|Runs(x, p + [d], n)| - 1]
  {
    RunsOfChildren(x, p, n);
    hide Runs;
    LastFrom(x, p, n, d, 0);
  }

  lemma {:induction false} LastFrom(x: seq<Word>, p: Word, n: nat, d: nat, b: nat)
    requires |p| < n && b <= d < 4
    requires |Runs(x, p + [d], n)| > 0 && forall b :: d < b < 4 ==> |WithPrefix(x, p + [b])| == 0
    ensures |RunsFrom(x, p, n, b)| > 0
    ensures RunsFrom(x, p, n, b)[|RunsFrom(x, p, n, b)| - 1] == Runs(x, p + [d], n)[|Runs(x, p + [d], n)| - 1]
    decreases d - b
  {
    hide Runs, WithPrefix;
    if b < d {
      LastFrom(x, p, n, d, b + 1);
    } else {
      NothingFrom(x, p, n, b + 1);
    }
  }

  lemma {:induction false} NothingFrom(x: seq<Word>, p: Word, n: nat, b: nat)
    requires |p| < n && b <= 4 && forall c :: b <= c < 4 ==> |WithPrefix(x, p + [c])| == 0
    ensures RunsFrom(x, p, n, b) == []
    decreases 4 - b
  {
    hide Runs;
    if b < 4 {
      NothingFrom(x, p, n, b + 1);
      NoRows(x, p + [b], n);
    }
  }

  lemma LastIsMax(t: seq<nat>, runs: seq<Run>)
    requires |t| > 0 && DistinctRuns(runs, t)
    ensures |runs| > 0 && runs[|runs| - 1].symbol >= 0 && MaxSymbol(t, runs[|runs| - 1].symbol)
  {
    hide Rank;
    assert t[0] in t;
    var k :| 0 <= k < |runs| && runs[k].symbol == t[0];
    forall i | 0 <= i < |t|
      ensures t[i] < runs[|runs| - 1].symbol + 1
    {
      assert t[i] in t;
      var j :| 0 <= j < |runs| && runs[j].symbol == t[i];
    }
  }

  // ---- The walk ----

  ghost function Root(qvs: seq<RSQVector>, n: nat): seq<Run>
    requires AllLevelsValid(qvs) && Stack(ContentsOf(qvs), n)
  {
    Runs(DecodedRows(ContentsOf(qvs), n), [], |qvs|)
  }

  /** The node of `f` holds the largest symbol. */
  ghost predicate HoldsMax(qvs: seq<RSQVector>, n: nat, f: Frame)
    requires AllLevelsValid(qvs) && Stack(ContentsOf(qvs), n)
  {
    var w := DecodedRows(ContentsOf(qvs), n);
    var runs := Runs(w, PrefixOf(f), |qvs|);
    && FrameOk(w, w, |qvs|, f)
    && |runs| > 0 && |Root(qvs, n)| > 0 && runs[|runs| - 1] == Root(qvs, n)[|Root(qvs, n)| - 1]
  }

  lemma StackRows(qvs: seq<RSQVector>, n: nat)
    requires AllLevelsValid(qvs) && Stack(ContentsOf(qvs), n) && 0 < |qvs| <= 32
    ensures var w := DecodedRows(ContentsOf(qvs), n);
      RowsOk(w, w, |qvs|) && w == Rows(DecodedText(ContentsOf(qvs), n), |qvs|)
    ensures Below(DecodedText(ContentsOf(qvs), n), Pow4(|qvs|))
  {
    hide Decoded;
    DecodedTextRows(ContentsOf(qvs), n);
    RowsShape(DecodedText(ContentsOf(qvs), n), |qvs|);
  }

  lemma StackStores(qvs: seq<RSQVector>, n: nat, l: nat)
    requires AllLevelsValid(qvs) && Stack(ContentsOf(qvs), n) && l < |qvs|
    ensures Stores(qvs[l], Level(DecodedRows(ContentsOf(qvs), n), l), l)
  {
    hide Level, DecodedRows, RSQVector.Valid, RSQVector.Contents;
    StackIsMatrix(ContentsOf(qvs), n, l);
  }

  lemma StartMax(qvs: seq<RSQVector>, n: nat)
    requires AllLevelsValid(qvs) && Stack(ContentsOf(qvs), n) && 0 < |qvs| <= 32 && n > 0
    ensures HoldsMax(qvs, n, Frame(0, n, 0, 0))
    ensures DistinctRuns(Root(qvs, n), DecodedText(ContentsOf(qvs), n))
  {
    hide Decoded, WithPrefix, Runs, SymbolWord, RSQVector.Valid, RSQVector.Contents, Stack, Level, DecodedRows, DecodedText, DistinctRuns, FrameOk, Trace;
    var s := DecodedText(ContentsOf(qvs), n);
    StackRows(qvs, n);
    RootFrame(s, |qvs|, 0, n);
    assert s[0..n] == s;
    assert [Frame(0, n, 0, 0)][0] == Frame(0, n, 0, 0);
    assert PrefixOf(Frame(0, n, 0, 0)) == [];
    WithEmptyPrefix(DecodedRows(ContentsOf(qvs), n));
    RunsSomething(DecodedRows(ContentsOf(qvs), n), [], |qvs|);
  }

  /** The largest digit that still has rows, with its child. */
  method LargestChild(qvs: seq<RSQVector>, n: nat, cur: Frame) returns (next: Frame)
    requires AllLevelsValid(qvs) && Stack(ContentsOf(qvs), n) && 0 < |qvs| <= 32
    requires HoldsMax(qvs, n, cur) && cur.level < |qvs|
    ensures HoldsMax(qvs, n, next) && next.level == cur.level + 1
  {
    hide RSQVector.Valid, RSQVector.Contents, Level, WithPrefix, SymbolWord, Rank, Stack, DecodedRows, FrameOk, RowsOk, IsChild, Runs, Root;
    ghost var w := DecodedRows(ContentsOf(qvs), n);
    StackRows(qvs, n);
    StackStores(qvs, n, cur.level);
    var q := qvs[cur.level];
    SingleRange(w, w, |qvs|, cur);
    var ranksStart := q.RankAllUnchecked(cur.start);
    var ranksEnd := q.RankAllUnchecked(cur.end);
    var digit: nat := 3;
    var child := ChildOfRanks(q, w, w, |qvs|, cur, digit, ranksStart[digit], ranksEnd[digit]);
    ChildRows(w, w, |qvs|, cur, digit, child);
    while digit > 0 && ranksEnd[digit] <= ranksStart[digit]
      invariant digit < 4 && IsChild(w, cur, digit, child)
      invariant child.start <= child.end && child.end - child.start == |WithPrefix(w, PrefixOf(cur) + [digit])|
      invariant ranksEnd[digit] <= ranksStart[digit] <==> child.start == child.end
      invariant forall b :: digit < b < 4 ==> |WithPrefix(w, PrefixOf(cur) + [b])| == 0
    {
      digit := digit - 1;
      child := ChildOfRanks(q, w, w, |qvs|, cur, digit, ranksStart[digit], ranksEnd[digit]);
      ChildRows(w, w, |qvs|, cur, digit, child);
    }
    MaxGoesDown(qvs, n, cur, digit, child);
    next := child;
  }

  lemma ChildRows(w: seq<Word>, x: seq<Word>, n: nat, f: Frame, b: nat, child: Frame)
    requires RowsOk(w, x, n) && FrameOk(w, x, n, f) && f.level < n && b < 4 && IsChild(w, f, b, child)
    ensures child.start <= child.end && child.end - child.start == |WithPrefix(x, PrefixOf(f) + [b])|
    ensures var k := Digits(Level(w, f.level), f.level);
      f.start <= f.end <= |k| && child.end - child.start == Rank(k, b, f.end) - Rank(k, b, f.start)
  {
    ChildFrame(w, x, n, f, b, child);
  }

  lemma MaxGoesDown(qvs: seq<RSQVector>, n: nat, cur: Frame, d: nat, child: Frame)
    requires AllLevelsValid(qvs) && Stack(ContentsOf(qvs), n) && 0 < |qvs| <= 32
    requires HoldsMax(qvs, n, cur) && cur.level < |qvs| && d < 4
    requires var w := DecodedRows(ContentsOf(qvs), n);
      IsChild(w, cur, d, child) && forall b :: d < b < 4 ==> |WithPrefix(w, PrefixOf(cur) + [b])| == 0
    requires d == 0 || |WithPrefix(DecodedRows(ContentsOf(qvs), n), PrefixOf(cur) + [d])| > 0
    ensures HoldsMax(qvs, n, child) && child.level == cur.level + 1
  {
    hide RSQVector.Valid, RSQVector.Contents, Level, WithPrefix, SymbolWord, Stack, DecodedRows, Runs, Root, Child;
    var w, p := DecodedRows(ContentsOf(qvs), n), PrefixOf(cur);
    StackRows(qvs, n);
    ChildFrame(w, w, |qvs|, cur, d, child);
    RowsSplit(w, p, |qvs|);
    SumOfRows(w, p);
    RunsSomething(w, p + [d], |qvs|);
    LastChild(w, p, |qvs|, d);
  }

  lemma SumOfRows(x: seq<Word>, p: Word)
    ensures RowsFrom(x, p, 0)
         == |WithPrefix(x, p + [0])| + |WithPrefix(x, p + [1])| + |WithPrefix(x, p + [2])| + |WithPrefix(x, p + [3])|
  {
    hide WithPrefix;
    assert RowsFrom(x, p, 2) == |WithPrefix(x, p + [2])| + |WithPrefix(x, p + [3])|;
  }

  /** The largest decoded symbol, from one path. */
  method WalkSigma(qvs: seq<RSQVector>, n: nat) returns (sigma: nat)
    requires AllLevelsValid(qvs) && Stack(ContentsOf(qvs), n) && n > 0 && 0 < |qvs| <= 32
    ensures MaxSymbol(DecodedText(ContentsOf(qvs), n), sigma)
  {
    hide *;
    StartMax(qvs, n);
    var cur := Frame(0, n, 0, 0);
    while cur.level < |qvs|
      invariant cur.level <= |qvs| && HoldsMax(qvs, n, cur)
    {
      cur := LargestChild(qvs, n, cur);
    }
    EndMax(qvs, n, cur);
    sigma := cur.bitPath;
  }

  lemma EndMax(qvs: seq<RSQVector>, n: nat, f: Frame)
    requires AllLevelsValid(qvs) && Stack(ContentsOf(qvs), n) && n > 0 && 0 < |qvs| <= 32
    requires HoldsMax(qvs, n, f) && f.level == |qvs|
    requires DistinctRuns(Root(qvs, n), DecodedText(ContentsOf(qvs), n))
    ensures MaxSymbol(DecodedText(ContentsOf(qvs), n), f.bitPath)
  {
    hide RSQVector.Valid, WithPrefix, SymbolWord, Stack, DecodedRows, Runs, DistinctRuns, MaxSymbol;
    var w := DecodedRows(ContentsOf(qvs), n);
    LeafRun(w, w, |qvs|, f);
    LastIsMax(DecodedText(ContentsOf(qvs), n), Root(qvs, n));
  }

  /** `QwtView::from_bytes` after its levels have been opened; `sigma` comes from a 64-bit field. */
  method OpenView(n: nat, nLevels: nat, sigma: nat, levels: seq<RSQVector>, typeLevels: nat) returns (r: Option<QWaveletTree>)
    requires AllLevelsValid(levels) && |levels| == nLevels && sigma < Pow4(32)
    ensures r.Some? <==> Acceptable(n, nLevels, sigma, levels, typeLevels)
    ensures r.Some? ==> r.value == QWaveletTree(n, nLevels, sigma, levels) && r.value.Represents(TextOf(n, levels))
  {
    hide RSQVector.Valid, Stack, MaxSymbol, LevelsFor, DecodedText, QWaveletTree.Represents, Pow4;
    if nLevels > MAX_QUAD_LEVELS || nLevels > typeLevels || (n > 0 && nLevels == 0) || (n == 0 && (nLevels != 0 || sigma != 0)) {
      return None;
    }
    var same := SameLengths(levels, n);
    if !same {
      LengthsMatter(n, nLevels, sigma, levels, typeLevels);
      return None;
    }
    if n > 0 && nLevels != LevelsFor(sigma) {
      return None;
    }
    if n > 0 {
      FewLevels(sigma);
      var actualSigma := WalkSigma(levels, n);
      if actualSigma != sigma {
        OtherMax(DecodedText(ContentsOf(levels), n), actualSigma, sigma);
        return None;
      }
    }
    AcceptedRepresents(n, nLevels, sigma, levels, typeLevels);
    return Some(QWaveletTree(n, nLevels, sigma, levels));
  }

  lemma LengthsMatter(n: nat, nLevels: nat, sigma: nat, levels: seq<RSQVector>, typeLevels: nat)
    requires AllLevelsValid(levels) && |levels| == nLevels && !Stack(ContentsOf(levels), n)
    ensures !Acceptable(n, nLevels, sigma, levels, typeLevels)
  {
    hide RSQVector.Valid, RSQVector.Contents;
  }
}
