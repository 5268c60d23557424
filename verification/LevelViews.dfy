/**
 The validator of a level read from untrusted bytes: every stored counter is
 recomputed from the encoded symbols, so that what it accepts answers rank and
 select as construction would.
 */
module LevelViews {
  import opened Wrappers
  import opened RankSelect
  import opened Arithmetic
  import opened StablePartition
  import opened QuadVector
  import opened Superblock
  import opened RankSupport
  import opened BuildSupport
  import opened IntraBlock
  import opened RSQVectors

  // ---- What is accepted ----

  /** The five child offsets are the counts of smaller symbols. */
  ghost predicate OffsetsOk(q: seq<int>, nOccsSmaller: seq<nat>) {
    |nOccsSmaller| == 5 && forall d: nat :: d <= 4 ==> nOccsSmaller[d] == OccsBelow(q, d)
  }

  /** Right samples; for an absent symbol the filler only has to name a superblock. */
  ghost predicate SamplesFit(q: seq<int>, b: nat, s: nat, samples: seq<nat>)
    requires BlockSize(b)
  {
    SamplesOk(q, b, s, samples) && (Occs(q, s) == 0 ==> samples[0] <= |q| / (b * 8))
  }

  ghost predicate WellFormed(qv: QVector, support: RSSupportPlain, nOccsSmaller: seq<nat>)
    requires BlockSize(support.b) && |support.selectSamples| == 4
  {
    && qv.Valid()
    && OffsetsOk(qv.Contents(), nOccsSmaller)
    && SuperblocksOk(qv.Contents(), support.b, support.superblocks)
    && forall s :: 0 <= s < 4 ==> SamplesFit(qv.Contents(), support.b, s, support.selectSamples[s])
  }

  /** Soundness: an accepted level is a vector on which every query is exact. */
  lemma WellFormedIsValid(qv: QVector, support: RSSupportPlain, nOccsSmaller: seq<nat>)
    requires BlockSize(support.b) && |support.selectSamples| == 4 && WellFormed(qv, support, nOccsSmaller)
    ensures RSQVector(qv, support, nOccsSmaller).Valid()
  {
    hide SuperblocksOk, SamplesOk;
    assert forall s :: 0 <= s < 4 ==> SamplesFit(qv.Contents(), support.b, s, support.selectSamples[s]);
  }

  /** Completeness: what construction leaves is accepted. */
  lemma BuiltIsWellFormed(qv: QVector, support: RSSupportPlain, nOccsSmaller: seq<nat>)
    requires qv.Valid() && BlockSize(support.b) && OffsetsOk(qv.Contents(), nOccsSmaller)
    requires IsFinalSuperblocks(qv.Contents(), support.b, support.superblocks)
    requires IsFinalSamples(qv.Contents(), support.b, support.selectSamples)
    ensures WellFormed(qv, support, nOccsSmaller)
  {
    var q := qv.Contents();
    FinalSupports(q, support);
    forall s | 0 <= s < 4
      ensures SamplesFit(q, support.b, s, support.selectSamples[s])
    {
      FinalSamplesOk(q, support.b, s);
      SamplesUpToOk(q, support.b, s, |q|);
    }
  }

  // ---- Counters against the symbols ----

  ghost predicate SuperAt(q: seq<int>, b: nat, t: nat, sb: SuperblockPlain)
    requires sb.Valid()
  {
    Base(b, t) <= |q| && forall s: nat :: s < 4 ==> sb.SuperblockCounter(s) == Rank(q, s, Base(b, t))
  }

  ghost predicate BlockAt(q: seq<int>, b: nat, t: nat, k: nat, sb: SuperblockPlain)
    requires sb.Valid() && k < 8
  {
    && Base(b, t) <= |q| && BlockStart(b, t, k) <= |q|
    && forall s: nat :: s < 4 ==> sb.BlockCounter(s, k) == Rank(q, s, BlockStart(b, t, k)) - Rank(q, s, Base(b, t))
  }

  ghost predicate SentinelAt(q: seq<int>, b: nat, t: nat, k: nat, sb: SuperblockPlain)
    requires sb.Valid() && k < 8
  {
    Base(b, t) <= |q| && forall s: nat :: s < 4 ==> sb.BlockCounter(s, k) == Rank(q, s, |q|) - Rank(q, s, Base(b, t))
  }

  ghost predicate AllValid(superblocks: seq<SuperblockPlain>) {
    forall t :: 0 <= t < |superblocks| ==> superblocks[t].Valid()
  }

  /** Counters of all superblocks and blocks that start before `limit` are right. */
  ghost predicate CheckedTo(q: seq<int>, b: nat, superblocks: seq<SuperblockPlain>, limit: nat)
    requires AllValid(superblocks)
  {
    && (forall t :: 0 <= t < |superblocks| && Base(b, t) < limit ==> SuperAt(q, b, t, superblocks[t]))
    && forall t, k: nat :: 0 <= t < |superblocks| && k < 8 && BlockStart(b, t, k) < limit ==> BlockAt(q, b, t, k, superblocks[t])
  }

  ghost predicate TotalsAt(q: seq<int>, i: nat, totals: seq<nat>) {
    i <= |q| && |totals| == 4 && forall s: nat :: s < 4 ==> totals[s] == Rank(q, s, i)
  }

  /** Are the counters of superblock `sb` the given totals? */
  method SameCounters(sb: SuperblockPlain, totals: seq<nat>) returns (ok: bool)
    requires sb.Valid() && |totals| == 4
    ensures ok <==> forall s: nat :: s < 4 ==> sb.SuperblockCounter(s) == totals[s]
  {
    hide SuperblockPlain.SuperblockCounter;
    var s := 0;
    while s < 4
      invariant 0 <= s <= 4
      invariant forall k: nat :: k < s ==> sb.SuperblockCounter(k) == totals[k]
    {
      if sb.SuperblockCounter(s) != totals[s] {
        return false;
      }
      s := s + 1;
    }
    return true;
  }

  method SameBlockCounters(sb: SuperblockPlain, k: nat, totals: seq<nat>, base: seq<nat>) returns (ok: bool)
    requires sb.Valid() && k < 8 && |totals| == 4 && |base| == 4 && forall s :: 0 <= s < 4 ==> base[s] <= totals[s]
    ensures ok <==> forall s: nat :: s < 4 ==> sb.BlockCounter(s, k) == totals[s] - base[s]
  {
    hide SuperblockPlain.BlockCounter;
    var s := 0;
    while s < 4
      invariant 0 <= s <= 4
      invariant forall j: nat :: j < s ==> sb.BlockCounter(j, k) == totals[j] - base[j]
    {
      if sb.BlockCounter(s, k) != totals[s] - base[s] {
        return false;
      }
      s := s + 1;
    }
    return true;
  }

  /** Adds the symbols of one block, line by line. */
  method CountBlock(qv: QVector, blockStart: nat, blockEnd: nat, totals: seq<nat>) returns (r: seq<nat>)
    requires qv.Valid() && blockStart <= blockEnd <= qv.Len() && TotalsAt(qv.Contents(), blockStart, totals)
    ensures TotalsAt(qv.Contents(), blockEnd, r)
  {
    hide Rank, QVector.Valid, QVector.Contents;
    ghost var q := qv.Contents();
    r := totals;
    var position := blockStart;
    while position < blockEnd
      invariant blockStart <= position <= blockEnd && TotalsAt(q, position, r)
    {
      var lineStart := position % 256;
      var lineEnd := if blockEnd <= position / 256 * 256 + 256 then blockEnd else position / 256 * 256 + 256;
      var lineLen := lineEnd - position;
      var endRanks := RankAllOfLine(qv, position / 256, lineStart + lineLen);
      var startRanks := [0, 0, 0, 0];
      if lineStart != 0 {
        startRanks := RankAllOfLine(qv, position / 256, lineStart);
      }
      forall s: nat | s < 4
        ensures startRanks[s] <= endRanks[s] && endRanks[s] + Rank(q, s, position) == startRanks[s] + Rank(q, s, lineEnd)
      {
        RankMonotone(q, s, position, lineEnd);
      }
      r := [r[0] + (endRanks[0] - startRanks[0]), r[1] + (endRanks[1] - startRanks[1]),
            r[2] + (endRanks[2] - startRanks[2]), r[3] + (endRanks[3] - startRanks[3])];
      position := lineEnd;
    }
  }

  /** A right counter elsewhere says nothing about position `i`. */
  lemma CheckedNext(q: seq<int>, b: nat, superblocks: seq<SuperblockPlain>, i: nat)
    requires BlockSize(b) && AllValid(superblocks) && i <= |q| && |superblocks| == |q| / (b * 8) + 1
    requires CheckedTo(q, b, superblocks, i)
    ensures i / (b * 8) < |superblocks|
    ensures CheckedTo(q, b, superblocks, i + 1) <==>
      && (i % (b * 8) == 0 ==> SuperAt(q, b, i / (b * 8), superblocks[i / (b * 8)]))
      && (i % b == 0 ==> BlockAt(q, b, i / (b * 8), i / b % 8, superblocks[i / (b * 8)]))
  {
    hide SuperAt, BlockAt;
    DivMonotone(i, |q|, b * 8);
    LocateBlock(b, i);
    forall t: nat, k: nat | t < |superblocks| && k < 8
      ensures BlockStart(b, t, k) == i <==> i % b == 0 && t == i / (b * 8) && k == i / b % 8
    {
      BlockStartUnique(b, t, k, i);
    }
    forall t: nat | t < |superblocks|
      ensures Base(b, t) == i <==> i % (b * 8) == 0 && t == i / (b * 8)
    {
      BaseHere(b, t, i);
    }
  }

  lemma BaseHere(b: nat, t: nat, i: nat)
    requires BlockSize(b)
    ensures Base(b, t) == i <==> i % (b * 8) == 0 && t == i / (b * 8)
  {
    if Base(b, t) == i {
      ModUnique(i, b * 8, t, 0);
    }
  }

  /** Between two block starts nothing is stored. */
  lemma CheckedSkip(q: seq<int>, b: nat, superblocks: seq<SuperblockPlain>, i: nat, j: nat)
    requires BlockSize(b) && AllValid(superblocks) && i <= j <= |q| && |superblocks| == |q| / (b * 8) + 1
    requires CheckedTo(q, b, superblocks, i) && forall p :: i <= p < j ==> p % b != 0
    ensures CheckedTo(q, b, superblocks, j)
    decreases j - i
  {
    if i < j {
      assert i % b != 0;
      MultipleOf(b, i);
      CheckedNext(q, b, superblocks, i);
      CheckedSkip(q, b, superblocks, i + 1, j);
    }
  }

  lemma MultipleOf(b: nat, i: nat)
    requires BlockSize(b)
    ensures i % (b * 8) == 0 ==> i % b == 0
  {}

  // ---- The pass over the blocks ----

  /** Counts at position `i`, and at the start of its superblock. */
  ghost predicate BaseAt(q: seq<int>, b: nat, i: nat, totals: seq<nat>, base: seq<nat>)
    requires BlockSize(b)
  {
    TotalsAt(q, i, totals) && Base(b, i / (b * 8)) <= i && TotalsAt(q, Base(b, i / (b * 8)), base)
  }

  /** State before the checks at position `i`; `base` is still that of the block before. */
  ghost predicate PassAt(q: seq<int>, b: nat, i: nat, totals: seq<nat>, base: seq<nat>)
    requires BlockSize(b)
  {
    TotalsAt(q, i, totals) && |base| == 4 && (i % (b * 8) != 0 ==> BaseAt(q, b, i, totals, base))
  }

  /** The checks at one position of the pass. */
  method CheckPosition(ghost q: seq<int>, b: nat, superblocks: seq<SuperblockPlain>, i: nat, totals: seq<nat>, base: seq<nat>)
    returns (ok: bool, base': seq<nat>)
    requires BlockSize(b) && AllValid(superblocks) && i <= |q| && |superblocks| == |q| / (b * 8) + 1
    requires PassAt(q, b, i, totals, base) && CheckedTo(q, b, superblocks, i)
    ensures ok <==> CheckedTo(q, b, superblocks, i + 1)
    ensures ok ==> BaseAt(q, b, i, totals, base')
  {
    hide Rank, CheckedTo, SuperblockPlain.SuperblockCounter, SuperblockPlain.BlockCounter;
    CheckedNext(q, b, superblocks, i);
    LocateBlock(b, i);
    base' := base;
    var t := i / (b * 8);
    if i % (b * 8) == 0 {
      BaseHere(b, t, i);
      var same := SameCounters(superblocks[t], totals);
      if !same {
        return false, base;
      }
      base' := totals;
    }
    if i % b == 0 {
      BaseBelow(q, b, i, totals, base');
      BlockStartUnique(b, t, i / b % 8, i);
      ok := SameBlockCounters(superblocks[t], i / b % 8, totals, base');
    } else {
      ok := true;
    }
  }

  lemma BaseBelow(q: seq<int>, b: nat, i: nat, totals: seq<nat>, base: seq<nat>)
    requires BlockSize(b) && BaseAt(q, b, i, totals, base)
    ensures forall s :: 0 <= s < 4 ==> base[s] <= totals[s]
  {
    forall s: nat | s < 4
      ensures base[s] <= totals[s]
    {
      RankMonotone(q, s, Base(b, i / (b * 8)), i);
    }
  }

  /** Is every counter of the blocks that start in the level right? */
  method CheckBlocks(qv: QVector, b: nat, superblocks: seq<SuperblockPlain>) returns (ok: bool, totals: seq<nat>, base: seq<nat>)
    requires qv.Valid() && BlockSize(b) && AllValid(superblocks) && |superblocks| == qv.Len() / (b * 8) + 1
    ensures ok <==> CheckedTo(qv.Contents(), b, superblocks, qv.Len() + 1)
    ensures ok ==> BaseAt(qv.Contents(), b, qv.Len(), totals, base)
  {
    hide Rank, CheckedTo, QVector.Valid, QVector.Contents, BaseAt;
    ghost var q := qv.Contents();
    totals, base := [0, 0, 0, 0], [0, 0, 0, 0];
    assert TotalsAt(q, 0, totals) by { NoTotals(q); }
    NothingChecked(q, b, superblocks);
    var blockStart := 0;
    while true
      invariant blockStart <= qv.Len() && (blockStart < qv.Len() ==> blockStart % b == 0)
      invariant PassAt(q, b, blockStart, totals, base) && CheckedTo(q, b, superblocks, blockStart)
      decreases qv.Len() - blockStart
    {
      ok, base := CheckPosition(q, b, superblocks, blockStart, totals, base);
      if !ok {
        CheckedPrefix(q, b, superblocks, blockStart + 1, qv.Len() + 1);
        return;
      }
      if blockStart == qv.Len() {
        return;
      }
      var blockEnd := if blockStart + b <= qv.Len() then blockStart + b else qv.Len();
      NextStart(q, b, superblocks, blockStart, blockEnd, totals, base);
      ghost var was := totals;
      totals := CountBlock(qv, blockStart, blockEnd, totals);
      BaseKept(q, b, blockStart, blockEnd, was, totals, base);
      blockStart := blockEnd;
    }
  }

  lemma NoTotals(q: seq<int>)
    ensures TotalsAt(q, 0, [0, 0, 0, 0])
  {}

  lemma NothingChecked(q: seq<int>, b: nat, superblocks: seq<SuperblockPlain>)
    requires AllValid(superblocks)
    ensures CheckedTo(q, b, superblocks, 0)
  {}

  lemma CheckedPrefix(q: seq<int>, b: nat, superblocks: seq<SuperblockPlain>, i: nat, j: nat)
    requires AllValid(superblocks) && i <= j
    ensures CheckedTo(q, b, superblocks, j) ==> CheckedTo(q, b, superblocks, i)
  {}

  /** From a block start to the next one, or to the end. */
  lemma NextStart(q: seq<int>, b: nat, superblocks: seq<SuperblockPlain>, i: nat, j: nat, totals: seq<nat>, base: seq<nat>)
    requires BlockSize(b) && AllValid(superblocks) && |superblocks| == |q| / (b * 8) + 1
    requires i < j <= |q| && i % b == 0 && (j == i + b || (j == |q| && j < i + b))
    requires CheckedTo(q, b, superblocks, i + 1)
    ensures CheckedTo(q, b, superblocks, j) && (j < |q| ==> j % b == 0)
  {
    forall p | i + 1 <= p < j
      ensures p % b != 0
    {
      ModUnique(p, b, i / b, p - i);
    }
    CheckedSkip(q, b, superblocks, i + 1, j);
  }

  lemma BaseKept(q: seq<int>, b: nat, i: nat, j: nat, was: seq<nat>, totals: seq<nat>, base: seq<nat>)
    requires BlockSize(b) && i % b == 0 && i < j <= |q| && j <= i + b
    requires BaseAt(q, b, i, was, base) && TotalsAt(q, j, totals)
    ensures PassAt(q, b, j, totals, base)
  {
    if j % (b * 8) != 0 {
      SameSuperblock(b, i, j);
    }
  }

  lemma SameSuperblock(b: nat, i: nat, j: nat)
    requires BlockSize(b) && i % b == 0 && i < j <= i + b && j % (b * 8) != 0
    ensures j / (b * 8) == i / (b * 8)
  {
    var t, k := i / b / 8, i / b % 8;
    LocateBlock(b, i);
    assert i == Base(b, t) + k * b;
    assert j <= Base(b, t) + 8 * b;
    if j == Base(b, t) + 8 * b {
      ModUnique(j, b * 8, t + 1, 0);
    }
    ModUnique(j, b * 8, t, j - Base(b, t));
  }

  // ---- Offsets and the sentinel block ----

  /** All counters of all superblocks, given those of the blocks that start in the level. */
  lemma CheckedIsOk(q: seq<int>, b: nat, superblocks: seq<SuperblockPlain>)
    requires BlockSize(b) && AllValid(superblocks) && |superblocks| == |q| / (b * 8) + 1
    ensures var t := |q| / (b * 8); var k := |q| / b % 8 + 1;
      SuperblocksOk(q, b, superblocks) <==>
        CheckedTo(q, b, superblocks, |q| + 1) && (k < 8 ==> SentinelAt(q, b, t, k, superblocks[t]))
  {
    hide SuperblockPlain.SuperblockCounter, SuperblockPlain.BlockCounter, Rank;
    forall t | 0 <= t < |superblocks|
      ensures Base(b, t) <= |q|
    {
      DivAtLeast(|q|, b * 8, t);
    }
    if CheckedTo(q, b, superblocks, |q| + 1) && (|q| / b % 8 + 1 < 8 ==>
         SentinelAt(q, b, |q| / (b * 8), |q| / b % 8 + 1, superblocks[|q| / (b * 8)])) {
      forall t | 0 <= t < |superblocks|
        ensures SuperblockOk(q, b, t, superblocks[t])
      {
        CheckedSuperblock(q, b, superblocks, t);
      }
    }
    if SuperblocksOk(q, b, superblocks) {
      OkIsChecked(q, b, superblocks);
    }
  }

  lemma CheckedSuperblock(q: seq<int>, b: nat, superblocks: seq<SuperblockPlain>, t: nat)
    requires BlockSize(b) && AllValid(superblocks) && |superblocks| == |q| / (b * 8) + 1 && t < |superblocks|
    requires Base(b, t) <= |q| && CheckedTo(q, b, superblocks, |q| + 1)
    requires |q| / b % 8 + 1 < 8 ==> SentinelAt(q, b, |q| / (b * 8), |q| / b % 8 + 1, superblocks[|q| / (b * 8)])
    ensures SuperblockOk(q, b, t, superblocks[t])
  {
    hide SuperblockPlain.SuperblockCounter, SuperblockPlain.BlockCounter, Rank, Base;
    assert SuperAt(q, b, t, superblocks[t]);
    forall k: nat | k < 8 && BlockStart(b, t, k) <= |q|
      ensures BlockAt(q, b, t, k, superblocks[t])
    {}
    forall k: nat | 0 < k < 8 && BlockStart(b, t, k - 1) <= |q| < BlockStart(b, t, k)
      ensures SentinelAt(q, b, t, k, superblocks[t])
    {
      SentinelOnly(b, |q|, t, k);
    }
  }

  lemma OkIsChecked(q: seq<int>, b: nat, superblocks: seq<SuperblockPlain>)
    requires BlockSize(b) && AllValid(superblocks) && SuperblocksOk(q, b, superblocks)
    ensures CheckedTo(q, b, superblocks, |q| + 1)
    ensures var t := |q| / (b * 8); var k := |q| / b % 8 + 1;
      t < |superblocks| && (k < 8 ==> SentinelAt(q, b, t, k, superblocks[t]))
  {
    hide SuperblockPlain.SuperblockCounter, SuperblockPlain.BlockCounter, Rank, Base;
    forall t | 0 <= t < |superblocks|
      ensures SuperAt(q, b, t, superblocks[t])
      ensures forall k: nat :: k < 8 && BlockStart(b, t, k) < |q| + 1 ==> BlockAt(q, b, t, k, superblocks[t])
    {
      assert SuperblockOk(q, b, t, superblocks[t]);
    }
    var t, k := |q| / (b * 8), |q| / b % 8 + 1;
    assert SuperblockOk(q, b, t, superblocks[t]);
    if k < 8 {
      SentinelOnly(b, |q|, t, k);
    }
  }

  /** Offsets that grow from zero to the length by the right steps are the child offsets. */
  lemma OffsetsFromTotals(q: seq<int>, nOccsSmaller: seq<nat>, totals: seq<nat>)
    requires Bounded(q, 4) && |nOccsSmaller| == 5 && TotalsAt(q, |q|, totals)
    ensures OffsetsOk(q, nOccsSmaller) <==>
      && nOccsSmaller[0] == 0 && nOccsSmaller[4] == |q|
      && (forall d :: 0 <= d < 4 ==> nOccsSmaller[d] <= nOccsSmaller[d + 1])
      && forall d :: 0 <= d < 4 ==> nOccsSmaller[d] + totals[d] == nOccsSmaller[d + 1]
  {
    hide Rank;
    OccsBelowTotal(q, 4);
    var n := nOccsSmaller;
    assert OccsBelow(q, 0) == 0;
    assert forall d: nat :: d < 4 ==> OccsBelow(q, d + 1) == OccsBelow(q, d) + totals[d];
    if (forall d :: 0 <= d < 4 ==> n[d] + totals[d] == n[d + 1]) && n[0] == 0 {
      assert n[1] == OccsBelow(q, 1);
      assert n[2] == OccsBelow(q, 2);
      assert n[3] == OccsBelow(q, 3);
      assert n[4] == OccsBelow(q, 4);
    }
  }

  // ---- Samples ----

  /** The sampled superblock against the counters around it. */
  ghost predicate SampleFits(superblocks: seq<SuperblockPlain>, s: nat, target: nat, sb: nat)
    requires AllValid(superblocks) && s < 4
  {
    && sb < |superblocks| && superblocks[sb].SuperblockCounter(s) <= target
    && (sb + 1 < |superblocks| ==> superblocks[sb + 1].SuperblockCounter(s) > target)
  }

  lemma SampleFitsIsOk(q: seq<int>, b: nat, superblocks: seq<SuperblockPlain>, s: nat, target: nat, sb: nat)
    requires BlockSize(b) && AllValid(superblocks) && SuperblocksOk(q, b, superblocks) && s < 4
    ensures SampleFits(superblocks, s, target, sb) <==> SampleOk(q, b, s, target, sb)
  {
    hide SuperblockPlain.SuperblockCounter, SuperblockPlain.BlockCounter, Rank, Base;
    BaseInsideIff(b, |q|, sb);
    BaseInsideIff(b, |q|, sb + 1);
    if sb < |superblocks| {
      assert SuperblockOk(q, b, sb, superblocks[sb]);
    }
    if sb + 1 < |superblocks| {
      assert SuperblockOk(q, b, sb + 1, superblocks[sb + 1]);
    }
  }

  lemma BaseInsideIff(b: nat, n: nat, t: nat)
    requires b > 0
    ensures Base(b, t) <= n <==> t < n / (b * 8) + 1
  {
    DivAtLeast(n, b * 8, t);
  }

  /** Samples that name the right superblocks are in order. */
  lemma SamplesInOrder(q: seq<int>, b: nat, s: nat, samples: seq<nat>)
    requires BlockSize(b) && SamplesFit(q, b, s, samples)
    ensures forall k :: 0 <= k < |samples| ==> samples[k] <= |q| / (b * 8)
    ensures forall k :: 0 <= k < |samples| - 1 ==> samples[k] <= samples[k + 1]
  {
    hide Rank;
    var last := |samples| - 1;
    forall k: nat | k < last && Occs(q, s) > 0
      ensures samples[k] <= |q| / (b * 8) && (k + 1 < last ==> samples[k] <= samples[k + 1])
    {
      assert SampleOk(q, b, s, k * SELECT_NUM_SAMPLES, samples[k]);
      BaseInside(b, |q|, samples[k]);
      if k + 1 < last {
        assert SampleOk(q, b, s, (k + 1) * SELECT_NUM_SAMPLES, samples[k + 1]);
        NotBefore(q, b, s, k * SELECT_NUM_SAMPLES, (k + 1) * SELECT_NUM_SAMPLES, samples[k], samples[k + 1]);
      }
    }
  }

  lemma NotBefore(q: seq<int>, b: nat, s: nat, i: nat, j: nat, x: nat, y: nat)
    requires BlockSize(b) && i <= j && SampleOk(q, b, s, i, x) && SampleOk(q, b, s, j, y)
    ensures x <= y
  {
    if y < x {
      MulGap(y, x, b * 8);
      RankMonotone(q, s, Base(b, y + 1), Base(b, x));
    }
  }

  /** Number of samples of a symbol, with its sentinel. */
  function SampleCount(occurrences: nat): nat {
    if occurrences == 0 then 2 else (occurrences - 1) / SELECT_NUM_SAMPLES + 2
  }

  method Monotone(samples: seq<nat>) returns (ok: bool)
    ensures ok <==> forall k :: 0 <= k < |samples| - 1 ==> samples[k] <= samples[k + 1]
  {
    var k := 1;
    while k < |samples|
      invariant 1 <= k && (|samples| > 0 ==> k <= |samples|) && (|samples| == 0 ==> k == 1)
      invariant forall j :: 0 <= j < k - 1 ==> samples[j] <= samples[j + 1]
    {
      if samples[k - 1] > samples[k] {
        return false;
      }
      k := k + 1;
    }
    return true;
  }

  method AtMost(samples: seq<nat>, bound: nat) returns (ok: bool)
    ensures ok <==> forall k :: 0 <= k < |samples| ==> samples[k] <= bound
  {
    var k := 0;
    while k < |samples|
      invariant 0 <= k <= |samples| && forall j :: 0 <= j < k ==> samples[j] <= bound
    {
      if samples[k] > bound {
        return false;
      }
      k := k + 1;
    }
    return true;
  }

  /** The checks on the samples of one symbol. */
  method CheckSamples(ghost q: seq<int>, b: nat, superblocks: seq<SuperblockPlain>, s: nat, samples: seq<nat>, occurrences: nat)
    returns (ok: bool)
    requires BlockSize(b) && AllValid(superblocks) && SuperblocksOk(q, b, superblocks) && s < 4 && occurrences == Occs(q, s)
    requires |superblocks| <= 0x1_0000_0000
    ensures ok <==> SamplesFit(q, b, s, samples)
  {
    hide SuperblocksOk, Rank, SampleFits;
    var lastSuperblock := |superblocks| - 1;
    SuperblockCount(q, b, superblocks);
    if SamplesFit(q, b, s, samples) {
      SamplesInOrder(q, b, s, samples);
    }
    var monotone := Monotone(samples);
    var inRange := AtMost(samples, lastSuperblock);
    if |samples| != SampleCount(occurrences) || samples[|samples| - 1] != lastSuperblock % 0x1_0000_0000 || !monotone || !inRange {
      return false;
    }
    if occurrences == 0 {
      return true;
    }
    var nNonSentinel := |samples| - 1;
    var k := 0;
    while k < nNonSentinel
      invariant 0 <= k <= nNonSentinel
      invariant forall j :: 0 <= j < k ==> SampleOk(q, b, s, j * SELECT_NUM_SAMPLES, samples[j])
    {
      var target := k * SELECT_NUM_SAMPLES;
      var sb := samples[k];
      SampleFitsIsOk(q, b, superblocks, s, target, sb);
      var fits := CheckSample(superblocks, s, target, sb);
      if !fits {
        return false;
      }
      k := k + 1;
    }
    return true;
  }

  lemma SuperblockCount(q: seq<int>, b: nat, superblocks: seq<SuperblockPlain>)
    requires BlockSize(b) && SuperblocksOk(q, b, superblocks)
    ensures |superblocks| == |q| / (b * 8) + 1
  {}

  method CheckSample(superblocks: seq<SuperblockPlain>, s: nat, target: nat, sb: nat) returns (ok: bool)
    requires AllValid(superblocks) && s < 4 && sb < |superblocks|
    ensures ok <==> SampleFits(superblocks, s, target, sb)
  {
    hide SuperblockPlain.SuperblockCounter;
    if superblocks[sb].SuperblockCounter(s) > target {
      return false;
    }
    if sb + 1 < |superblocks| && superblocks[sb + 1].SuperblockCounter(s) <= target {
      return false;
    }
    return true;
  }

  // ---- The closing sweep over the counters ----

  /** Symbols in superblock `t` of a level of `len` symbols. */
  function SymbolsIn(b: nat, len: nat, t: nat): (r: nat)
    ensures r <= b * 8
  {
    if len <= Base(b, t) then 0 else if len - Base(b, t) < b * 8 then len - Base(b, t) else b * 8
  }

  /** Blocks of a superblock whose counters belong to the level. */
  function ValidBlocks(b: nat, symbols: nat): (r: nat)
    requires BlockSize(b)
    ensures r <= 8
  {
    if symbols == b * 8 then 8 else if symbols / b + 1 < 8 then symbols / b + 1 else 8
  }

  ghost predicate BlocksSwept(sb: SuperblockPlain, s: nat, symbols: nat, blocks: nat)
    requires sb.Valid() && s < 4 && blocks <= 8
  {
    forall k: nat :: k < blocks ==>
      sb.BlockCounter(s, k) <= symbols && (k > 0 ==> sb.BlockCounter(s, k - 1) <= sb.BlockCounter(s, k))
  }

  ghost predicate SuperSwept(superblocks: seq<SuperblockPlain>, b: nat, len: nat, s: nat, t: nat)
    requires AllValid(superblocks) && BlockSize(b) && s < 4 && t < |superblocks|
  {
    && superblocks[t].SuperblockCounter(s) <= len
    && (t > 0 ==>
          && superblocks[t - 1].SuperblockCounter(s) <= superblocks[t].SuperblockCounter(s)
          && superblocks[t].SuperblockCounter(s) - superblocks[t - 1].SuperblockCounter(s) <= b * 8)
    && BlocksSwept(superblocks[t], s, SymbolsIn(b, len, t), ValidBlocks(b, SymbolsIn(b, len, t)))
  }

  ghost predicate Swept(superblocks: seq<SuperblockPlain>, b: nat, len: nat)
    requires AllValid(superblocks) && BlockSize(b)
  {
    forall s: nat, t: nat :: s < 4 && t < |superblocks| ==> SuperSwept(superblocks, b, len, s, t)
  }

  method SweepBlocks(sb: SuperblockPlain, s: nat, symbols: nat, blocks: nat) returns (ok: bool)
    requires sb.Valid() && s < 4 && blocks <= 8
    ensures ok <==> BlocksSwept(sb, s, symbols, blocks)
  {
    hide SuperblockPlain.BlockCounter;
    var previousBlock, k := 0, 0;
    while k < blocks
      invariant 0 <= k <= blocks && BlocksSwept(sb, s, symbols, k)
      invariant k > 0 ==> previousBlock == sb.BlockCounter(s, k - 1)
      invariant k == 0 ==> previousBlock == 0
    {
      var rank := sb.BlockCounter(s, k);
      if rank < previousBlock || rank > symbols {
        return false;
      }
      previousBlock := rank;
      k := k + 1;
    }
    return true;
  }

  method Sweep(superblocks: seq<SuperblockPlain>, b: nat, len: nat) returns (ok: bool)
    requires AllValid(superblocks) && BlockSize(b)
    ensures ok <==> Swept(superblocks, b, len)
  {
    hide SuperSwept;
    var s := 0;
    while s < 4
      invariant 0 <= s <= 4
      invariant forall r: nat, t: nat :: r < s && t < |superblocks| ==> SuperSwept(superblocks, b, len, r, t)
    {
      ok := SweepSymbol(superblocks, b, len, s);
      if !ok {
        return false;
      }
      s := s + 1;
    }
    return true;
  }

  method SweepSymbol(superblocks: seq<SuperblockPlain>, b: nat, len: nat, s: nat) returns (ok: bool)
    requires AllValid(superblocks) && BlockSize(b) && s < 4
    ensures ok <==> forall t: nat :: t < |superblocks| ==> SuperSwept(superblocks, b, len, s, t)
  {
    hide SuperblockPlain.SuperblockCounter, BlocksSwept;
    var previous, index := 0, 0;
    while index < |superblocks|
      invariant 0 <= index <= |superblocks|
      invariant forall t: nat :: t < index ==> SuperSwept(superblocks, b, len, s, t)
      invariant index > 0 ==> previous == superblocks[index - 1].SuperblockCounter(s)
      invariant index == 0 ==> previous == 0
    {
      var prefix := superblocks[index].SuperblockCounter(s);
      if prefix < previous || prefix > len {
        assert !SuperSwept(superblocks, b, len, s, index);
        return false;
      }
      if index > 0 && prefix - previous > b * 8 {
        assert !SuperSwept(superblocks, b, len, s, index);
        return false;
      }
      var symbols := SymbolsIn(b, len, index);
      var blocks := SweepBlocks(superblocks[index], s, symbols, ValidBlocks(b, symbols));
      if !blocks {
        assert !SuperSwept(superblocks, b, len, s, index);
        return false;
      }
      previous := prefix;
      index := index + 1;
    }
    return true;
  }

  /** Right counters always pass the sweep: it refuses nothing that got this far. */
  lemma RightCountersSweep(q: seq<int>, b: nat, superblocks: seq<SuperblockPlain>)
    requires BlockSize(b) && AllValid(superblocks) && SuperblocksOk(q, b, superblocks)
    ensures Swept(superblocks, b, |q|)
  {
    hide SuperblockPlain.SuperblockCounter, SuperblockPlain.BlockCounter, SuperblocksOk, SuperSwept;
    forall s: nat, t: nat | s < 4 && t < |superblocks|
      ensures SuperSwept(superblocks, b, |q|, s, t)
    {
      RightSuperSwept(q, b, superblocks, s, t);
    }
  }

  lemma RightSuperSwept(q: seq<int>, b: nat, superblocks: seq<SuperblockPlain>, s: nat, t: nat)
    requires BlockSize(b) && AllValid(superblocks) && SuperblocksOk(q, b, superblocks) && s < 4 && t < |superblocks|
    ensures SuperSwept(superblocks, b, |q|, s, t)
  {
    hide SuperblockPlain.SuperblockCounter, SuperblockPlain.BlockCounter, Rank, BlocksSwept;
    assert SuperblockOk(q, b, t, superblocks[t]);
    RankMonotone(q, s, 0, Base(b, t));
    if t > 0 {
      assert SuperblockOk(q, b, t - 1, superblocks[t - 1]);
      assert Base(b, t) == Base(b, t - 1) + b * 8;
      RankMonotone(q, s, Base(b, t - 1), Base(b, t));
    }
    RightBlocksSwept(q, b, superblocks[t], s, t);
  }

  lemma RightBlocksSwept(q: seq<int>, b: nat, sb: SuperblockPlain, s: nat, t: nat)
    requires BlockSize(b) && SuperblockOk(q, b, t, sb) && s < 4
    ensures BlocksSwept(sb, s, SymbolsIn(b, |q|, t), ValidBlocks(b, SymbolsIn(b, |q|, t)))
  {
    hide SuperblockPlain.SuperblockCounter, SuperblockPlain.BlockCounter, Rank;
    var symbols := SymbolsIn(b, |q|, t);
    forall k: nat | k < ValidBlocks(b, symbols)
      ensures sb.BlockCounter(s, k) <= symbols && (k > 0 ==> sb.BlockCounter(s, k - 1) <= sb.BlockCounter(s, k))
    {
      BlockInLevel(b, |q|, t, k);
      RankMonotone(q, s, Base(b, t), BlockStart(b, t, k));
      if k > 0 {
        BlockOrder(b, t, k - 1, k);
        RankMonotone(q, s, BlockStart(b, t, k - 1), BlockStart(b, t, k));
      }
    }
  }

  lemma BlockInLevel(b: nat, len: nat, t: nat, k: nat)
    requires BlockSize(b) && Base(b, t) <= len && k < ValidBlocks(b, SymbolsIn(b, len, t))
    ensures Base(b, t) <= BlockStart(b, t, k) <= len && k * b <= SymbolsIn(b, len, t)
  {
    var symbols := SymbolsIn(b, len, t);
    if symbols == b * 8 {
      MulMonotone(b, k, 8);
    } else {
      DivAtLeast(symbols, b, k);
    }
  }

  // ---- The validator ----

  /**
   `from_dir`, on the slices it has cut out of the file. A level is refused (`None`)
   exactly when it is not well formed.
   */
  method FromDir(b: nat, data: seq<DataLine>, positionBits: nat, superblocks: seq<SuperblockPlain>,
                 selectSamples: seq<seq<nat>>, nOccsSmaller: seq<nat>) returns (r: Option<RSQVector>)
    requires BlockSize(b) && |data| < 0x1_0000_0000 && (forall l :: 0 <= l < |data| ==> ValidLine(data[l]))
    requires AllValid(superblocks) && |selectSamples| == 4 && |nOccsSmaller| == 5
    ensures r.Some? <==> WellFormed(QVector(data, positionBits), RSSupportPlain(b, superblocks, selectSamples), nOccsSmaller)
    ensures r.Some? ==> r.value == RSQVector(QVector(data, positionBits), RSSupportPlain(b, superblocks, selectSamples), nOccsSmaller)
    ensures r.Some? ==> r.value.Valid()
  {
    hide SuperblocksOk, SamplesFit, OffsetsOk, CheckedTo, Swept, SentinelAt, BaseAt, RSQVector.Valid;
    if positionBits % 2 != 0 {
      return None;
    }
    if positionBits > |data| * 512 {
      return None;
    }
    var qv := QVector(data, positionBits);
    ghost var q := qv.Contents();
    var len := qv.Len();
    var offsets := OffsetsGrow(q, nOccsSmaller, len);
    if !offsets {
      return None;
    }
    if |superblocks| != len / (b * 8) + 1 {
      WrongCount(q, b, superblocks);
      return None;
    }
    var counters := CheckCounters(qv, b, superblocks, nOccsSmaller);
    if !counters {
      return None;
    }
    FewSuperblocks(b, len, |data|);
    var samples := CheckAllSamples(q, b, superblocks, selectSamples, nOccsSmaller);
    if !samples {
      return None;
    }
    var swept := Sweep(superblocks, b, len);
    RightCountersSweep(q, b, superblocks);
    WellFormedIsValid(qv, RSSupportPlain(b, superblocks, selectSamples), nOccsSmaller);
    r := if swept then Some(RSQVector(qv, RSSupportPlain(b, superblocks, selectSamples), nOccsSmaller)) else None;
  }

  lemma WrongCount(q: seq<int>, b: nat, superblocks: seq<SuperblockPlain>)
    requires BlockSize(b) && |superblocks| != |q| / (b * 8) + 1
    ensures !SuperblocksOk(q, b, superblocks)
  {}

  lemma FewSuperblocks(b: nat, len: nat, lines: nat)
    requires BlockSize(b) && len <= lines * 256 && lines < 0x1_0000_0000
    ensures len / (b * 8) + 1 <= 0x1_0000_0000
  {}

  /** Offsets monotone from zero through the length. */
  method OffsetsGrow(ghost q: seq<int>, nOccsSmaller: seq<nat>, len: nat) returns (ok: bool)
    requires |nOccsSmaller| == 5 && Bounded(q, 4) && len == |q|
    ensures ok <==> nOccsSmaller[0] == 0 && nOccsSmaller[4] == len && forall d :: 0 <= d < 4 ==> nOccsSmaller[d] <= nOccsSmaller[d + 1]
    ensures !ok ==> !OffsetsOk(q, nOccsSmaller)
  {
    OccsBelowTotal(q, 4);
    assert forall d: nat :: d < 4 ==> OccsBelow(q, d + 1) == OccsBelow(q, d) + Occs(q, d);
    hide OccsBelow, Rank;
    var monotone := Monotone(nOccsSmaller);
    ok := nOccsSmaller[0] == 0 && nOccsSmaller[4] == len && monotone;
    assert OccsBelow(q, 0) == 0;
  }

  /** Rank counters and child offsets. */
  method CheckCounters(qv: QVector, b: nat, superblocks: seq<SuperblockPlain>, nOccsSmaller: seq<nat>) returns (ok: bool)
    requires qv.Valid() && BlockSize(b) && AllValid(superblocks) && |superblocks| == qv.Len() / (b * 8) + 1
    requires |nOccsSmaller| == 5 && nOccsSmaller[0] == 0 && nOccsSmaller[4] == qv.Len()
    requires forall d :: 0 <= d < 4 ==> nOccsSmaller[d] <= nOccsSmaller[d + 1]
    ensures ok <==> SuperblocksOk(qv.Contents(), b, superblocks) && OffsetsOk(qv.Contents(), nOccsSmaller)
  {
    hide SuperblocksOk, OffsetsOk, CheckedTo, QVector.Contents, Rank, BaseAt, SuperblockPlain.BlockCounter;
    ghost var q := qv.Contents();
    CheckedIsOk(q, b, superblocks);
    var blocks, totals, base := CheckBlocks(qv, b, superblocks);
    if !blocks {
      return false;
    }
    var currentSuperblock := qv.Len() / (b * 8);
    var sentinelBlock := qv.Len() / b % 8 + 1;
    EndTotals(q, b, totals, base);
    if sentinelBlock < 8 {
      var sentinel := SameBlockCounters(superblocks[currentSuperblock], sentinelBlock, totals, base);
      if !sentinel {
        return false;
      }
    }
    OffsetsFromTotals(q, nOccsSmaller, totals);
    var d := 0;
    while d < 4
      invariant 0 <= d <= 4
      invariant forall e :: 0 <= e < d ==> nOccsSmaller[e] + totals[e] == nOccsSmaller[e + 1]
    {
      if nOccsSmaller[d + 1] - nOccsSmaller[d] != totals[d] {
        return false;
      }
      d := d + 1;
    }
    return true;
  }

  lemma EndTotals(q: seq<int>, b: nat, totals: seq<nat>, base: seq<nat>)
    requires BlockSize(b) && BaseAt(q, b, |q|, totals, base)
    ensures TotalsAt(q, |q|, totals) && |base| == 4 && Base(b, |q| / (b * 8)) <= |q|
    ensures forall s: nat :: s < 4 ==> totals[s] == Rank(q, s, |q|) && base[s] == Rank(q, s, Base(b, |q| / (b * 8))) && base[s] <= totals[s]
  {
    BaseBelow(q, b, |q|, totals, base);
  }

  method CheckAllSamples(ghost q: seq<int>, b: nat, superblocks: seq<SuperblockPlain>, selectSamples: seq<seq<nat>>, nOccsSmaller: seq<nat>)
    returns (ok: bool)
    requires BlockSize(b) && AllValid(superblocks) && SuperblocksOk(q, b, superblocks) && |superblocks| <= 0x1_0000_0000
    requires |selectSamples| == 4 && OffsetsOk(q, nOccsSmaller)
    ensures ok <==> forall s :: 0 <= s < 4 ==> SamplesFit(q, b, s, selectSamples[s])
  {
    hide SuperblocksOk, SamplesFit;
    var s := 0;
    while s < 4
      invariant 0 <= s <= 4
      invariant forall k :: 0 <= k < s ==> SamplesFit(q, b, k, selectSamples[k])
    {
      OffsetStep(q, nOccsSmaller, s);
      var fits := CheckSamples(q, b, superblocks, s, selectSamples[s], nOccsSmaller[s + 1] - nOccsSmaller[s]);
      if !fits {
        return false;
      }
      s := s + 1;
    }
    return true;
  }

  lemma OffsetStep(q: seq<int>, nOccsSmaller: seq<nat>, s: nat)
    requires OffsetsOk(q, nOccsSmaller) && s < 4
    ensures |nOccsSmaller| == 5 && nOccsSmaller[s + 1] - nOccsSmaller[s] == Occs(q, s)
  {
    assert OccsBelow(q, s + 1) == OccsBelow(q, s) + Occs(q, s);
  }

  /** A level that construction built is accepted back unchanged. */
  method Reopen(v: RSQVector) returns (r: Option<RSQVector>)
    requires v.Valid() && BlockSize(v.rsSupport.b) && |v.qv.data| < 0x1_0000_0000
    requires IsFinalSuperblocks(v.Contents(), v.rsSupport.b, v.rsSupport.superblocks)
    requires IsFinalSamples(v.Contents(), v.rsSupport.b, v.rsSupport.selectSamples)
    ensures r == Some(v)
  {
    BuiltIsWellFormed(v.qv, v.rsSupport, v.nOccsSmaller);
    hide IsFinalSamples, WellFormed;
    r := FromDir(v.rsSupport.b, v.qv.data, v.qv.position, v.rsSupport.superblocks, v.rsSupport.selectSamples, v.nOccsSmaller);
  }
}
