/**
 Rank and select support at the level of blocks: superblocks of eight blocks,
 and for each symbol the superblock of every 8192nd occurrence.
 */
module RankSupport {
  import opened RankSelect
  import opened Arithmetic
  import opened StablePartition
  import opened CraftCodes
  import opened Superblock

  const SELECT_NUM_SAMPLES: nat := 8192

  ghost predicate BlockSize(b: nat) {
    b == 256 || b == 512
  }

  /** First position of superblock `t`. */
  function Base(b: nat, t: nat): nat {
    t * (b * 8)
  }

  /** First position of block `k` of superblock `t`. */
  ghost function BlockStart(b: nat, t: nat, k: nat): nat {
    Base(b, t) + k * b
  }

  // ---- What the support must say ----

  ghost predicate SuperblocksOk(q: seq<int>, b: nat, superblocks: seq<SuperblockPlain>)
    requires BlockSize(b)
  {
    && |superblocks| == |q| / (b * 8) + 1
    && forall t :: 0 <= t < |superblocks| ==> SuperblockOk(q, b, t, superblocks[t])
  }

  ghost predicate SuperblockOk(q: seq<int>, b: nat, t: nat, superblock: SuperblockPlain)
    requires BlockSize(b)
  {
    && superblock.Valid()
    && Base(b, t) <= |q|
    && (forall s: nat :: s < 4 ==> superblock.SuperblockCounter(s) == Rank(q, s, Base(b, t)))
    && (forall s: nat, k: nat :: s < 4 && k < 8 && BlockStart(b, t, k) <= |q| ==>
          superblock.BlockCounter(s, k) == Rank(q, s, BlockStart(b, t, k)) - Rank(q, s, Base(b, t)))
    && (forall s: nat, k: nat :: s < 4 && 0 < k < 8 && BlockStart(b, t, k - 1) <= |q| < BlockStart(b, t, k) ==>
          superblock.BlockCounter(s, k) == Rank(q, s, |q|) - Rank(q, s, Base(b, t)))
  }

  /** The superblock `sb` holds occurrence number `k` of `s`. */
  ghost predicate SampleOk(q: seq<int>, b: nat, s: nat, k: nat, sb: nat)
    requires BlockSize(b)
  {
    && Base(b, sb) <= |q| && Rank(q, s, Base(b, sb)) <= k
    && (Base(b, sb + 1) <= |q| ==> k < Rank(q, s, Base(b, sb + 1)))
  }

  ghost predicate SamplesOk(q: seq<int>, b: nat, s: nat, samples: seq<nat>)
    requires BlockSize(b)
  {
    var occs := Occs(q, s);
    && |samples| == (if occs == 0 then 2 else (occs - 1) / SELECT_NUM_SAMPLES + 2)
    && samples[|samples| - 1] == |q| / (b * 8)
    && (forall k :: 0 <= k < |samples| - 1 && occs > 0 ==> SampleOk(q, b, s, k * SELECT_NUM_SAMPLES, samples[k]))
  }

  datatype RSSupportPlain = RSSupportPlain(b: nat, superblocks: seq<SuperblockPlain>, selectSamples: seq<seq<nat>>) {
    /** The counters and samples are those of `q`. */
    ghost predicate Supports(q: seq<int>) {
      && BlockSize(b)
      && SuperblocksOk(q, b, superblocks)
      && |selectSamples| == 4
      && forall s :: 0 <= s < 4 ==> SamplesOk(q, b, s, selectSamples[s])
    }

    /** Rank up to the block that holds position `i`. */
    function RankBlock(ghost q: seq<int>, symbol: nat, i: nat): (r: nat)
      requires Supports(q) && symbol < 4 && i <= |q|
      ensures i / b * b <= i && r == Rank(q, symbol, i / b * b)
    {
      var superblockIndex := i / (b * 8);
      var blockIndex := i / b;
      LocateBlock(b, i);
      DivMonotone(i, |q|, b * 8);
      assert SuperblockOk(q, b, superblockIndex, superblocks[superblockIndex]);
      superblocks[superblockIndex].GetRank(symbol, blockIndex % 8)
    }

    /**
     Start and rank of the block that holds the `i`-th occurrence (counted from 1).
     The width of the skip search does not matter: any positive step is right.
     */
    method SelectBlock(ghost q: seq<int>, symbol: nat, i: nat, ghost p: nat) returns (position: nat, rank: nat)
      requires Supports(q) && symbol < 4 && i > 0 && IsSelect(q, symbol, i - 1, p)
      ensures position == p / b * b && position <= p && rank == Rank(q, symbol, position)
    {
      hide SuperblocksOk, SamplesOk, Rank, Base, Pow4096;
      SampleBracket(q, symbol, i, p);
      var sampledI := (i - 1) / SELECT_NUM_SAMPLES;
      var firstSblockId := selectSamples[symbol][sampledI];
      var lastSblockId := 1 + selectSamples[symbol][sampledI + 1];
      var step: nat :| step >= 1;
      ghost var start := firstSblockId;
      while firstSblockId < lastSblockId
        invariant start <= firstSblockId
        invariant firstSblockId > start ==>
          start + step <= firstSblockId < lastSblockId + step && Counter(q, symbol, firstSblockId - step) < i
        decreases lastSblockId - firstSblockId
      {
        if Counter(q, symbol, firstSblockId) >= i {
          break;
        }
        firstSblockId := firstSblockId + step;
      }
      firstSblockId := firstSblockId - step;
      ghost var from := firstSblockId;
      while firstSblockId < lastSblockId
        invariant from <= firstSblockId <= lastSblockId
        invariant Counter(q, symbol, if firstSblockId > from then firstSblockId - 1 else from) < i
      {
        if Counter(q, symbol, firstSblockId) >= i {
          break;
        }
        firstSblockId := firstSblockId + 1;
      }
      firstSblockId := firstSblockId - 1;
      FoundSuperblock(q, symbol, i, p, firstSblockId, lastSblockId);
      position := firstSblockId * b * 8;
      rank := Counter(q, symbol, firstSblockId);
      var blockId, blockRank := superblocks[firstSblockId].BlockPredecessor(symbol, i - rank);
      FoundBlock(q, symbol, i, p, blockId);
      PositionOf(b, firstSblockId, blockId);
      position := position + blockId * b;
      rank := rank + blockRank;
    }

    /** Counter of superblock `t`: the rank of its first position. */
    function Counter(ghost q: seq<int>, symbol: nat, t: nat): (r: nat)
      requires Supports(q) && symbol < 4 && t < |superblocks|
      ensures superblocks[t].Valid() && r == superblocks[t].SuperblockCounter(symbol)
      ensures Base(b, t) <= |q| && r == Rank(q, symbol, Base(b, t))
    {
      assert SuperblockOk(q, b, t, superblocks[t]);
      superblocks[t].SuperblockCounter(symbol)
    }

    /** The two samples around occurrence `i` bracket its superblock. */
    lemma SampleBracket(q: seq<int>, symbol: nat, i: nat, p: nat)
      requires Supports(q) && symbol < 4 && i > 0 && IsSelect(q, symbol, i - 1, p)
      ensures var k, samples := (i - 1) / SELECT_NUM_SAMPLES, selectSamples[symbol];
        && k + 1 < |samples|
        && samples[k] <= p / (b * 8) <= samples[k + 1] < |superblocks|
        && Counter(q, symbol, samples[k]) < i
    {
      var k, samples := (i - 1) / SELECT_NUM_SAMPLES, selectSamples[symbol];
      assert SamplesOk(q, b, symbol, samples);
      SampleBelow(q, symbol, i, p, samples, k);
      RankStrict(q, symbol, p, |q|);
      SampleAbove(q, symbol, i, p, samples, k);
      hide SamplesOk, Rank;
      BaseInside(b, |q|, samples[k]);
    }

    /** The sample of occurrence `i` is not behind its superblock. */
    lemma SampleBelow(q: seq<int>, symbol: nat, i: nat, p: nat, samples: seq<nat>, k: nat)
      requires BlockSize(b) && SamplesOk(q, b, symbol, samples) && i > 0 && IsSelect(q, symbol, i - 1, p) && k == (i - 1) / SELECT_NUM_SAMPLES
      ensures k + 1 < |samples| && Base(b, samples[k]) <= |q| && samples[k] <= p / (b * 8)
      ensures Rank(q, symbol, Base(b, samples[k])) < i
    {
      RankStrict(q, symbol, p, |q|);
      DivMonotone(i - 1, Occs(q, symbol) - 1, SELECT_NUM_SAMPLES);
      assert SampleOk(q, b, symbol, k * SELECT_NUM_SAMPLES, samples[k]);
      SelectBracket(q, symbol, i - 1, p, Base(b, samples[k]));
      DivAtLeast(p, b * 8, samples[k]);
    }

    /** The next sample is not before it. */
    lemma SampleAbove(q: seq<int>, symbol: nat, i: nat, p: nat, samples: seq<nat>, k: nat)
      requires BlockSize(b) && SamplesOk(q, b, symbol, samples) && i > 0 && IsSelect(q, symbol, i - 1, p) && k == (i - 1) / SELECT_NUM_SAMPLES
      requires k + 1 < |samples| && 0 < Occs(q, symbol)
      ensures p / (b * 8) <= samples[k + 1] <= |q| / (b * 8)
    {
      var size := b * 8;
      DivMonotone(p, |q|, size);
      if k + 1 < |samples| - 1 {
        var next := samples[k + 1];
        assert SampleOk(q, b, symbol, (k + 1) * SELECT_NUM_SAMPLES, next);
        BaseInside(b, |q|, next);
        if Base(b, next + 1) <= |q| {
          SelectBracket(q, symbol, i - 1, p, Base(b, next + 1));
        }
        DivBelow(p, size, next + 1, |q|);
      }
    }

    /** The search stops at the superblock of the occurrence. */
    lemma FoundSuperblock(q: seq<int>, symbol: nat, i: nat, p: nat, r: nat, last: nat)
      requires Supports(q) && symbol < 4 && i > 0 && IsSelect(q, symbol, i - 1, p)
      requires r < |superblocks| && Counter(q, symbol, r) < i && p / (b * 8) < last
      requires r + 1 == last || (r + 1 < |superblocks| && Counter(q, symbol, r + 1) >= i)
      ensures r == p / (b * 8)
    {
      var size := b * 8;
      SelectBracket(q, symbol, i - 1, p, Base(b, r));
      DivAtLeast(p, size, r);
      if r + 1 != last {
        SelectBracket(q, symbol, i - 1, p, Base(b, r + 1));
        DivBelow(p, size, r + 1, |q|);
      }
    }

    /** The predecessor search stops at the block of the occurrence, thanks to the sentinel block. */
    lemma FoundBlock(q: seq<int>, symbol: nat, i: nat, p: nat, blockId: nat)
      requires Supports(q) && symbol < 4 && i > 0 && IsSelect(q, symbol, i - 1, p) && blockId < 8
      requires p / (b * 8) < |superblocks| && superblocks[p / (b * 8)].Valid()
      requires var t := p / (b * 8); var sb := superblocks[t]; var rank := sb.SuperblockCounter(symbol);
        && rank == Rank(q, symbol, Base(b, t)) < i
        && (forall k :: 1 <= k <= blockId ==> sb.BlockCounter(symbol, k) < i - rank)
        && (blockId + 1 < 8 ==> sb.BlockCounter(symbol, blockId + 1) >= i - rank)
      ensures var t := p / (b * 8);
        && blockId == p / b % 8
        && BlockStart(b, t, blockId) == p / b * b <= p
        && superblocks[t].SuperblockCounter(symbol) + superblocks[t].BlockCounter(symbol, blockId)
           == Rank(q, symbol, BlockStart(b, t, blockId))
    {
      var t, k := p / (b * 8), p / b % 8;
      var sb := superblocks[t];
      assert SuperblockOk(q, b, t, sb);
      LocateBlock(b, p);
      BlockCounterBelow(q, symbol, i, p, t, blockId);
      if k + 1 < 8 {
        NextBlock(b, p);
        if BlockStart(b, t, k + 1) <= |q| {
          SelectBracket(q, symbol, i - 1, p, BlockStart(b, t, k + 1));
        } else {
          RankStrict(q, symbol, p, |q|);
        }
        assert sb.BlockCounter(symbol, k + 1) >= i - sb.SuperblockCounter(symbol);
      }
    }

    lemma BlockCounterBelow(q: seq<int>, symbol: nat, i: nat, p: nat, t: nat, blockId: nat)
      requires Supports(q) && symbol < 4 && i > 0 && IsSelect(q, symbol, i - 1, p) && blockId < 8
      requires t == p / (b * 8) < |superblocks| && SuperblockOk(q, b, t, superblocks[t])
      requires blockId + 1 < 8 ==>
        superblocks[t].BlockCounter(symbol, blockId + 1) >= i - superblocks[t].SuperblockCounter(symbol)
      ensures p / b % 8 <= blockId
    {
      var k := p / b % 8;
      if blockId < k {
        LocateBlock(b, p);
        BlockOrder(b, t, blockId + 1, k);
        SelectBracket(q, symbol, i - 1, p, BlockStart(b, t, blockId + 1));
      }
    }
  }

  // ---- Positions ----

  lemma PositionOf(b: nat, t: nat, k: nat)
    ensures t * b * 8 + k * b == BlockStart(b, t, k)
  {}

  lemma DivAtLeast(p: nat, m: nat, t: nat)
    requires m > 0
    ensures t * m <= p <==> t <= p / m
  {
    if t <= p / m {
      if t < p / m {
        MulGap(t, p / m, m);
      }
    } else {
      MulGap(p / m, t, m);
    }
  }

  lemma DivBelow(p: nat, m: nat, t: nat, n: nat)
    requires m > 0 && p < n && (t * m <= n ==> p < t * m)
    ensures p / m < t
  {
    DivAtLeast(p, m, t);
  }

  lemma LocateBlock(b: nat, i: nat)
    requires b > 0
    ensures i / b / 8 == i / (b * 8)
    ensures BlockStart(b, i / (b * 8), i / b % 8) == i / b * b <= i
  {
    DivDiv(i, b, 8);
    var t, k := i / b / 8, i / b % 8;
    assert i / b == 8 * t + k;
    assert (8 * t + k) * b == t * (b * 8) + k * b;
  }

  lemma NextBlock(b: nat, p: nat)
    requires b > 0
    ensures p < BlockStart(b, p / (b * 8), p / b % 8 + 1)
  {
    LocateBlock(b, p);
    assert (p / b % 8 + 1) * b == p / b % 8 * b + b;
  }

  lemma BlockOrder(b: nat, t: nat, j: nat, k: nat)
    requires j <= k
    ensures BlockStart(b, t, j) <= BlockStart(b, t, k)
  {
    if j < k {
      MulGap(j, k, b);
    }
  }

  lemma BaseInside(b: nat, n: nat, t: nat)
    requires b > 0 && Base(b, t) <= n
    ensures t <= n / (b * 8)
  {
    DivAtLeast(n, b * 8, t);
  }
}
