/**
 Construction of the rank and select support in one pass over the symbols, and
 the exact words and samples it leaves.
 */
module BuildSupport {
  import opened RankSelect
  import opened Arithmetic
  import opened StablePartition
  import opened CraftCodes
  import opened QuadVector
  import opened Superblock
  import opened RankSupport

  const MAX_LEN: nat := 0x800_0000_0000 // 2^43

  // ---- The words ----

  /** Counter of block `k` once the positions before `limit` have been visited. */
  ghost function FieldAt(q: seq<int>, b: nat, t: nat, k: nat, s: nat, limit: nat): nat
    requires limit <= |q| + 1
  {
    if BlockStart(b, t, k) < limit then
      RankMonotone(q, s, Base(b, t), BlockStart(b, t, k));
      Rank(q, s, BlockStart(b, t, k)) - Rank(q, s, Base(b, t))
    else 0
  }

  /** Final counter of block `k`: the block after the last one repeats the total, as a sentinel. */
  ghost function FinalField(q: seq<int>, b: nat, t: nat, k: nat, s: nat): nat
    requires k > 0 && Base(b, t) <= |q|
  {
    if BlockStart(b, t, k) <= |q| then
      FieldAt(q, b, t, k, s, |q| + 1)
    else if BlockStart(b, t, k - 1) <= |q| then
      RankMonotone(q, s, Base(b, t), |q|);
      Rank(q, s, |q|) - Rank(q, s, Base(b, t))
    else 0
  }

  ghost function Fields(q: seq<int>, b: nat, t: nat, s: nat, limit: nat): (r: seq<nat>)
    requires limit <= |q| + 1
    ensures |r| == 7 && forall k :: 0 <= k < 7 ==> r[k] == FieldAt(q, b, t, k + 1, s, limit)
  {
    seq(7, k requires 0 <= k < 7 => FieldAt(q, b, t, k + 1, s, limit))
  }

  ghost function FinalFields(q: seq<int>, b: nat, t: nat, s: nat): (r: seq<nat>)
    requires Base(b, t) <= |q|
    ensures |r| == 7 && forall k :: 0 <= k < 7 ==> r[k] == FinalField(q, b, t, k + 1, s)
  {
    seq(7, k requires 0 <= k < 7 => FinalField(q, b, t, k + 1, s))
  }

  /** Word of symbol `s` in superblock `t` after the positions before `limit`. */
  ghost function PartialWord(q: seq<int>, b: nat, t: nat, s: nat, limit: nat): nat
    requires limit <= |q| + 1 && Base(b, t) <= |q|
  {
    Pack(Rank(q, s, Base(b, t)), Fields(q, b, t, s, limit))
  }

  ghost function FinalWord(q: seq<int>, b: nat, t: nat, s: nat): nat
    requires Base(b, t) <= |q|
  {
    Pack(Rank(q, s, Base(b, t)), FinalFields(q, b, t, s))
  }

  ghost predicate IsPartial(q: seq<int>, b: nat, t: nat, limit: nat, superblock: SuperblockPlain)
    requires limit <= |q| + 1
  {
    && superblock.Valid() && Base(b, t) <= |q|
    && forall s: nat :: s < 4 ==> superblock.counters[s] == PartialWord(q, b, t, s, limit)
  }

  ghost predicate IsFinal(q: seq<int>, b: nat, t: nat, superblock: SuperblockPlain) {
    && superblock.Valid() && Base(b, t) <= |q|
    && forall s: nat :: s < 4 ==> superblock.counters[s] == FinalWord(q, b, t, s)
  }

  /** The superblocks that construction leaves, word for word. */
  ghost predicate IsFinalSuperblocks(q: seq<int>, b: nat, superblocks: seq<SuperblockPlain>)
    requires BlockSize(b)
  {
    && |superblocks| == |q| / (b * 8) + 1
    && forall t :: 0 <= t < |superblocks| ==> IsFinal(q, b, t, superblocks[t])
  }

  /** Block starts are distinct: `i` is the start of block `k` of superblock `t` in one way only. */
  lemma BlockStartUnique(b: nat, t: nat, k: nat, i: nat)
    requires BlockSize(b) && k < 8
    ensures BlockStart(b, t, k) == i <==> i % b == 0 && t == i / (b * 8) && k == i / b % 8
  {
    LocateBlock(b, i);
    if BlockStart(b, t, k) == i {
      assert t * (b * 8) + k * b == (8 * t + k) * b;
      ModUnique(i, b, 8 * t + k, 0);
    }
    if i % b == 0 {
      assert i == i / b * b + i % b;
    }
  }

  lemma FieldsSmall(q: seq<int>, b: nat, t: nat, s: nat, limit: nat)
    requires BlockSize(b) && limit <= |q| + 1
    ensures SmallFields(Fields(q, b, t, s, limit))
    ensures Base(b, t) <= |q| ==> SmallFields(FinalFields(q, b, t, s))
  {
    forall k: nat | 0 < k < 8
      ensures FieldAt(q, b, t, k, s, limit) < FIELD
      ensures Base(b, t) <= |q| ==> FinalField(q, b, t, k, s) < FIELD
    {
      FieldSmall(q, b, t, k, s, limit);
      FieldSmall(q, b, t, k, s, |q| + 1);
      if BlockStart(b, t, k - 1) <= |q| < BlockStart(b, t, k) {
        RankMonotone(q, s, Base(b, t), |q|);
      }
    }
  }

  lemma FieldSmall(q: seq<int>, b: nat, t: nat, k: nat, s: nat, limit: nat)
    requires BlockSize(b) && limit <= |q| + 1 && 0 < k < 8
    ensures FieldAt(q, b, t, k, s, limit) <= k * b < FIELD
  {
    if BlockStart(b, t, k) < limit {
      RankMonotone(q, s, Base(b, t), BlockStart(b, t, k));
    }
  }

  /** Index, in its superblock, of the block that holds position `n`. */
  ghost function LastBlock(b: nat, n: nat): nat
    requires BlockSize(b)
  {
    n / b % 8
  }

  /** Position `i` starts a block of superblock `t` other than its first. */
  ghost predicate BlockHere(b: nat, t: nat, i: nat)
    requires BlockSize(b)
  {
    i % b == 0 && t == i / (b * 8) && LastBlock(b, i) > 0
  }

  /** Visiting position `i` changes no field, unless a block starts there. */
  lemma PartialSame(q: seq<int>, b: nat, t: nat, s: nat, i: nat)
    requires BlockSize(b) && i <= |q| && Base(b, t) <= |q| && !BlockHere(b, t, i)
    ensures PartialWord(q, b, t, s, i + 1) == PartialWord(q, b, t, s, i)
  {
    forall k: nat | 0 < k < 8
      ensures FieldAt(q, b, t, k, s, i + 1) == FieldAt(q, b, t, k, s, i)
    {
      BlockStartUnique(b, t, k, i);
    }
    assert Fields(q, b, t, s, i + 1) == Fields(q, b, t, s, i);
  }

  /** The field of a block that starts at `i` is or-ed in. */
  lemma PartialNext(q: seq<int>, b: nat, t: nat, s: nat, i: nat)
    requires BlockSize(b) && i <= |q| && Base(b, t) <= |q| && BlockHere(b, t, i)
    ensures BitOr(PartialWord(q, b, t, s, i), FieldShift(FieldAt(q, b, t, LastBlock(b, i), s, i + 1), LastBlock(b, i) - 1))
         == PartialWord(q, b, t, s, i + 1)
  {
    var k, x := LastBlock(b, i), FieldAt(q, b, t, LastBlock(b, i), s, i + 1);
    var f := Fields(q, b, t, s, i);
    forall j: nat | 0 < j < 8
      ensures FieldAt(q, b, t, j, s, i + 1) == if j == k then x else FieldAt(q, b, t, j, s, i)
      ensures FieldAt(q, b, t, k, s, i) == 0
    {
      BlockStartUnique(b, t, j, i);
      BlockStartUnique(b, t, k, i);
    }
    FieldSmall(q, b, t, k, s, i + 1);
    FieldsSmall(q, b, t, s, i);
    assert Fields(q, b, t, s, i + 1) == f[k - 1 := x];
    OrField(Rank(q, s, Base(b, t)), f, k - 1, x);
  }

  lemma FieldHere(q: seq<int>, b: nat, t: nat, s: nat, i: nat)
    requires BlockSize(b) && i <= |q| && t == i / (b * 8) && i % b == 0
    ensures Base(b, t) <= i
    ensures FieldAt(q, b, t, i / b % 8, s, i + 1) == Rank(q, s, i) - Rank(q, s, Base(b, t))
  {
    BlockStartUnique(b, t, i / b % 8, i);
  }

  /** A new superblock starts with its counter and no block counters. */
  lemma PartialStart(q: seq<int>, b: nat, s: nat, t: nat)
    requires BlockSize(b) && Base(b, t) <= |q|
    ensures PartialWord(q, b, t, s, Base(b, t)) == FieldShift(Rank(q, s, Base(b, t)), 7)
  {
    PackZeros(Rank(q, s, Base(b, t)), 7);
    assert Fields(q, b, t, s, Base(b, t)) == seq(7, _ => 0);
  }

  /** The last superblock has room for a sentinel after its last block. */
  ghost predicate SentinelHere(b: nat, n: nat, t: nat)
    requires BlockSize(b)
  {
    t == n / (b * 8) && LastBlock(b, n) < 7
  }

  lemma FinalSame(q: seq<int>, b: nat, t: nat, s: nat)
    requires BlockSize(b) && Base(b, t) <= |q| && !SentinelHere(b, |q|, t)
    ensures PartialWord(q, b, t, s, |q| + 1) == FinalWord(q, b, t, s)
  {
    forall k: nat | 0 < k < 8
      ensures FieldAt(q, b, t, k, s, |q| + 1) == FinalField(q, b, t, k, s)
    {
      SentinelOnly(b, |q|, t, k);
    }
    assert Fields(q, b, t, s, |q| + 1) == FinalFields(q, b, t, s);
  }

  /** After the last position only the sentinel of the last superblock is missing. */
  lemma FinalSentinel(q: seq<int>, b: nat, t: nat, s: nat)
    requires BlockSize(b) && Base(b, t) <= |q| && SentinelHere(b, |q|, t)
    ensures BitOr(PartialWord(q, b, t, s, |q| + 1), FieldShift(FinalField(q, b, t, LastBlock(b, |q|) + 1, s), LastBlock(b, |q|)))
         == FinalWord(q, b, t, s)
  {
    var k, x := LastBlock(b, |q|) + 1, FinalField(q, b, t, LastBlock(b, |q|) + 1, s);
    var f := Fields(q, b, t, s, |q| + 1);
    SentinelOnly(b, |q|, t, k);
    forall j: nat | 0 < j < 8
      ensures FinalField(q, b, t, j, s) == if j == k then x else FieldAt(q, b, t, j, s, |q| + 1)
    {
      SentinelOnly(b, |q|, t, j);
    }
    FieldsSmall(q, b, t, s, |q| + 1);
    assert FinalFields(q, b, t, s) == f[k - 1 := x];
    assert x == FinalFields(q, b, t, s)[k - 1];
    OrField(Rank(q, s, Base(b, t)), f, k - 1, x);
  }

  lemma SentinelIsTotal(q: seq<int>, b: nat, t: nat, s: nat)
    requires BlockSize(b) && Base(b, t) <= |q| && SentinelHere(b, |q|, t)
    ensures FinalField(q, b, t, |q| / b % 8 + 1, s) == Rank(q, s, |q|) - Rank(q, s, Base(b, t))
  {
    SentinelOnly(b, |q|, t, |q| / b % 8 + 1);
  }

  /** Which block begins after position `n` while the one before it does not. */
  lemma SentinelOnly(b: nat, n: nat, t: nat, k: nat)
    requires BlockSize(b) && 0 < k < 8
    ensures BlockStart(b, t, k - 1) <= n < BlockStart(b, t, k) <==> t == n / (b * 8) && k == n / b % 8 + 1
  {
    LocateBlock(b, n);
    BlockNumber(b, t, k - 1);
    BlockNumber(b, t, k);
    DivAtLeast(n, b, 8 * t + (k - 1));
    DivAtLeast(n, b, 8 * t + k);
  }

  lemma BlockNumber(b: nat, t: nat, k: nat)
    ensures BlockStart(b, t, k) == (8 * t + k) * b
  {}

  // ---- What the final words say ----

  lemma FinalIsOk(q: seq<int>, b: nat, t: nat, superblock: SuperblockPlain)
    requires BlockSize(b) && IsFinal(q, b, t, superblock)
    ensures SuperblockOk(q, b, t, superblock)
  {
    hide SuperblockOk, SuperblockPlain.SuperblockCounter, SuperblockPlain.BlockCounter, FinalField;
    forall s: nat | s < 4
      ensures superblock.SuperblockCounter(s) == Rank(q, s, Base(b, t))
      ensures forall k: nat :: 0 < k < 8 ==> superblock.BlockCounter(s, k) == FinalField(q, b, t, k, s)
    {
      FinalCounters(q, b, t, superblock, s);
    }
    FieldsAreOk(q, b, t, superblock);
  }

  lemma FinalCounters(q: seq<int>, b: nat, t: nat, superblock: SuperblockPlain, s: nat)
    requires BlockSize(b) && IsFinal(q, b, t, superblock) && s < 4
    ensures superblock.SuperblockCounter(s) == Rank(q, s, Base(b, t))
    ensures forall k: nat :: 0 < k < 8 ==> superblock.BlockCounter(s, k) == FinalField(q, b, t, k, s)
  {
    FieldsSmall(q, b, t, s, 0);
    PackTop(Rank(q, s, Base(b, t)), FinalFields(q, b, t, s));
    hide Pow4096, Pack, Rank, FinalField;
    forall k: nat | 0 < k < 8
      ensures superblock.BlockCounter(s, k) == FinalField(q, b, t, k, s)
    {
      PackField(Rank(q, s, Base(b, t)), FinalFields(q, b, t, s), k - 1);
    }
  }

  lemma FieldsAreOk(q: seq<int>, b: nat, t: nat, superblock: SuperblockPlain)
    requires BlockSize(b) && superblock.Valid() && Base(b, t) <= |q|
    requires forall s: nat :: s < 4 ==>
      && superblock.SuperblockCounter(s) == Rank(q, s, Base(b, t))
      && forall k: nat :: 0 < k < 8 ==> superblock.BlockCounter(s, k) == FinalField(q, b, t, k, s)
    ensures SuperblockOk(q, b, t, superblock)
  {
    hide SuperblockPlain.SuperblockCounter, Rank, Pow4096;
  }

  /** The word fits the 128 bits it is stored in. */
  lemma FinalWidth(q: seq<int>, b: nat, t: nat, s: nat)
    requires BlockSize(b) && Base(b, t) <= |q| < MAX_LEN
    ensures FinalWord(q, b, t, s) < 0x1000_0000_0000 * Pow4096(7) // 2^44 * 2^84
  {
    FieldsSmall(q, b, t, s, 0);
    PackWidth(Rank(q, s, Base(b, t)), FinalFields(q, b, t, s), 0x1000_0000_0000);
  }

  // ---- The samples ----

  /** Superblocks of occurrences 0, 8192, ... among the first `i` positions. */
  ghost function SamplesUpTo(q: seq<int>, b: nat, s: nat, i: nat): seq<nat>
    requires i <= |q| && BlockSize(b)
  {
    if i == 0 then []
    else
      var sampled := q[i - 1] == s && Rank(q, s, i - 1) % SELECT_NUM_SAMPLES == 0;
      SamplesUpTo(q, b, s, i - 1) + if sampled then [(i - 1) / (b * 8)] else []
  }

  /** The sample list of a symbol: at least one sample, and the last superblock as sentinel. */
  ghost function FinalSamples(q: seq<int>, b: nat, s: nat): seq<nat>
    requires BlockSize(b)
  {
    var samples := SamplesUpTo(q, b, s, |q|);
    (if samples == [] then [0] else samples) + [|q| / (b * 8)]
  }

  lemma {:induction false} SamplesUpToOk(q: seq<int>, b: nat, s: nat, i: nat)
    requires BlockSize(b) && i <= |q|
    ensures |SamplesUpTo(q, b, s, i)| == (Rank(q, s, i) + SELECT_NUM_SAMPLES - 1) / SELECT_NUM_SAMPLES
    ensures forall k :: 0 <= k < |SamplesUpTo(q, b, s, i)| ==>
      SampleOk(q, b, s, k * SELECT_NUM_SAMPLES, SamplesUpTo(q, b, s, i)[k])
  {
    if i > 0 {
      SamplesUpToOk(q, b, s, i - 1);
      hide SampleOk;
      CeilNext(Rank(q, s, i - 1));
      if q[i - 1] == s && Rank(q, s, i - 1) % SELECT_NUM_SAMPLES == 0 {
        SampleHere(q, b, s, i - 1);
      }
    }
  }

  lemma CeilNext(r: nat)
    ensures (r + 1 + SELECT_NUM_SAMPLES - 1) / SELECT_NUM_SAMPLES
         == (r + SELECT_NUM_SAMPLES - 1) / SELECT_NUM_SAMPLES + (if r % SELECT_NUM_SAMPLES == 0 then 1 else 0)
    ensures r % SELECT_NUM_SAMPLES == 0 ==> (r + SELECT_NUM_SAMPLES - 1) / SELECT_NUM_SAMPLES * SELECT_NUM_SAMPLES == r
  {}

  lemma SampleHere(q: seq<int>, b: nat, s: nat, p: nat)
    requires BlockSize(b) && p < |q| && q[p] == s
    ensures SampleOk(q, b, s, Rank(q, s, p), p / (b * 8))
  {
    var size := b * 8;
    DivAtLeast(p, size, p / size);
    DivAtLeast(p, size, p / size + 1);
    RankMonotone(q, s, Base(b, p / size), p);
    if Base(b, p / size + 1) <= |q| {
      RankStrict(q, s, p, Base(b, p / size + 1));
    }
  }

  lemma FinalSamplesOk(q: seq<int>, b: nat, s: nat)
    requires BlockSize(b)
    ensures SamplesOk(q, b, s, FinalSamples(q, b, s))
  {
    SamplesUpToOk(q, b, s, |q|);
  }

  // ---- Construction ----

  ghost predicate IsFinalSamples(q: seq<int>, b: nat, samples: seq<seq<nat>>)
    requires BlockSize(b)
  {
    |samples| == 4 && forall s :: 0 <= s < 4 ==> samples[s] == FinalSamples(q, b, s)
  }

  lemma FinalSupports(q: seq<int>, support: RSSupportPlain)
    requires BlockSize(support.b)
    requires IsFinalSuperblocks(q, support.b, support.superblocks) && IsFinalSamples(q, support.b, support.selectSamples)
    ensures support.Supports(q)
  {
    forall t | 0 <= t < |support.superblocks|
      ensures SuperblockOk(q, support.b, t, support.superblocks[t])
    {
      FinalIsOk(q, support.b, t, support.superblocks[t]);
    }
    forall s | 0 <= s < 4
      ensures SamplesOk(q, support.b, s, support.selectSamples[s])
    {
      FinalSamplesOk(q, support.b, s);
    }
  }

  /** A full pass leaves one result. */
  lemma SameSuperblocks(q: seq<int>, b: nat, a: seq<SuperblockPlain>, c: seq<SuperblockPlain>)
    requires BlockSize(b) && IsFinalSuperblocks(q, b, a) && IsFinalSuperblocks(q, b, c)
    ensures a == c
  {
    hide FinalWord;
    forall t | 0 <= t < |a|
      ensures a[t] == c[t]
    {
      assert IsFinal(q, b, t, a[t]) && IsFinal(q, b, t, c[t]);
      assert a[t].counters == c[t].counters;
    }
  }

  lemma SameSamples(q: seq<int>, b: nat, a: seq<seq<nat>>, c: seq<seq<nat>>)
    requires BlockSize(b) && IsFinalSamples(q, b, a) && IsFinalSamples(q, b, c)
    ensures a == c
  {}

  ghost predicate AllPartial(q: seq<int>, b: nat, limit: nat, superblocks: seq<SuperblockPlain>)
    requires limit <= |q| + 1
  {
    forall t :: 0 <= t < |superblocks| ==> IsPartial(q, b, t, limit, superblocks[t])
  }

  /** Counts before position `n`, from the start and from the start of superblock `t`. */
  ghost predicate Counts(q: seq<int>, b: nat, n: nat, t: nat, sbc: seq<nat>, bc: seq<nat>)
    requires n <= |q|
  {
    && |sbc| == 4 && |bc| == 4 && Base(b, t) <= n
    && forall s: nat :: s < 4 ==> sbc[s] == Rank(q, s, n) && bc[s] == Rank(q, s, n) - Rank(q, s, Base(b, t))
  }

  /** State of the pass before position `i` is visited; `t` is the superblock of the position before. */
  ghost predicate PassState(q: seq<int>, b: nat, i: nat, superblocks: seq<SuperblockPlain>, sbc: seq<nat>, bc: seq<nat>)
    requires BlockSize(b) && i <= |q| + 1
  {
    && |superblocks| == (if i == 0 then 0 else (i - 1) / (b * 8) + 1)
    && AllPartial(q, b, i, superblocks)
    && Counts(q, b, if i <= |q| then i else |q|, if i == 0 then 0 else (i - 1) / (b * 8), sbc, bc)
  }

  /** State once the superblock of position `i` exists and positions before `limit` have closed their blocks. */
  ghost predicate Opened(q: seq<int>, b: nat, i: nat, limit: nat, superblocks: seq<SuperblockPlain>, sbc: seq<nat>, bc: seq<nat>)
    requires BlockSize(b) && i <= |q| && limit <= |q| + 1
  {
    && |superblocks| == i / (b * 8) + 1
    && AllPartial(q, b, limit, superblocks)
    && Counts(q, b, i, i / (b * 8), sbc, bc)
  }

  lemma OpenOld(q: seq<int>, b: nat, i: nat, superblocks: seq<SuperblockPlain>, sbc: seq<nat>, bc: seq<nat>)
    requires BlockSize(b) && i <= |q| && i % (b * 8) != 0 && PassState(q, b, i, superblocks, sbc, bc)
    ensures Opened(q, b, i, i, superblocks, sbc, bc)
  {
    hide AllPartial, Counts;
  }

  lemma OpenNew(q: seq<int>, b: nat, i: nat, superblocks: seq<SuperblockPlain>, sbc: seq<nat>, bc: seq<nat>)
    requires BlockSize(b) && i <= |q| && i % (b * 8) == 0 && PassState(q, b, i, superblocks, sbc, bc)
    ensures |sbc| == 4 && Opened(q, b, i, i, superblocks + [NewSuperblock(sbc)], sbc, [0, 0, 0, 0])
  {
    var t := i / (b * 8);
    assert t == |superblocks|;
    assert Base(b, t) == i;
    assert IsPartial(q, b, t, i, NewSuperblock(sbc)) by {
      forall s: nat | s < 4
        ensures NewSuperblock(sbc).counters[s] == PartialWord(q, b, t, s, i)
      {
        PartialStart(q, b, s, t);
      }
    }
    hide IsPartial;
  }

  lemma CloseNone(q: seq<int>, b: nat, i: nat, superblocks: seq<SuperblockPlain>, sbc: seq<nat>, bc: seq<nat>)
    requires BlockSize(b) && i <= |q| && i % b != 0 && Opened(q, b, i, i, superblocks, sbc, bc)
    ensures Opened(q, b, i, i + 1, superblocks, sbc, bc)
  {
    hide PartialWord;
    forall t, s: nat | 0 <= t < |superblocks| && s < 4
      ensures superblocks[t].Valid() && superblocks[t].counters[s] == PartialWord(q, b, t, s, i + 1)
    {
      assert IsPartial(q, b, t, i, superblocks[t]);
      PartialSame(q, b, t, s, i);
    }
  }

  lemma CloseOther(q: seq<int>, b: nat, i: nat, t: nat, superblock: SuperblockPlain)
    requires BlockSize(b) && i <= |q| && !BlockHere(b, t, i) && IsPartial(q, b, t, i, superblock)
    ensures IsPartial(q, b, t, i + 1, superblock)
  {
    hide PartialWord;
    forall s: nat | s < 4
      ensures superblock.counters[s] == PartialWord(q, b, t, s, i + 1)
    {
      PartialSame(q, b, t, s, i);
    }
  }

  lemma CloseThis(q: seq<int>, b: nat, i: nat, superblock: SuperblockPlain, sbc: seq<nat>, bc: seq<nat>)
    requires BlockSize(b) && i <= |q| && i % b == 0
    requires IsPartial(q, b, i / (b * 8), i, superblock) && Counts(q, b, i, i / (b * 8), sbc, bc)
    ensures forall s :: 0 <= s < 4 ==> bc[s] < FIELD
    ensures IsPartial(q, b, i / (b * 8), i + 1, superblock.SetBlockCounters(i / b % 8, bc))
  {
    var t, k := i / (b * 8), i / b % 8;
    forall s: nat | s < 4
      ensures bc[s] == FieldAt(q, b, t, k, s, i + 1) < FIELD
    {
      FieldHere(q, b, t, s, i);
      if k > 0 {
        FieldSmall(q, b, t, k, s, i + 1);
      } else {
        BlockStartUnique(b, t, 0, i);
      }
    }
    hide PartialWord, FieldAt;
    if k == 0 {
      CloseOther(q, b, i, t, superblock);
    } else {
      forall s: nat | s < 4
        ensures superblock.SetBlockCounters(k, bc).counters[s] == PartialWord(q, b, t, s, i + 1)
      {
        PartialNext(q, b, t, s, i);
      }
    }
  }

  lemma CloseBlock(q: seq<int>, b: nat, i: nat, superblocks: seq<SuperblockPlain>, sbc: seq<nat>, bc: seq<nat>)
    requires BlockSize(b) && i <= |q| && i % b == 0 && Opened(q, b, i, i, superblocks, sbc, bc)
    ensures var last := |superblocks| - 1; last >= 0 && superblocks[last].Valid() && |bc| == 4
    ensures forall s :: 0 <= s < 4 ==> bc[s] < FIELD
    ensures var last := |superblocks| - 1;
      Opened(q, b, i, i + 1, superblocks[last := superblocks[last].SetBlockCounters(i / b % 8, bc)], sbc, bc)
  {
    hide PartialWord, FieldAt, Counts;
    var last := |superblocks| - 1;
    assert IsPartial(q, b, last, i, superblocks[last]);
    CountsShape(q, b, i, last, sbc, bc);
    CloseThis(q, b, i, superblocks[last], sbc, bc);
    var next := superblocks[last := superblocks[last].SetBlockCounters(i / b % 8, bc)];
    hide IsPartial;
    forall t | 0 <= t < |next|
      ensures IsPartial(q, b, t, i + 1, next[t])
    {
      if t < last {
        CloseOther(q, b, i, t, superblocks[t]);
      }
    }
  }

  lemma CountsShape(q: seq<int>, b: nat, n: nat, t: nat, sbc: seq<nat>, bc: seq<nat>)
    requires n <= |q| && Counts(q, b, n, t, sbc, bc)
    ensures |sbc| == 4 && |bc| == 4 && forall s: nat :: s < 4 ==> sbc[s] == Rank(q, s, n)
  {}

  lemma CountsNext(q: seq<int>, b: nat, n: nat, t: nat, sbc: seq<nat>, bc: seq<nat>, symbol: nat)
    requires n < |q| && Counts(q, b, n, t, sbc, bc) && symbol == q[n] && symbol < 4
    ensures Counts(q, b, n + 1, t, sbc[symbol := sbc[symbol] + 1], bc[symbol := bc[symbol] + 1])
  {}

  lemma Advance(q: seq<int>, b: nat, i: nat, superblocks: seq<SuperblockPlain>, sbc: seq<nat>, bc: seq<nat>, sbc': seq<nat>, bc': seq<nat>)
    requires BlockSize(b) && i <= |q| && Opened(q, b, i, i + 1, superblocks, sbc, bc)
    requires if i < |q| then Counts(q, b, i + 1, i / (b * 8), sbc', bc') else sbc' == sbc && bc' == bc
    ensures PassState(q, b, i + 1, superblocks, sbc', bc')
  {
    hide AllPartial, Counts;
  }

  // ---- Samples ----

  ghost predicate SampleState(q: seq<int>, b: nat, i: nat, samples: seq<seq<nat>>)
    requires BlockSize(b) && i <= |q|
  {
    |samples| == 4 && forall s: nat :: s < 4 ==> samples[s] == SamplesUpTo(q, b, s, i)
  }

  lemma SampleNext(q: seq<int>, b: nat, i: nat, samples: seq<seq<nat>>, symbol: nat)
    requires BlockSize(b) && i < |q| && SampleState(q, b, i, samples) && symbol == q[i] && symbol < 4
    ensures |samples| == 4
    ensures SampleState(q, b, i + 1, if Rank(q, symbol, i) % SELECT_NUM_SAMPLES == 0
                                     then samples[symbol := samples[symbol] + [i / (b * 8)]] else samples)
  {}

  // ---- The end of the pass ----

  lemma FinalOther(q: seq<int>, b: nat, t: nat, superblock: SuperblockPlain)
    requires BlockSize(b) && !SentinelHere(b, |q|, t) && IsPartial(q, b, t, |q| + 1, superblock)
    ensures IsFinal(q, b, t, superblock)
  {
    hide PartialWord, FinalWord;
    forall s: nat | s < 4
      ensures superblock.counters[s] == FinalWord(q, b, t, s)
    {
      FinalSame(q, b, t, s);
    }
  }

  lemma FinalThis(q: seq<int>, b: nat, superblock: SuperblockPlain, sbc: seq<nat>, bc: seq<nat>)
    requires BlockSize(b) && |q| / b % 8 < 7
    requires IsPartial(q, b, |q| / (b * 8), |q| + 1, superblock) && Counts(q, b, |q|, |q| / (b * 8), sbc, bc)
    ensures forall s :: 0 <= s < 4 ==> bc[s] < FIELD
    ensures IsFinal(q, b, |q| / (b * 8), superblock.SetBlockCounters(|q| / b % 8 + 1, bc))
  {
    var t, k := |q| / (b * 8), |q| / b % 8 + 1;
    forall s: nat | s < 4
      ensures bc[s] == FinalField(q, b, t, k, s) < FIELD
    {
      SentinelIsTotal(q, b, t, s);
      FieldsSmall(q, b, t, s, 0);
      assert FinalFields(q, b, t, s)[k - 1] == FinalField(q, b, t, k, s);
    }
    hide PartialWord, FinalWord, FinalField;
    forall s: nat | s < 4
      ensures superblock.SetBlockCounters(k, bc).counters[s] == FinalWord(q, b, t, s)
    {
      FinalSentinel(q, b, t, s);
    }
  }

  lemma FinishOpen(q: seq<int>, b: nat, superblocks: seq<SuperblockPlain>, sbc: seq<nat>, bc: seq<nat>)
    requires BlockSize(b) && PassState(q, b, |q| + 1, superblocks, sbc, bc)
    ensures |superblocks| == |q| / (b * 8) + 1 && |bc| == 4 && superblocks[|superblocks| - 1].Valid()
    ensures |q| / b % 8 == 7 ==> IsFinalSuperblocks(q, b, superblocks)
    ensures |q| / b % 8 < 7 ==> forall s :: 0 <= s < 4 ==> bc[s] < FIELD
    ensures |q| / b % 8 < 7 ==> var last := |superblocks| - 1;
      IsFinalSuperblocks(q, b, superblocks[last := superblocks[last].SetBlockCounters(|q| / b % 8 + 1, bc)])
  {
    var last := |superblocks| - 1;
    assert IsPartial(q, b, last, |q| + 1, superblocks[last]);
    CountsShape(q, b, |q|, last, sbc, bc);
    hide Counts;
    if |q| / b % 8 < 7 {
      FinalThis(q, b, superblocks[last], sbc, bc);
    }
    hide IsPartial, IsFinal;
    forall t | 0 <= t < |superblocks| && !SentinelHere(b, |q|, t)
      ensures IsFinal(q, b, t, superblocks[t])
    {
      FinalOther(q, b, t, superblocks[t]);
    }
  }

  lemma PassStart(q: seq<int>, b: nat)
    requires BlockSize(b)
    ensures PassState(q, b, 0, [], [0, 0, 0, 0], [0, 0, 0, 0])
    ensures SampleState(q, b, 0, [[], [], [], []])
  {}

  /** A superblock boundary opens a superblock. */
  method OpenSuperblock(ghost q: seq<int>, b: nat, i: nat, superblocks: seq<SuperblockPlain>, sbc: seq<nat>, bc: seq<nat>)
    returns (superblocks': seq<SuperblockPlain>, bc': seq<nat>)
    requires BlockSize(b) && i <= |q| && PassState(q, b, i, superblocks, sbc, bc)
    ensures Opened(q, b, i, i, superblocks', sbc, bc')
  {
    hide PassState, Opened;
    if i % (b * 8) == 0 {
      OpenNew(q, b, i, superblocks, sbc, bc);
      return superblocks + [NewSuperblock(sbc)], [0, 0, 0, 0];
    }
    OpenOld(q, b, i, superblocks, sbc, bc);
    return superblocks, bc;
  }

  /** A block boundary stores the counters of the block. */
  method CloseBlocks(ghost q: seq<int>, b: nat, i: nat, superblocks: seq<SuperblockPlain>, ghost sbc: seq<nat>, bc: seq<nat>)
    returns (superblocks': seq<SuperblockPlain>)
    requires BlockSize(b) && i <= |q| && Opened(q, b, i, i, superblocks, sbc, bc)
    ensures Opened(q, b, i, i + 1, superblocks', sbc, bc)
  {
    hide Opened;
    if i % b == 0 {
      var blockId := (i / b) % BLOCKS_IN_SUPERBLOCK;
      CloseBlock(q, b, i, superblocks, sbc, bc);
      var last := |superblocks| - 1;
      return superblocks[last := superblocks[last].SetBlockCounters(blockId, bc)];
    }
    CloseNone(q, b, i, superblocks, sbc, bc);
    return superblocks;
  }

  /**
   Counts the symbol at position `i`, sampling every 8192nd occurrence. The occurrences
   so far are the superblock counter, so one number serves for both.
   */
  method CountSymbol(ghost q: seq<int>, b: nat, i: nat, ghost superblocks: seq<SuperblockPlain>, symbol: nat,
                     samples: seq<seq<nat>>, sbc: seq<nat>, bc: seq<nat>)
    returns (samples': seq<seq<nat>>, sbc': seq<nat>, bc': seq<nat>)
    requires BlockSize(b) && i < |q| && symbol == q[i] && symbol < 4
    requires Opened(q, b, i, i + 1, superblocks, sbc, bc) && SampleState(q, b, i, samples)
    ensures SampleState(q, b, i + 1, samples') && Counts(q, b, i + 1, i / (b * 8), sbc', bc')
  {
    hide Opened, SampleState, Counts;
    OpenedCounts(q, b, i, superblocks, sbc, bc);
    SampleNext(q, b, i, samples, symbol);
    CountsNext(q, b, i, i / (b * 8), sbc, bc, symbol);
    samples' := samples;
    if sbc[symbol] % SELECT_NUM_SAMPLES == 0 {
      samples' := samples[symbol := samples[symbol] + [i / (b * 8)]];
    }
    sbc' := sbc[symbol := sbc[symbol] + 1];
    bc' := bc[symbol := bc[symbol] + 1];
  }

  /** The block after the last one repeats the totals, if the last superblock has room for it. */
  method AddSentinelBlock(ghost q: seq<int>, b: nat, len: nat, superblocks: seq<SuperblockPlain>, ghost sbc: seq<nat>, bc: seq<nat>)
    returns (superblocks': seq<SuperblockPlain>)
    requires BlockSize(b) && len == |q| && PassState(q, b, |q| + 1, superblocks, sbc, bc)
    ensures IsFinalSuperblocks(q, b, superblocks') && |superblocks'| == |q| / (b * 8) + 1
  {
    FinishOpen(q, b, superblocks, sbc, bc);
    hide PassState, IsFinalSuperblocks;
    var nextBlockId := (len / b) % BLOCKS_IN_SUPERBLOCK + 1;
    superblocks' := superblocks;
    if nextBlockId < BLOCKS_IN_SUPERBLOCK {
      var last := |superblocks| - 1;
      superblocks' := superblocks[last := superblocks[last].SetBlockCounters(nextBlockId, bc)];
    }
  }

  /** One pass over `0..=len`; the last position only closes a full block or superblock. */
  method NewSupport(qv: QVector, b: nat) returns (r: RSSupportPlain)
    requires qv.Valid() && BlockSize(b) && qv.Len() < MAX_LEN
    ensures r.b == b
    ensures IsFinalSuperblocks(qv.Contents(), b, r.superblocks)
    ensures IsFinalSamples(qv.Contents(), b, r.selectSamples)
    ensures r.Supports(qv.Contents())
  {
    hide *;
    ghost var q := qv.Contents();
    var superblockCounters: seq<nat>, blockCounters: seq<nat> := [0, 0, 0, 0], [0, 0, 0, 0];
    var superblocks: seq<SuperblockPlain> := [];
    var selectSamples: seq<seq<nat>> := [[], [], [], []];
    PassStart(q, b);
    var i := 0;
    while i < qv.Len() + 1
      invariant 0 <= i <= qv.Len() + 1
      invariant PassState(q, b, i, superblocks, superblockCounters, blockCounters)
      invariant SampleState(q, b, if i <= |q| then i else |q|, selectSamples)
    {
      superblocks, blockCounters := OpenSuperblock(q, b, i, superblocks, superblockCounters, blockCounters);
      superblocks := CloseBlocks(q, b, i, superblocks, superblockCounters, blockCounters);
      ghost var sbc, bc := superblockCounters, blockCounters;
      if i < qv.Len() {
        var symbol := qv.GetUnchecked(i);
        selectSamples, superblockCounters, blockCounters :=
          CountSymbol(q, b, i, superblocks, symbol, selectSamples, superblockCounters, blockCounters);
      }
      Advance(q, b, i, superblocks, sbc, bc, superblockCounters, blockCounters);
      i := i + 1;
    }
    superblocks := AddSentinelBlock(q, b, qv.Len(), superblocks, superblockCounters, blockCounters);
    selectSamples := AddSentinels(q, b, selectSamples, |superblocks|);
    r := RSSupportPlain(b, superblocks, selectSamples);
    FinalSupports(q, r);
  }

  lemma OpenedCounts(q: seq<int>, b: nat, i: nat, superblocks: seq<SuperblockPlain>, sbc: seq<nat>, bc: seq<nat>)
    requires BlockSize(b) && i < |q| && Opened(q, b, i, i + 1, superblocks, sbc, bc)
    ensures Counts(q, b, i, i / (b * 8), sbc, bc)
    ensures |sbc| == 4 && |bc| == 4 && forall s: nat :: s < 4 ==> sbc[s] == Rank(q, s, i)
  {}

  /** Closes the sample lists. */
  method AddSentinels(ghost q: seq<int>, b: nat, samples: seq<seq<nat>>, nSuperblocks: nat) returns (r: seq<seq<nat>>)
    requires BlockSize(b) && SampleState(q, b, |q|, samples) && nSuperblocks == |q| / (b * 8) + 1
    ensures IsFinalSamples(q, b, r)
  {
    r := samples;
    var s := 0;
    while s < 4
      invariant 0 <= s <= 4 && |r| == 4
      invariant forall k: nat :: k < s ==> r[k] == FinalSamples(q, b, k)
      invariant forall k: nat :: s <= k < 4 ==> r[k] == samples[k]
    {
      if r[s] == [] {
        r := r[s := [0]];
      }
      r := r[s := r[s] + [nSuperblocks - 1]];
      s := s + 1;
    }
  }
}
