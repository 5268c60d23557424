/** Space bounds of the streamed builders, and the places of the level payloads in the output. */
module SpaceBounds {
  import opened RankSelect
  import opened StablePartition
  import opened Arithmetic
  import opened QuadVector
  import opened Superblock
  import opened RankSupport
  import opened BuildSupport
  import opened Words
  import opened PackedLines
  import opened LevelEncoders
  import opened DirectWriter
  import opened LevelPlaces

  function CeilDiv(x: nat, m: nat): nat
    requires m > 0
  {
    (x + m - 1) / m
  }

  /** Bytes of the files of one level of `rows` rows. */
  function LevelBound(rows: nat): nat {
    CeilDiv(rows, 256) * 64 + (rows + 2048) / 2048 * 64 + (CeilDiv(rows, 8192) + 8) * 4
  }

  /** `scratch_upper_bound`, the same for both builders. */
  function ScratchUpperBound(rows: nat, levels: nat): nat {
    if levels == 0 then 0 else rows * 4 + (if levels > 1 then rows * 4 else 0) + LevelBound(rows)
  }

  /** `container_output_upper_bound` */
  function ContainerOutputUpperBound(rows: nat, levels: nat, directoryEntryBytes: nat, metadataBytes: nat): nat {
    levels * (LevelBound(rows) + 128) + AlignUp(levels * directoryEntryBytes + HEADER_SIZE + metadataBytes, 64)
  }

  // ---- Files of one level ----

  ghost function SamplesOf(occurrences: nat): nat {
    if occurrences == 0 then 2 else (occurrences - 1) / SELECT_NUM_SAMPLES + 2
  }

  /** However the rows are spread over the symbols, the samples stay within one bound. */
  lemma SampleTotal(a: nat, b: nat, c: nat, d: nat)
    ensures SamplesOf(a) + SamplesOf(b) + SamplesOf(c) + SamplesOf(d) <= (a + b + c + d) / SELECT_NUM_SAMPLES + 8
  {
    SampleAtMost(a);
    SampleAtMost(b);
    SampleAtMost(c);
    SampleAtMost(d);
  }

  lemma SampleAtMost(a: nat)
    ensures SamplesOf(a) <= a / SELECT_NUM_SAMPLES + 2
  {
    if a > 0 {
      DivMonotone(a - 1, a, SELECT_NUM_SAMPLES);
    }
  }

  /** And never fall short of it by more than four entries. */
  lemma SampleLeast(a: nat, b: nat, c: nat, d: nat)
    ensures CeilDiv(a + b + c + d, SELECT_NUM_SAMPLES) + 4 <= SamplesOf(a) + SamplesOf(b) + SamplesOf(c) + SamplesOf(d)
  {
    CeilSum(a, b);
    CeilSum(c, d);
    CeilSum(a + b, c + d);
    SampleAtLeast(a);
    SampleAtLeast(b);
    SampleAtLeast(c);
    SampleAtLeast(d);
  }

  lemma CeilSum(x: nat, y: nat)
    ensures CeilDiv(x + y, SELECT_NUM_SAMPLES) <= CeilDiv(x, SELECT_NUM_SAMPLES) + CeilDiv(y, SELECT_NUM_SAMPLES)
  {}

  lemma SampleAtLeast(a: nat)
    ensures CeilDiv(a, SELECT_NUM_SAMPLES) + 1 <= SamplesOf(a)
  {}

  lemma LevelBoundMonotone(m: nat, n: nat)
    requires m <= n
    ensures LevelBound(m) <= LevelBound(n)
  {
    DivMonotone(m + 255, n + 255, 256);
    DivMonotone(m + 2048, n + 2048, 2048);
    DivMonotone(m + 8191, n + 8191, 8192);
  }

  /** Measured bytes of a level are within the bound, for every symbol distribution. */
  lemma AuxWithinBound(out: LevelOutput, q: seq<int>, rows: nat)
    requires Bounded(q, 4) && IsOutput(out, q) && |q| <= rows
    ensures out.summary.auxBytes <= LevelBound(rows)
  {
    SampleLengths(out, q);
    RankSum(q, |q|);
    SampleTotal(Occs(q, 0), Occs(q, 1), Occs(q, 2), Occs(q, 3));
    LevelBoundMonotone(|q|, rows);
    DivMonotone(|q|, |q| + 8191, 8192);
    SuperblockRows(|q|);
    hide IsFinalSuperblocks, IsFinalSamples, LinesOf, Rank;
    OutputSizes(out, q);
  }

  /** The bound of a level exceeds what it takes by at most four samples. */
  lemma AuxTight(out: LevelOutput, q: seq<int>)
    requires Bounded(q, 4) && IsOutput(out, q)
    ensures LevelBound(|q|) <= out.summary.auxBytes + 16
  {
    SampleLengths(out, q);
    RankSum(q, |q|);
    SampleLeast(Occs(q, 0), Occs(q, 1), Occs(q, 2), Occs(q, 3));
    SuperblockRows(|q|);
    hide IsFinalSuperblocks, IsFinalSamples, LinesOf, Rank;
    OutputSizes(out, q);
  }

  lemma SuperblockRows(n: nat)
    ensures n / 2048 + 1 == (n + 2048) / 2048
  {}

  lemma OutputSizes(out: LevelOutput, q: seq<int>)
    requires IsOutput(out, q)
    ensures |out.data| == CeilDiv(|q|, 256) && |out.superblocks| == |q| / 2048 + 1 && |out.select| == 4
    ensures out.summary.auxBytes == |out.data| * 64 + |out.superblocks| * 64
         + (|out.select[0]| + |out.select[1]| + |out.select[2]| + |out.select[3]|) * 4
  {
    hide IsFinalSamples, IsFinal, LineOf;
  }

  lemma SampleLengths(out: LevelOutput, q: seq<int>)
    requires IsOutput(out, q)
    ensures |out.select| == 4 && forall s: nat :: s < 4 ==> |out.select[s]| == SamplesOf(Occs(q, s))
  {
    hide LinesOf, IsFinalSuperblocks, FinalSamples, AuxBytes;
    forall s: nat | s < 4
      ensures |out.select[s]| == SamplesOf(Occs(q, s))
    {
      FinalSamplesOk(q, 256, s);
    }
  }

  /** At every level source, partition and level files together fit the scratch space announced. */
  ghost predicate ScratchSuffices(outs: seq<LevelOutput>, rows: nat) {
    forall l :: 0 <= l < |outs| ==>
      rows * 4 + (if l + 1 < |outs| then rows * 4 else 0) + outs[l].summary.auxBytes <= ScratchUpperBound(rows, |outs|)
  }

  /** The first level, which holds all rows, needs the announced space but for four samples. */
  ghost predicate ScratchTight(outs: seq<LevelOutput>, rows: nat) {
    |outs| > 0 ==> ScratchUpperBound(rows, |outs|) <= rows * 4 + (if |outs| > 1 then rows * 4 else 0) + outs[0].summary.auxBytes + 16
  }

  lemma PeaksWithinScratch(outs: seq<LevelOutput>, w: seq<Word>, rows: nat)
    requires OutputsOf(outs, w) && forall l :: 0 <= l < |outs| ==> Bounded(LevelDigits(w, l), 4) && |LevelDigits(w, l)| <= rows
    ensures ScratchSuffices(outs, rows)
    ensures (|outs| > 0 ==> |LevelDigits(w, 0)| == rows) ==> ScratchTight(outs, rows)
  {
    hide Level, LevelDigits, IsOutput, ScratchUpperBound;
    if |outs| > 0 && |LevelDigits(w, 0)| == rows {
      FirstTight(outs[0], LevelDigits(w, 0), rows, |outs|);
    }
    forall l | 0 <= l < |outs|
      ensures rows * 4 + (if l + 1 < |outs| then rows * 4 else 0) + outs[l].summary.auxBytes <= ScratchUpperBound(rows, |outs|)
    {
      PeakWithinScratch(outs[l], LevelDigits(w, l), rows, |outs|, l);
    }
  }

  lemma PeakWithinScratch(out: LevelOutput, q: seq<int>, rows: nat, levels: nat, level: nat)
    requires Bounded(q, 4) && IsOutput(out, q) && |q| <= rows && level < levels
    ensures rows * 4 + (if level + 1 < levels then rows * 4 else 0) + out.summary.auxBytes <= ScratchUpperBound(rows, levels)
  {
    AuxWithinBound(out, q, rows);
  }

  lemma FirstTight(out: LevelOutput, q: seq<int>, rows: nat, levels: nat)
    requires Bounded(q, 4) && IsOutput(out, q) && |q| == rows && levels > 0
    ensures ScratchUpperBound(rows, levels) <= rows * 4 + (if levels > 1 then rows * 4 else 0) + out.summary.auxBytes + 16
  {
    AuxTight(out, q);
    hide LevelBound, IsOutput;
  }

  /** The bounds themselves fit 64 bits for every row count the format admits. */
  lemma BoundsFit(rows: nat, levels: nat)
    requires rows < MAX_LEN && levels <= 16
    ensures ScratchUpperBound(rows, levels) < 0x1_0000_0000_0000_0000
    ensures ContainerOutputUpperBound(rows, levels, 136, 0x20_0000) < 0x1_0000_0000_0000_0000
  {
    LevelBoundSize(rows);
    hide LevelBound, AlignUp;
    var perLevel := LevelBound(rows) + 128;
    assert levels * perLevel <= 16 * perLevel by {
      MulMonotone(perLevel, levels, 16);
    }
  }

  lemma LevelBoundSize(rows: nat)
    requires rows < MAX_LEN
    ensures LevelBound(rows) <= 2 * rows + 0x1000
  {}

  // ---- Places in the output ----

  function FileCounts(out: LevelOutput): (c: LevelCounts)
    requires |out.select| == 4
    ensures c.Valid()
  {
    LevelCounts(|out.data|, |out.superblocks|, [|out.select[0]|, |out.select[1]|, |out.select[2]|, |out.select[3]|])
  }

  ghost predicate FourSamples(outs: seq<LevelOutput>) {
    forall l :: 0 <= l < |outs| ==> |outs[l].select| == 4
  }

  ghost function AllFileCounts(outs: seq<LevelOutput>): (c: seq<LevelCounts>)
    requires FourSamples(outs)
    ensures |c| == |outs| && AllCounts(c) && forall l :: 0 <= l < |outs| ==> c[l] == FileCounts(outs[l])
  {
    seq(|outs|, l requires 0 <= l < |outs| => FileCounts(outs[l]))
  }

  /** All levels of a streamed tree: disjoint payloads, and a total size within the bound announced beforehand. */
  method PlaceOutputs(outs: seq<LevelOutput>, start: nat, ghost w: seq<Word>, ghost rows: nat) returns (places: seq<LevelPlace>, cursor: nat)
    requires OutputsOf(outs, w) && forall l :: 0 <= l < |outs| ==> Bounded(LevelDigits(w, l), 4) && |LevelDigits(w, l)| <= rows
    ensures FourSamples(outs) && AllPlaced(places, AllFileCounts(outs), start) && |places| == |outs|
    ensures cursor == CursorAt(places, start, |places|) && start <= cursor <= start + |outs| * (LevelBound(rows) + 128)
  {
    hide Level, LevelDigits, IsOutput, LevelBound, AuxBytes, Placed, AllPlaced, LevelCounts.Bytes, OutputsOf, FileCounts, CursorAt;
    AllFit(outs, w, rows);
    var counts := seq(|outs|, l requires 0 <= l < |outs| && |outs[l].select| == 4 => FileCounts(outs[l]));
    places, cursor := PlaceLevels(counts, start, LevelBound(rows));
    assert counts == AllFileCounts(outs);
  }

  lemma AllFit(outs: seq<LevelOutput>, w: seq<Word>, rows: nat)
    requires OutputsOf(outs, w) && forall l :: 0 <= l < |outs| ==> Bounded(LevelDigits(w, l), 4) && |LevelDigits(w, l)| <= rows
    ensures forall l :: 0 <= l < |outs| ==> |outs[l].select| == 4 && FileCounts(outs[l]).Bytes() <= LevelBound(rows)
  {
    hide Level, LevelDigits, IsOutput, LevelBound, LevelCounts.Bytes, FileCounts;
    forall l | 0 <= l < |outs|
      ensures |outs[l].select| == 4 && FileCounts(outs[l]).Bytes() <= LevelBound(rows)
    {
      LevelFits(outs[l], LevelDigits(w, l), rows);
    }
  }

  lemma LevelFits(out: LevelOutput, q: seq<int>, rows: nat)
    requires Bounded(q, 4) && IsOutput(out, q) && |q| <= rows
    ensures |out.select| == 4 && FileCounts(out).Bytes() <= LevelBound(rows)
  {
    AuxWithinBound(out, q, rows);
    hide LinesOf, IsFinalSuperblocks, IsFinalSamples;
  }

  /** Levels that all hold `rows` rows fill the announced size but for padding and four samples each. */
  lemma OutputTight(outs: seq<LevelOutput>, w: seq<Word>, rows: nat, places: seq<LevelPlace>, start: nat)
    requires OutputsOf(outs, w) && forall l :: 0 <= l < |outs| ==> Bounded(LevelDigits(w, l), 4) && |LevelDigits(w, l)| == rows
    requires FourSamples(outs) && AllPlaced(places, AllFileCounts(outs), start) && |places| == |outs|
    ensures start + |outs| * LevelBound(rows) <= CursorAt(places, start, |places|) + |outs| * 16
  {
    hide Level, LevelDigits, IsOutput, LevelBound, LevelCounts.Bytes, FileCounts, AllPlaced, CursorAt;
    forall l | 0 <= l < |outs|
      ensures LevelBound(rows) <= AllFileCounts(outs)[l].Bytes() + 16
    {
      LevelTight(outs[l], LevelDigits(w, l));
    }
    PlacesLeast(places, AllFileCounts(outs), start, LevelBound(rows), |places|);
  }

  lemma LevelTight(out: LevelOutput, q: seq<int>)
    requires Bounded(q, 4) && IsOutput(out, q)
    ensures |out.select| == 4 && LevelBound(|q|) <= FileCounts(out).Bytes() + 16
  {
    AuxTight(out, q);
    hide LinesOf, IsFinalSuperblocks, IsFinalSamples, LevelBound;
  }

  lemma {:induction false} PlacesLeast(places: seq<LevelPlace>, counts: seq<LevelCounts>, start: nat, least: nat, l: nat)
    requires AllPlaced(places, counts, start) && AllCounts(counts) && l <= |places|
    requires forall k :: 0 <= k < |counts| ==> least <= counts[k].Bytes() + 16
    ensures start + l * least <= CursorAt(places, start, l) + l * 16
  {
    hide LevelCounts.Bytes, AllPlaced, Placed;
    PlacesStart(places, start);
    if l > 0 {
      PlacesLeast(places, counts, start, least, l - 1);
      PlacesCount(places, counts, start);
      PlaceOfCounts(places, counts, start, l - 1);
      PlaceLeast(places[l - 1], counts[l - 1], CursorAt(places, start, l - 1));
      assert l * least == (l - 1) * least + least;
    }
  }

  lemma PlacesStart(places: seq<LevelPlace>, start: nat)
    ensures CursorAt(places, start, 0) == start
  {}

  lemma PlaceLeast(p: LevelPlace, c: LevelCounts, start: nat)
    requires Placed(p, c, start)
    ensures start + c.Bytes() <= p.end
  {
    PlacedOrder(p, c, start);
    hide Placed;
  }
}
