/**
 The containers that the streamed builders write: they hold the directory and the
 code tables of the container of the tree in memory, and stay within the size
 announced before anything is read.
 */
module StreamedContainers {
  import opened Wrappers
  import opened Arithmetic
  import opened RankSelect
  import opened StablePartition
  import opened Words
  import opened WaveletMatrix
  import opened CraftCodes
  import opened QuadVector
  import opened BuildSupport
  import opened RSQVectors
  import PartitionInto
  import opened SymbolWords
  import opened QuadWavelet
  import opened BuildQuadWavelet
  import opened CodeTables
  import opened DecodeTables
  import opened HuffWavelet
  import opened LevelPlaces
  import opened PackedLines
  import opened LevelEncoders
  import opened DirectWriter
  import opened DirectHuffWriter
  import opened SpaceBounds
  import opened ByteCodec
  import opened LevelBytes
  import opened Containers
  import opened CodeTableBytes
  import QwtbFormat
  import HqwbFormat

  /** The directory entry of a streamed level. */
  ghost function StreamedDir(out: LevelOutput, p: LevelPlace): LevelDir {
    var s := out.summary;
    LevelDir(p.offData, s.nDatalines, s.positionBits, p.offSuperblocks, s.nSuperblocks, p.offSel, s.nSel, s.nOccsSmaller)
  }

  /** The streamed levels stand where the levels of the tree in memory stand, with equal directory entries. */
  ghost predicate SameContainer(outs: seq<LevelOutput>, places: seq<LevelPlace>, size: nat, qvs: seq<RSQVector>, places': seq<LevelPlace>, size': nat) {
    && places == places' && size == size' && |outs| == |qvs| == |places|
    && forall l :: 0 <= l < |outs| ==>
         |qvs[l].rsSupport.selectSamples| == 4 && SameLevel(outs[l], qvs[l]) && StreamedDir(outs[l], places[l]) == DirOf(qvs[l], places'[l])
  }

  lemma SamePlaces(outs: seq<LevelOutput>, w: seq<Word>, places: seq<LevelPlace>, size: nat, start: nat,
                   qvs: seq<RSQVector>, places': seq<LevelPlace>, size': nat)
    requires OutputsOf(outs, w) && FourSamples(outs) && |outs| == |qvs| && forall l :: 0 <= l < |outs| ==> SameLevel(outs[l], qvs[l])
    requires AllPlaced(places, AllFileCounts(outs), start) && |places| == |outs| && size == CursorAt(places, start, |places|)
    requires forall l :: 0 <= l < |qvs| ==> |qvs[l].rsSupport.selectSamples| == 4
    requires AllPlaced(places', AllCountsOf(qvs), start) && |places'| == |qvs| && size' == CursorAt(places', start, |places'|)
    ensures SameContainer(outs, places, size, qvs, places', size')
  {
    hide AllPlaced, IsOutput, LevelDigits, Level;
    forall l | 0 <= l < |outs|
      ensures AllFileCounts(outs)[l] == AllCountsOf(qvs)[l]
    {
      SameCounts(outs[l], qvs[l]);
    }
    assert AllFileCounts(outs) == AllCountsOf(qvs);
    AllPlacedOnce(places, places', AllCountsOf(qvs), start, |outs|);
    assert places[..|outs|] == places && places'[..|outs|] == places';
    forall l | 0 <= l < |outs|
      ensures StreamedDir(outs[l], places[l]) == DirOf(qvs[l], places'[l])
    {
      SameEntry(outs[l], LevelDigits(w, l), qvs[l], places[l]);
    }
  }

  lemma SameCounts(out: LevelOutput, v: RSQVector)
    requires SameLevel(out, v) && |out.select| == 4
    ensures |v.rsSupport.selectSamples| == 4 && FileCounts(out) == LevelBytes.CountsOf(v)
  {}

  lemma SameEntry(out: LevelOutput, q: seq<int>, v: RSQVector, p: LevelPlace)
    requires IsOutput(out, q) && SameLevel(out, v)
    ensures |v.rsSupport.selectSamples| == 4 && StreamedDir(out, p) == DirOf(v, p)
  {
    hide LinesOf, IsFinalSuperblocks, IsFinalSamples, AuxBytes;
  }

  // ---- The plain tree ----

  /** Streams all levels and places them: for every source within the announced size. */
  method WriteQwtb(source: seq<nat>, sigma: nat, blockRows: nat) returns (r: Option<seq<LevelOutput>>, places: seq<LevelPlace>, size: nat)
    requires |source| < MAX_LEN && sigma < Pow4(16) && blockRows > 0
    ensures r.Some? <==> |source| == 0 || MaxSymbol(source, sigma)
    ensures r.Some? ==> |r.value| == |places| == (if |source| == 0 then 0 else LevelsFor(sigma)) && OutputsOf(r.value, Rows(source, LevelsFor(sigma)))
    ensures r.Some? ==> FourSamples(r.value) && AllPlaced(places, AllFileCounts(r.value), QwtbFormat.PayloadStart(|places|))
    ensures r.Some? ==> size == CursorAt(places, QwtbFormat.PayloadStart(|places|), |places|)
    ensures r.Some? ==> size <= ContainerOutputUpperBound(|source|, |places|, DIR_SIZE, 0) <= size + |places| * 144
    ensures r.Some? ==> ScratchSuffices(r.value, |source|) && ScratchTight(r.value, |source|)
  {
    hide OutputsOf, MaxSymbol, LevelsFor, LevelDigits, AllPlaced, CursorAt, Rows, LevelBound, AllFileCounts, Pow4, FourSamples, ScratchSuffices, ScratchTight;
    r := WriteDirect(source, sigma, blockRows);
    places, size := [], 0;
    if r.None? {
      return;
    }
    ghost var w := Rows(source, LevelsFor(sigma));
    PlainLevelSizes(source, sigma, |r.value|);
    PeaksWithinScratch(r.value, w, |source|);
    places, size := PlaceOutputs(r.value, QwtbFormat.PayloadStart(|r.value|), w, |source|);
    OutputTight(r.value, w, |source|, places, QwtbFormat.PayloadStart(|r.value|));
    StartIsDirectory(|r.value|);
  }

  lemma StartIsDirectory(levels: nat)
    ensures QwtbFormat.PayloadStart(levels) == AlignUp(levels * DIR_SIZE + HEADER_SIZE + 0, 64)
  {}

  lemma PlainLevelSizes(source: seq<nat>, sigma: nat, levels: nat)
    requires |source| == 0 || MaxSymbol(source, sigma)
    requires levels == if |source| == 0 then 0 else LevelsFor(sigma)
    ensures forall l :: 0 <= l < levels ==>
      Bounded(LevelDigits(Rows(source, LevelsFor(sigma)), l), 4) && |LevelDigits(Rows(source, LevelsFor(sigma)), l)| == |source|
  {
    hide LevelsFor, Level, Rows;
    var n := LevelsFor(sigma);
    if |source| > 0 {
      LevelsForSigma(sigma);
      RowsShape(source, n);
      forall l | 0 <= l < n
        ensures Bounded(LevelDigits(Rows(source, n), l), 4) && |LevelDigits(Rows(source, n), l)| == |source|
      {
        UniformLevel(Rows(source, n), n, l);
      }
    }
  }

  /** What is streamed is the container of the tree in memory. */
  lemma StreamedQwtb(source: seq<nat>, sigma: nat, outs: seq<LevelOutput>, places: seq<LevelPlace>, size: nat,
                     t: QWaveletTree, bytes: seq<Byte>, tWidth: nat, places': seq<LevelPlace>)
    requires |source| > 0 && MaxSymbol(source, sigma) && |outs| == |places| == LevelsFor(sigma) && OutputsOf(outs, Rows(source, LevelsFor(sigma)))
    requires FourSamples(outs) && AllPlaced(places, AllFileCounts(outs), QwtbFormat.PayloadStart(|places|))
    requires size == CursorAt(places, QwtbFormat.PayloadStart(|places|), |places|)
    requires t.Indexes(source) && MaxSymbol(source, t.sigma) && t.nLevels == LevelsFor(t.sigma) && BuiltLevels(t.qvs, Rows(source, t.nLevels), 256)
    requires QwtbFormat.Image(bytes, t, 256, tWidth, places') && |places'| == t.nLevels
    requires |bytes| == CursorAt(places', QwtbFormat.PayloadStart(t.nLevels), t.nLevels)
    ensures sigma == t.sigma && SameContainer(outs, places, size, t.qvs, places', |bytes|)
  {
    hide AllPlaced, IsOutput, Level, LevelDigits, MaxSymbol, LevelsFor, SameLevel, QWaveletTree.Indexes, BuiltLevel, Rows, CursorAt, FourSamples;
    hide QwtbFormat.HeaderAt, DirectoryAt, PayloadsAt, QwtbFormat.PayloadStart, AllCountsOf, AllFileCounts, SameContainer;
    StreamedIsBuilt(source, sigma, outs, t);
    assert t.qvs[..t.nLevels] == t.qvs;
    SamePlaces(outs, Rows(source, LevelsFor(sigma)), places, size, QwtbFormat.PayloadStart(t.nLevels), t.qvs, places', |bytes|);
  }

  // ---- The Huffman-shaped tree ----

  /** Where the payloads may start, behind the code tables. */
  function CodeTablesEnd(codes: seq<PrefixCode>, decode: seq<seq<Entry>>, levels: nat): nat {
    HqwbFormat.TablesStart(levels) + 8 * |codes| + TableSize(decode)
  }

  /** Streams all levels, builds the code tables and places the levels behind them: for all codes within the announced size. */
  method WriteHqwb(source: seq<nat>, codes: seq<PrefixCode>, blockRows: nat)
    returns (outs: seq<LevelOutput>, lens: seq<nat>, decode: seq<seq<Entry>>, places: seq<LevelPlace>, size: nat)
    requires 0 < |source| < MAX_LEN && |codes| > 0 && blockRows > 0 && Encodes(source, codes)
    ensures PartitionInto.CodesCover(source, codes) && OutputsOf(outs, CodeRows(source, codes)) && |outs| == |lens| == |places|
    ensures forall l :: 0 <= l < |lens| ==> lens[l] == |Level(CodeRows(source, codes), l)|
    ensures (forall i :: 0 <= i < |source| ==> codes[source[i]].len <= 2 * |outs|) && exists x :: 0 <= x < |codes| && codes[x].len == 2 * |outs|
    ensures Decodes(decode, codes) && |decode| == 2 * |outs| + 1 && decode[0] == []
    ensures FourSamples(outs) && AllPlaced(places, AllFileCounts(outs), CodeTablesEnd(codes, decode, |outs|))
    ensures size == CursorAt(places, CodeTablesEnd(codes, decode, |outs|), |places|)
    ensures size <= ContainerOutputUpperBound(|source|, 16, Containers.HQWT_DIR_SIZE, 20 * |codes| + (33 * 4 + 7))
    ensures ScratchSuffices(outs, |source|) && ScratchTight(outs, |source|)
  {
    hide ScratchSuffices, ScratchTight, OutputsOf, LevelDigits, Level, AllPlaced, CursorAt, LevelBound, AllFileCounts, FourSamples, Encodes, Decodes, CodeTablesEnd, ContainerOutputUpperBound, CodeRows;
    outs, lens := WriteHuffDirect(source, codes, blockRows);
    CodesDiffer(source, codes, |outs|);
    decode := FillDecode(codes, 2 * |outs|);
    HuffLevelSizes(source, codes, |outs|);
    PeaksWithinScratch(outs, CodeRows(source, codes), |source|);
    places, size := PlaceOutputs(outs, CodeTablesEnd(codes, decode, |outs|), CodeRows(source, codes), |source|);
    HqwbWithinBound(codes, decode, |source|, |outs|, size);
  }

  lemma CodesDiffer(source: seq<nat>, codes: seq<PrefixCode>, levels: nat)
    requires Encodes(source, codes) && PartitionInto.CodesCover(source, codes)
    requires forall i :: 0 <= i < |source| ==> codes[source[i]].len <= 2 * levels
    requires exists x :: 0 <= x < |codes| && codes[x].len == 2 * levels
    ensures levels <= 16 && forall x :: 0 <= x < |codes| ==> codes[x].len <= 2 * levels
    ensures forall x, y :: 0 <= x < |codes| && 0 <= y < |codes| && codes[x].len > 0 && codes[x] == codes[y] ==> x == y
  {
    forall x | 0 <= x < |codes|
      ensures codes[x].len <= 2 * levels
    {
      if codes[x].len > 0 {
        var i :| 0 <= i < |source| && source[i] == x;
      }
    }
  }

  lemma HuffLevelSizes(source: seq<nat>, codes: seq<PrefixCode>, levels: nat)
    requires Encodes(source, codes) && PartitionInto.CodesCover(source, codes) && |source| > 0
    requires exists x :: 0 <= x < |codes| && codes[x].len == 2 * levels
    ensures forall l :: 0 <= l < levels ==>
      Bounded(LevelDigits(CodeRows(source, codes), l), 4) && |LevelDigits(CodeRows(source, codes), l)| <= |source|
    ensures |LevelDigits(CodeRows(source, codes), 0)| == |source|
  {
    FirstLevelWhole(source, codes);
    hide Level, Encodes;
    forall l | 0 <= l < levels
      ensures Bounded(LevelDigits(CodeRows(source, codes), l), 4) && |LevelDigits(CodeRows(source, codes), l)| <= |source|
    {
      LevelNotEmpty(source, codes, 2 * levels, l);
    }
  }

  lemma FirstLevelWhole(source: seq<nat>, codes: seq<PrefixCode>)
    requires Encodes(source, codes) && PartitionInto.CodesCover(source, codes)
    ensures |LevelDigits(CodeRows(source, codes), 0)| == |source|
  {
    hide Level, Labels;
    CodeRowsShape(source, codes);
    LevelZero(CodeRows(source, codes));
  }

  /** Bytes of a decode table: at most one entry a symbol. */
  lemma TableBytes(decode: seq<seq<Entry>>, encode: seq<PrefixCode>)
    requires Decodes(decode, encode)
    ensures TableSize(decode) <= 4 * |decode| + 12 * |encode|
  {
    hide Decodes;
    FewEntries(decode, encode);
    SizeOfEntries(decode);
  }

  lemma {:induction false} SizeOfEntries(decode: seq<seq<Entry>>)
    ensures TableSize(decode) == 4 * |decode| + 12 * EntriesIn(decode)
  {
    if |decode| > 0 {
      SizeOfEntries(decode[..|decode| - 1]);
    }
  }

  lemma AlignUpMonotone(x: nat, y: nat, a: nat)
    requires a > 0 && x <= y
    ensures AlignUp(x, a) <= AlignUp(y, a)
  {
    DivMonotone(x + a - 1, y + a - 1, a);
    MulMonotone(a, (x + a - 1) / a, (y + a - 1) / a);
  }

  lemma HqwbWithinBound(codes: seq<PrefixCode>, decode: seq<seq<Entry>>, rows: nat, levels: nat, size: nat)
    requires Decodes(decode, codes) && levels <= 16 && |decode| == 2 * levels + 1
    requires size <= CodeTablesEnd(codes, decode, levels) + levels * (LevelBound(rows) + 128)
    ensures size <= ContainerOutputUpperBound(rows, 16, Containers.HQWT_DIR_SIZE, 20 * |codes| + (33 * 4 + 7))
  {
    TableBytes(decode, codes);
    hide AlignUp, LevelBound, Decodes, TableSize;
    var meta := 20 * |codes| + (33 * 4 + 7);
    assert CodeTablesEnd(codes, decode, levels) < HEADER_SIZE + 136 * levels + 8 + 8 * |codes| + 4 * 33 + 12 * |codes|;
    AlignUpMonotone(levels * 136 + HEADER_SIZE + meta, 16 * 136 + HEADER_SIZE + meta, 64);
    MulMonotone(LevelBound(rows) + 128, levels, 16);
  }

  /** What is streamed is the container of the tree in memory that has the same codes. */
  lemma StreamedHqwb(source: seq<nat>, codes: seq<PrefixCode>, outs: seq<LevelOutput>, lens: seq<nat>, decode: seq<seq<Entry>>,
                     places: seq<LevelPlace>, size: nat, t: HuffQWaveletTree, bytes: seq<Byte>, tWidth: nat, places': seq<LevelPlace>)
    requires t.Indexes(source) && t.codesEncode == codes && PartitionInto.CodesCover(source, codes) && BuiltLevels(t.qvs, CodeRows(source, codes), 256)
    requires |outs| == |lens| == |places| == t.nLevels && OutputsOf(outs, CodeRows(source, codes))
    requires forall l :: 0 <= l < |lens| ==> lens[l] == |Level(CodeRows(source, codes), l)|
    requires Decodes(decode, codes) && |decode| == 2 * |outs| + 1 && decode[0] == []
    requires FourSamples(outs) && AllPlaced(places, AllFileCounts(outs), CodeTablesEnd(codes, decode, |outs|))
    requires size == CursorAt(places, CodeTablesEnd(codes, decode, |outs|), |places|)
    requires HqwbFormat.HuffImage(bytes, t, 256, tWidth, places') && |places'| == t.nLevels
    requires |bytes| == CursorAt(places', HqwbFormat.TablesEnd(t), t.nLevels)
    ensures lens == t.lens && decode == t.codesDecode && SameContainer(outs, places, size, t.qvs, places', |bytes|)
  {
    hide AllPlaced, IsOutput, Level, LevelDigits, SameLevel, BuiltLevel, CursorAt, FourSamples, Decodes, Encodes, CodeRows, HuffQWaveletTree.LevelsHold;
    hide HqwbFormat.HuffHeaderAt, DirectoryAt, PayloadsAt, AllCountsOf, AllFileCounts, SameContainer, CodesAt, TableAt, TableSize, HqwbFormat.TablesStart;
    StreamedHuffIsBuilt(source, codes, outs, lens, t);
    TableOnce(decode, t.codesDecode, codes);
    assert t.qvs[..t.nLevels] == t.qvs;
    SamePlaces(outs, CodeRows(source, codes), places, size, HqwbFormat.TablesEnd(t), t.qvs, places', |bytes|);
  }
}
