/**
 The streamed builder of the plain tree: every level is read block by block from
 the bucket files of the level before, encoded, and distributed again. Its
 payloads are those of the tree built in memory.
 */
module DirectWriter {
  import opened Wrappers
  import opened RankSelect
  import opened StablePartition
  import opened Arithmetic
  import opened Words
  import opened WaveletMatrix
  import opened Bits
  import opened QuadVector
  import opened Superblock
  import opened RankSupport
  import opened BuildSupport
  import opened RSQVectors
  import opened PartitionInto
  import opened SymbolWords
  import opened QuadWavelet
  import opened BuildQuadWavelet
  import opened PackedLines
  import opened LevelEncoders
  import opened BucketRuns

  /** The files of one finished level and its directory entry. */
  datatype LevelOutput = LevelOutput(data: seq<DataLine>, superblocks: seq<SuperblockPlain>, select: seq<seq<nat>>, summary: LevelSummary)

  /** What the files of a level with digits `q` must hold. */
  ghost predicate IsOutput(out: LevelOutput, q: seq<int>) {
    && out.data == LinesOf(q)
    && IsFinalSuperblocks(q, 256, out.superblocks)
    && IsFinalSamples(q, 256, out.select)
    && out.summary.positionBits == 2 * |q| && out.summary.nDatalines == |out.data| && out.summary.nSuperblocks == |out.superblocks|
    && |out.select| == 4 && out.summary.nSel == [|out.select[0]|, |out.select[1]|, |out.select[2]|, |out.select[3]|]
    && |out.summary.nOccsSmaller| == 5 && (forall d: nat :: d <= 4 ==> out.summary.nOccsSmaller[d] == OccsBelow(q, d))
    && out.summary.auxBytes == AuxBytes(|out.data|, |out.superblocks|, out.select)
  }

  /** Word for word what the level of the tree in memory holds. */
  ghost predicate SameLevel(out: LevelOutput, v: RSQVector) {
    && out.data == v.qv.data && out.summary.positionBits == v.qv.position
    && out.superblocks == v.rsSupport.superblocks && out.select == v.rsSupport.selectSamples
    && out.summary.nOccsSmaller == v.nOccsSmaller
  }

  lemma OutputIsLevel(out: LevelOutput, v: RSQVector, w: seq<Word>, l: nat)
    requires IsOutput(out, LevelDigits(w, l)) && BuiltLevel(v, w, l, 256) && Bounded(LevelDigits(w, l), 4)
    ensures SameLevel(out, v)
  {
    hide Level, LevelDigits;
    var q := LevelDigits(w, l);
    assert |q| == v.Len() && v.qv.position == 2 * |q|;
    BuilderLines(v.qv.data, q);
    SameSuperblocks(q, 256, out.superblocks, v.rsSupport.superblocks);
    hide *;
    SameSamples(q, 256, out.select, v.rsSupport.selectSamples);
    SameOffsets(q, out, v);
  }

  lemma SameOffsets(q: seq<int>, out: LevelOutput, v: RSQVector)
    requires IsOutput(out, q) && v.Valid() && v.Contents() == q
    ensures out.summary.nOccsSmaller == v.nOccsSmaller
  {
    hide IsFinalSuperblocks, IsFinalSamples, LinesOf, RSSupportPlain.Supports;
  }

  // ---- One level ----

  /** Bucket `d` holds the rows of the first `seen` whose digit is `d`. */
  ghost predicate BucketsAt(text: seq<nat>, keys: seq<int>, k: nat, seen: nat, buckets: seq<seq<nat>>)
    requires |text| == |keys| && seen <= |text|
  {
    |buckets| == k && forall d: nat :: d < k ==> buckets[d] == Bucket(text[..seen], keys[..seen], d)
  }

  lemma BucketsGrow(text: seq<nat>, keys: seq<int>, k: nat, seen: nat, n: nat, was: seq<seq<nat>>, now: seq<seq<nat>>)
    requires |text| == |keys| && seen + n <= |text| && BucketsAt(text, keys, k, seen, was)
    requires |now| == k && forall d: nat :: d < k ==> now[d] == was[d] + Bucket(text[seen..seen + n], keys[seen..seen + n], d)
    ensures BucketsAt(text, keys, k, seen + n, now)
  {
    hide Bucket;
    forall d: nat | d < k
      ensures now[d] == Bucket(text[..seen + n], keys[..seen + n], d)
    {
      BucketSplit(text, keys, d, seen, seen + n);
    }
  }

  lemma BucketsDone(text: seq<nat>, keys: seq<int>, k: nat, buckets: seq<seq<nat>>)
    requires |text| == |keys| && (k == 4 || k == 5) && BucketsAt(text, keys, k, |text|, buckets)
    ensures Concat(buckets) == Partition(text, keys, k)
  {
    assert text[..|text|] == text && keys[..|text|] == keys;
    if k == 4 {
      FourFiles(buckets, text, keys);
    } else {
      FiveFiles(buckets, text, keys);
    }
  }

  /** Digits of a block and its largest symbol. */
  method BlockDigits(symbols: seq<nat>, shift: nat) returns (digits: seq<nat>, blockMax: nat)
    ensures |digits| == |symbols| && forall i :: 0 <= i < |symbols| ==> digits[i] == TwoBits(symbols[i], shift)
    ensures forall i :: 0 <= i < |symbols| ==> symbols[i] <= blockMax
    ensures |symbols| > 0 ==> blockMax in symbols
    ensures |symbols| == 0 ==> blockMax == 0
  {
    hide TwoBits;
    digits, blockMax := [], 0;
    var i := 0;
    while i < |symbols|
      invariant 0 <= i <= |symbols| == |symbols| && |digits| == i
      invariant forall j :: 0 <= j < i ==> digits[j] == TwoBits(symbols[j], shift)
      invariant forall j :: 0 <= j < i ==> symbols[j] <= blockMax
      invariant i == 0 ==> blockMax == 0
      invariant i > 0 ==> blockMax in symbols
    {
      if i == 0 || symbols[i] > blockMax {
        blockMax := symbols[i];
      }
      digits := digits + [TwoBits(symbols[i], shift)];
      i := i + 1;
    }
  }

  /** Everything about the pass over a level except the encoder. */
  ghost predicate PassOk(text: seq<nat>, shift: nat, partition: bool, seen: nat, buckets: seq<seq<nat>>) {
    seen <= |text| && (partition ==> BucketsAt(text, ShiftKeys(text, shift), 4, seen, buckets))
  }

  /** Encodes and distributes one staged block. */
  method StreamBlock(encoder: LevelEncoder, ghost text: seq<nat>, shift: nat, partition: bool, symbols: seq<nat>, digits: seq<nat>,
                     seen: nat, buckets: seq<seq<nat>>) returns (buckets': seq<seq<nat>>)
    requires encoder.At(ShiftKeys(text, shift), seen) && PassOk(text, shift, partition, seen, buckets)
    requires seen + |symbols| <= |text| && symbols == text[seen..seen + |symbols|]
    requires |digits| == |symbols| && forall i :: 0 <= i < |symbols| ==> digits[i] == TwoBits(symbols[i], shift)
    modifies encoder
    ensures encoder.At(ShiftKeys(text, shift), seen + |symbols|) && PassOk(text, shift, partition, seen + |symbols|, buckets')
  {
    hide FieldsAt, TwoBits, Bucket, BucketsAt;
    ghost var keys := ShiftKeys(text, shift);
    assert digits == keys[seen..seen + |symbols|];
    encoder.PushBlock(keys, digits, seen);
    buckets' := buckets;
    if partition {
      BucketCount(text, keys, 4, seen, buckets);
      buckets' := WriteBucketRuns(buckets, digits, symbols);
      BucketsGrow(text, keys, 4, seen, |symbols|, buckets, buckets');
    }
  }

  lemma BucketCount(text: seq<nat>, keys: seq<int>, k: nat, seen: nat, buckets: seq<seq<nat>>)
    requires |text| == |keys| && seen <= |text| && BucketsAt(text, keys, k, seen, buckets)
    ensures |buckets| == k
  {}

  /** All blocks of one source file. A symbol above `sigma` ends the pass. */
  method StreamPath(encoder: LevelEncoder, ghost text: seq<nat>, shift: nat, partition: bool, sigma: nat, blockRows: nat,
                    path: seq<nat>, start: nat, buckets: seq<seq<nat>>) returns (ok: bool, buckets': seq<seq<nat>>, max: nat)
    requires encoder.At(ShiftKeys(text, shift), start) && PassOk(text, shift, partition, start, buckets)
    requires start + |path| <= |text| && path == text[start..start + |path|] && blockRows > 0
    modifies encoder
    ensures ok <==> Within(path, |path|, sigma)
    ensures ok ==> encoder.At(ShiftKeys(text, shift), start + |path|) && PassOk(text, shift, partition, start + |path|, buckets')
    ensures ok ==> MaxUpToPath(path, |path|, max)
  {
    hide *;
    buckets', max := buckets, 0;
    var at := 0;
    StartMax(path);
    WithinNone(path, sigma);
    while at < |path|
      invariant 0 <= at <= |path|
      invariant Within(path, at, sigma)
      invariant encoder.At(ShiftKeys(text, shift), start + at) && PassOk(text, shift, partition, start + at, buckets')
      invariant MaxUpToPath(path, at, max)
    {
      var block := if |path| - at < blockRows then |path| - at else blockRows;
      var symbols := path[at..at + block];
      var digits, blockMax := BlockDigits(symbols, shift);
      BlockWithin(path, at, symbols, blockMax, sigma);
      if blockMax > sigma {
        return false, buckets', max;
      }
      SubSlice(text, start, |path|, at, at + block);
      buckets' := StreamBlock(encoder, text, shift, partition, symbols, digits, start + at, buckets');
      MaxOfBlock(path, at, symbols, max, blockMax);
      max := if blockMax > max then blockMax else max;
      at := at + block;
    }
    return true, buckets', max;
  }

  /** Largest of the first `i` symbols; 0 for none. */
  ghost predicate MaxUpToPath(path: seq<nat>, i: nat, max: nat) {
    && i <= |path| && (forall j :: 0 <= j < i ==> path[j] <= max)
    && if i == 0 then max == 0 else exists j :: 0 <= j < i && path[j] == max
  }

  /** The first `i` symbols are at most `sigma`. */
  ghost predicate Within(path: seq<nat>, i: nat, sigma: nat) {
    i <= |path| && forall j :: 0 <= j < i ==> path[j] <= sigma
  }

  lemma WithinNone(path: seq<nat>, sigma: nat)
    ensures Within(path, 0, sigma)
  {}

  /** A block is within the bound exactly when its largest symbol is. */
  lemma BlockWithin(path: seq<nat>, at: nat, symbols: seq<nat>, blockMax: nat, sigma: nat)
    requires at + |symbols| <= |path| && symbols == path[at..at + |symbols|]
    requires (forall i :: 0 <= i < |symbols| ==> symbols[i] <= blockMax) && blockMax in symbols
    requires Within(path, at, sigma)
    ensures blockMax <= sigma ==> Within(path, at + |symbols|, sigma)
    ensures blockMax > sigma ==> !Within(path, |path|, sigma)
  {
    forall i | at <= i < at + |symbols|
      ensures path[i] == symbols[i - at]
    {}
    var k :| 0 <= k < |symbols| && symbols[k] == blockMax;
    assert path[at + k] == blockMax;
  }

  lemma MaxOfBlock(path: seq<nat>, at: nat, symbols: seq<nat>, max: nat, blockMax: nat)
    requires at + |symbols| <= |path| && |symbols| > 0 && symbols == path[at..at + |symbols|] && MaxUpToPath(path, at, max)
    requires (forall i :: 0 <= i < |symbols| ==> symbols[i] <= blockMax) && blockMax in symbols
    ensures MaxUpToPath(path, at + |symbols|, if blockMax > max then blockMax else max)
  {
    var k :| 0 <= k < |symbols| && symbols[k] == blockMax;
    assert path[at + k] == blockMax;
    forall j | at <= j < at + |symbols|
      ensures path[j] <= blockMax
    {
      assert path[j] == symbols[j - at];
    }
  }

  // ---- All files of one level ----

  lemma ConcatAt<T>(files: seq<seq<T>>, i: nat)
    requires i < |files|
    ensures |Concat(files[..i])| + |files[i]| <= |Concat(files)|
    ensures Concat(files[..i + 1]) == Concat(files[..i]) + files[i]
    ensures Concat(files)[|Concat(files[..i])|..|Concat(files[..i])| + |files[i]|] == files[i]
  {
    ConcatSplit(files, i);
    ConcatSplit(files, i + 1);
    ConcatSplit(files[..i + 1], i);
    assert files[..i + 1][..i] == files[..i] && files[..i + 1][i..] == [files[i]];
    assert Concat([files[i]]) == files[i] + Concat([]) == files[i];
  }

  lemma {:induction false} ConcatSplit<T>(files: seq<seq<T>>, i: nat)
    requires i <= |files|
    ensures Concat(files) == Concat(files[..i]) + Concat(files[i..])
  {
    if i == 0 {
      assert files[..0] == [] && files[0..] == files;
    } else {
      ConcatSplit(files[1..], i - 1);
      assert files[..i][1..] == files[1..][..i - 1] && files[1..][i - 1..] == files[i..];
      assert files[..i][0] == files[0];
    }
  }

  /** Reads the source files of a level, encodes its digits and fills its buckets. */
  method StreamLevel(paths: seq<seq<nat>>, shift: nat, partition: bool, sigma: nat, blockRows: nat)
    returns (ok: bool, out: LevelOutput, buckets: seq<seq<nat>>, max: nat)
    requires blockRows > 0 && 0 < |Concat(paths)| < MAX_LEN
    ensures ok <==> Below(Concat(paths), sigma + 1)
    ensures ok ==> IsOutput(out, ShiftKeys(Concat(paths), shift))
    ensures ok && partition ==> Concat(buckets) == Partition(Concat(paths), ShiftKeys(Concat(paths), shift), 4)
    ensures ok ==> MaxSymbol(Concat(paths), max)
  {
    hide FieldsAt, PassOk, ShiftKeys, TwoBits, MaxUpToPath, Concat, IsFinalSuperblocks, IsFinalSamples, LinesOf, AuxBytes, OccsBelow, Below, MaxSymbol, Within, Partition, Bounded;
    ghost var text := Concat(paths);
    ghost var keys := ShiftKeys(text, shift);
    var encoder := new LevelEncoder(keys);
    buckets := [[], [], [], []];
    StartPass(text, shift, partition, buckets);
    max := 0;
    var seen, p := 0, 0;
    ConcatNone(paths);
    StartMax(text);
    while p < |paths|
      invariant 0 <= p <= |paths| && fresh(encoder)
      invariant seen == |Concat(paths[..p])| <= |text| && Concat(paths[..p]) == text[..seen]
      invariant Below(text[..seen], sigma + 1)
      invariant encoder.At(keys, seen) && PassOk(text, shift, partition, seen, buckets)
      invariant MaxUpToPath(text, seen, max)
    {
      ConcatAt(paths, p);
      var pathOk, pathMax;
      pathOk, buckets, pathMax := StreamPath(encoder, text, shift, partition, sigma, blockRows, paths[p], seen, buckets);
      if !pathOk {
        TooLarge(text, seen, paths[p], sigma);
        out := EmptyOutput();
        return false, out, buckets, max;
      }
      NextMax(text, seen, paths[p], max, pathMax, sigma);
      max := if pathMax > max then pathMax else max;
      assert text[..seen] + paths[p] == text[..seen + |paths[p]|];
      seen := seen + |paths[p]|;
      p := p + 1;
    }
    assert paths[..|paths|] == paths && text[..|text|] == text;
    var summary := encoder.Finish(keys, seen);
    out := LevelOutput(encoder.data, encoder.superblocks, encoder.select, summary);
    ok := true;
    WholeMax(text, max);
    EndPass(text, shift, partition, buckets);
  }

  function EmptyOutput(): LevelOutput {
    LevelOutput([], [], [], LevelSummary(0, 0, 0, [], [], 0))
  }

  lemma StartPass(text: seq<nat>, shift: nat, partition: bool, buckets: seq<seq<nat>>)
    requires buckets == [[], [], [], []]
    ensures PassOk(text, shift, partition, 0, buckets)
    ensures Bounded(ShiftKeys(text, shift), 4)
  {}

  lemma EndPass(text: seq<nat>, shift: nat, partition: bool, buckets: seq<seq<nat>>)
    requires PassOk(text, shift, partition, |text|, buckets)
    ensures partition ==> Concat(buckets) == Partition(text, ShiftKeys(text, shift), 4)
  {
    if partition {
      BucketsDone(text, ShiftKeys(text, shift), 4, buckets);
    }
  }

  lemma ConcatNone<T>(paths: seq<seq<T>>)
    ensures paths[..0] == [] && Concat(paths[..0]) == []
  {}

  lemma StartMax(text: seq<nat>)
    ensures MaxUpToPath(text, 0, 0) && text[..0] == [] && forall bound: nat :: Below([], bound)
  {}

  lemma TooLarge(text: seq<nat>, seen: nat, path: seq<nat>, sigma: nat)
    requires seen + |path| <= |text| && text[seen..seen + |path|] == path && !Within(path, |path|, sigma)
    ensures !Below(text, sigma + 1)
  {
    var i :| 0 <= i < |path| && path[i] > sigma;
    assert text[seen + i] == path[i];
  }

  lemma NextMax(text: seq<nat>, seen: nat, path: seq<nat>, max: nat, pathMax: nat, sigma: nat)
    requires seen + |path| <= |text| && text[seen..seen + |path|] == path
    requires MaxUpToPath(text, seen, max) && MaxUpToPath(path, |path|, pathMax)
    requires Below(text[..seen], sigma + 1) && Within(path, |path|, sigma)
    ensures MaxUpToPath(text, seen + |path|, if pathMax > max then pathMax else max)
    ensures Below(text[..seen + |path|], sigma + 1)
  {
    forall j | 0 <= j < seen + |path|
      ensures text[j] <= (if pathMax > max then pathMax else max) && text[j] <= sigma
    {
      if j >= seen {
        assert text[j] == path[j - seen];
      } else {
        assert text[j] == text[..seen][j];
      }
    }
    if |path| > 0 {
      var k :| 0 <= k < |path| && path[k] == pathMax;
      assert text[seen + k] == pathMax;
    }
  }

  lemma WholeMax(text: seq<nat>, max: nat)
    requires |text| > 0 && MaxUpToPath(text, |text|, max)
    ensures MaxSymbol(text, max)
  {}

  // ---- The whole tree ----

  /** Outputs of the first levels of the tree of `w`. */
  ghost predicate OutputsOf(outs: seq<LevelOutput>, w: seq<Word>) {
    forall l :: 0 <= l < |outs| ==> IsOutput(outs[l], LevelDigits(w, l))
  }

  /**
   Builds all levels from a source file. The block size follows from the buffer
   budget and does not matter. `None` stands for the refusal of a declared `sigma`
   that is not the largest symbol.
   */
  method WriteDirect(source: seq<nat>, sigma: nat, blockRows: nat) returns (r: Option<seq<LevelOutput>>)
    requires |source| < MAX_LEN && sigma < Pow4(16) && blockRows > 0
    ensures r.Some? <==> |source| == 0 || MaxSymbol(source, sigma)
    ensures r.Some? ==> |r.value| == (if |source| == 0 then 0 else LevelsFor(sigma))
    ensures r.Some? ==> OutputsOf(r.value, Rows(source, LevelsFor(sigma)))
  {
    hide Level, LevelDigits, IsOutput, ShiftKeys, MaxSymbol, Below, LevelsFor, Pow4, Concat, Partition, Rows;
    if |source| == 0 {
      return Some([]);
    }
    var levels := LevelsFor(sigma);
    LevelsForSigma(sigma);
    ghost var w := Rows(source, levels);
    RowsShape(source, levels);
    LevelZero(w);
    var current := [source];
    OneFile(source);
    var outs: seq<LevelOutput> := [];
    var level := 0;
    while level < levels
      invariant 0 <= level <= levels && |outs| == level && OutputsOf(outs, w)
      invariant level > 0 ==> MaxSymbol(source, sigma)
      invariant level < levels ==> Rows(Concat(current), levels) == Level(w, level) && |Concat(current)| == |source|
      invariant level == 0 ==> Concat(current) == source
      invariant 0 < level < levels ==> Below(Concat(current), sigma + 1)
    {
      var shift := 2 * (levels - level - 1);
      var needsPartition := level + 1 < levels;
      var ok, out, buckets, max := StreamLevel(current, shift, needsPartition, sigma, blockRows);
      if !ok {
        NotBelow(source, sigma);
        return None;
      }
      if level == 0 && max != sigma {
        OtherMax(source, max, sigma);
        return None;
      }
      LevelOfText(Concat(current), levels, level, w);
      outs := outs + [out];
      if needsPartition {
        NextSource(Concat(current), Concat(buckets), levels, level, w, sigma);
        current := buckets;
      }
      level := level + 1;
    }
    return Some(outs);
  }

  lemma OneFile<T>(source: seq<T>)
    ensures Concat([source]) == source
  {}

  lemma NotBelow(s: seq<nat>, sigma: nat)
    requires !Below(s, sigma + 1)
    ensures !MaxSymbol(s, sigma)
  {}

  lemma OtherMax(s: seq<nat>, a: nat, b: nat)
    requires MaxSymbol(s, a) && a != b
    ensures !MaxSymbol(s, b)
  {}

  lemma LevelOfText(text: seq<nat>, n: nat, l: nat, w: seq<Word>)
    requires l < n && Rows(text, n) == Level(w, l)
    ensures ShiftKeys(text, 2 * (n - l - 1)) == LevelDigits(w, l)
  {
    hide Level, Rows;
    ShiftIsLevel(text, n, l);
  }

  /** The bucket files in order are the text of the next level. */
  lemma NextSource(text: seq<nat>, next: seq<nat>, n: nat, l: nat, w: seq<Word>, sigma: nat)
    requires l + 1 < n && Deep(w, 0) && AllQuaternary(w) && Uniform(w, n) && Rows(text, n) == Level(w, l) && Below(text, sigma + 1)
    requires next == Partition(text, ShiftKeys(text, 2 * (n - l - 1)), 4)
    ensures Rows(next, n) == Level(w, l + 1) && |next| == |text| && Below(next, sigma + 1)
  {
    hide Level, Rows, Partition;
    NextBuffer(text, next, w, n, l);
    var keys := ShiftKeys(text, 2 * (n - l - 1));
    OccsBelowTotal(keys, 4);
    PartitionSubset(text, keys, 4);
    forall i | 0 <= i < |next|
      ensures next[i] < sigma + 1
    {
      assert next[i] in text;
    }
  }

  /** The streamed levels are those of the tree that construction in memory leaves. */
  lemma StreamedIsBuilt(source: seq<nat>, sigma: nat, outs: seq<LevelOutput>, t: QWaveletTree)
    requires |source| > 0 && MaxSymbol(source, sigma) && |outs| == LevelsFor(sigma) && OutputsOf(outs, Rows(source, LevelsFor(sigma)))
    requires t.Indexes(source) && MaxSymbol(source, t.sigma) && t.nLevels == LevelsFor(t.sigma)
    requires BuiltLevels(t.qvs, Rows(source, t.nLevels), 256)
    ensures t.sigma == sigma && |t.qvs| == |outs| && forall l :: 0 <= l < |outs| ==> SameLevel(outs[l], t.qvs[l])
  {
    hide Level, LevelDigits, IsOutput, LevelsFor, RSQVector.Valid, BuiltLevel, Rows, SameLevel;
    t.Shape(source);
    assert t.sigma == sigma;
    forall l | 0 <= l < |outs|
      ensures SameLevel(outs[l], t.qvs[l])
    {
      assert BuiltLevel(t.qvs[l], Rows(source, t.nLevels), l, 256);
      DigitsBounded(t.qvs[l], Rows(source, t.nLevels), l);
      OutputIsLevel(outs[l], t.qvs[l], Rows(source, t.nLevels), l);
    }
  }

  lemma DigitsBounded(v: RSQVector, w: seq<Word>, l: nat)
    requires BuiltLevel(v, w, l, 256)
    ensures Bounded(LevelDigits(w, l), 4)
  {
    hide Level, IsFinalSuperblocks, IsFinalSamples;
  }
}
