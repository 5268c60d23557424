/**
 The streamed builder of the Huffman-shaped tree: five bucket files, the last one
 for rows whose code has ended; only rows whose code goes on reach the encoder.
 */
module DirectHuffWriter {
  import opened Wrappers
  import opened RankSelect
  import opened StablePartition
  import opened Arithmetic
  import opened Words
  import opened WaveletMatrix
  import opened CodeOrder
  import opened CraftCodes
  import opened QuadVector
  import opened RankSupport
  import opened BuildSupport
  import opened RSQVectors
  import opened PartitionInto
  import opened SymbolWords
  import opened CodeTables
  import opened BuildQuadWavelet
  import opened HuffWavelet
  import opened BuildHuffWavelet
  import opened PackedLines
  import opened LevelEncoders
  import opened BucketRuns
  import opened DirectWriter

  // ---- The alphabet ----

  /** Every symbol below `size` occurs, and no other. */
  ghost predicate Dense(source: seq<nat>, size: nat) {
    Below(source, size) && forall x: nat :: x < size ==> x in source
  }

  /** Counts the symbols of a source; `None` for a symbol out of range or one that does not occur. */
  method CountFrequencies(source: seq<nat>, size: nat) returns (r: Option<seq<nat>>)
    ensures r.Some? <==> Dense(source, size)
    ensures r.Some? ==> |r.value| == size && forall x: nat :: x < size ==> r.value[x] == Occs<int>(source, x)
  {
    var frequencies := seq(size, _ => 0);
    var i := 0;
    while i < |source|
      invariant 0 <= i <= |source| && |frequencies| == size && Below(source[..i], size)
      invariant forall x: nat :: x < size ==> frequencies[x] == Rank<int>(source, x, i)
    {
      var symbol := source[i];
      if symbol >= size {
        return None;
      }
      frequencies := frequencies[symbol := frequencies[symbol] + 1];
      i := i + 1;
      assert source[..i] == source[..i - 1] + [symbol];
    }
    assert source[..|source|] == source;
    var x := 0;
    while x < size
      invariant 0 <= x <= size && forall y: nat :: y < x ==> y in source
    {
      OccursIff(source, x);
      if frequencies[x] == 0 {
        return None;
      }
      x := x + 1;
    }
    return Some(frequencies);
  }

  lemma OccursIff(s: seq<nat>, x: nat)
    ensures x in s <==> Occs<int>(s, x) > 0
  {
    if x in s {
      var i :| 0 <= i < |s| && s[i] == x;
      RankStrict<int>(s, x, i, |s|);
    } else {
      NeverOccurs(s, x, |s|);
    }
  }

  // ---- Digits of the rows that go on ----

  /** Digits read so far are an initial part of the level. */
  lemma DigitsPrefix(s: seq<nat>, codes: seq<PrefixCode>, l: nat, i: nat, digits: seq<int>, all: seq<int>)
    requires i <= |s| && DigitsUpTo(s, codes, l, i, digits) && DigitsUpTo(s, codes, l, |s|, all)
    ensures digits <= all
  {
    var w := CodeRows(s, codes);
    assert w[..|s|] == w[..i] + w[i..];
    ContinuingConcat(w[..i], w[i..], l);
  }

  ghost predicate HuffPass(text: seq<nat>, codes: seq<PrefixCode>, l: nat, partition: bool, seen: nat, levelRows: nat,
                           full: seq<int>, buckets: seq<seq<nat>>) {
    && seen <= |text| && levelRows <= |full| && DigitsUpTo(text, codes, l, seen, full[..levelRows])
    && DigitsUpTo(text, codes, l, |text|, full)
    && (partition ==> BucketsAt(text, CodeKeys(text, codes, 2 * (l + 1)), 5, seen, buckets))
  }

  /** Stages one block: digits of the rows that go on, bucket ids of all rows. */
  method StageBlock(symbols: seq<nat>, codes: seq<PrefixCode>, shift: nat, ghost text: seq<nat>, ghost l: nat, ghost seen: nat, ghost before: seq<int>)
    returns (digits: seq<nat>, ids: seq<nat>)
    requires CodesCover(text, codes) && EvenCodes(codes) && shift == 2 * (l + 1)
    requires seen + |symbols| <= |text| && symbols == text[seen..seen + |symbols|]
    requires DigitsUpTo(text, codes, l, seen, before)
    ensures DigitsUpTo(text, codes, l, seen + |symbols|, before + digits)
    ensures |ids| == |symbols| && forall i :: 0 <= i < |symbols| ==> ids[i] == CodeKeys(text, codes, shift)[seen + i] < 5
  {
    hide *;
    digits, ids := [], [];
    var i := 0;
    assert before + [] == before;
    while i < |symbols|
      invariant 0 <= i <= |symbols| && |ids| == i
      invariant DigitsUpTo(text, codes, l, seen + i, before + digits)
      invariant forall j :: 0 <= j < i ==> ids[j] == CodeKeys(text, codes, shift)[seen + j] < 5
    {
      var symbol := symbols[i];
      assert symbol == text[seen + i];
      StageOne(text, codes, l, seen + i, before, digits);
      var code := codes[symbol];
      var digit := if code.len >= shift then TwoBits(code.content, code.len - shift) else 0;
      if code.len >= shift {
        digits := digits + [digit];
      }
      ids := ids + [if code.len <= shift then 4 else digit];
      i := i + 1;
    }
  }

  /** What one row adds to the staged digits, and its bucket. */
  lemma StageOne(text: seq<nat>, codes: seq<PrefixCode>, l: nat, i: nat, before: seq<int>, digits: seq<int>)
    requires CodesCover(text, codes) && EvenCodes(codes) && i < |text| && DigitsUpTo(text, codes, l, i, before + digits)
    ensures text[i] < |codes|
    ensures codes[text[i]].len >= 2 * (l + 1) ==>
      DigitsUpTo(text, codes, l, i + 1, before + (digits + [TwoBits(codes[text[i]].content, codes[text[i]].len - 2 * (l + 1))]))
    ensures codes[text[i]].len < 2 * (l + 1) ==> DigitsUpTo(text, codes, l, i + 1, before + digits)
    ensures CodeKeys(text, codes, 2 * (l + 1))[i]
         == (if codes[text[i]].len <= 2 * (l + 1) then 4 else TwoBits(codes[text[i]].content, codes[text[i]].len - 2 * (l + 1))) < 5
  {
    hide DigitsUpTo, TwoBits;
    var code := codes[text[i]];
    MoreDigits(text, codes, l, i, before + digits);
    IdOfCode(code, 2 * (l + 1));
    if code.len >= 2 * (l + 1) {
      var digit := TwoBits(code.content, code.len - 2 * (l + 1));
      assert (before + digits) + [digit] == before + (digits + [digit]);
    }
  }

  lemma IdOfCode(code: PrefixCode, shift: nat)
    ensures CodeBucket(code, shift) == if code.len <= shift then 4 else TwoBits(code.content, code.len - shift)
  {}

  /** Encodes the staged digits and distributes the rows. */
  method StreamHuffBlock(encoder: LevelEncoder, ghost text: seq<nat>, codes: seq<PrefixCode>, shift: nat, ghost l: nat, ghost full: seq<int>,
                         partition: bool, symbols: seq<nat>, seen: nat, levelRows: nat, buckets: seq<seq<nat>>)
    returns (levelRows': nat, buckets': seq<seq<nat>>)
    requires CodesCover(text, codes) && EvenCodes(codes) && shift == 2 * (l + 1)
    requires encoder.At(full, levelRows) && HuffPass(text, codes, l, partition, seen, levelRows, full, buckets)
    requires seen + |symbols| <= |text| && symbols == text[seen..seen + |symbols|]
    modifies encoder
    ensures encoder.At(full, levelRows') && HuffPass(text, codes, l, partition, seen + |symbols|, levelRows', full, buckets')
  {
    hide FieldsAt, DigitsUpTo, BucketsAt, TwoBits, CodeKeys, Bucket;
    var digits, ids := StageBlock(symbols, codes, shift, text, l, seen, full[..levelRows]);
    DigitsPrefix(text, codes, l, seen + |symbols|, full[..levelRows] + digits, full);
    levelRows' := levelRows + |digits|;
    PrefixTail(full, levelRows, digits);
    encoder.PushBlock(full, digits, levelRows);
    buckets' := buckets;
    if partition {
      ghost var keys := CodeKeys(text, codes, shift);
      BucketCount(text, keys, 5, seen, buckets);
      assert ids == keys[seen..seen + |symbols|];
      buckets' := WriteBucketRuns(buckets, ids, symbols);
      BucketsGrow(text, keys, 5, seen, |symbols|, buckets, buckets');
    }
  }

  lemma PrefixTail(full: seq<int>, at: nat, digits: seq<nat>)
    requires at <= |full| && full[..at] + digits <= full
    ensures at + |digits| <= |full| && full[..at + |digits|] == full[..at] + digits
    ensures forall i :: 0 <= i < |digits| ==> digits[i] == full[at + i]
  {
    forall i | 0 <= i < |digits|
      ensures digits[i] == full[at + i]
    {
      assert (full[..at] + digits)[at + i] == digits[i];
    }
  }

  /** All blocks of one source file. */
  method StreamHuffPath(encoder: LevelEncoder, ghost text: seq<nat>, codes: seq<PrefixCode>, shift: nat, ghost l: nat, ghost full: seq<int>,
                        partition: bool, blockRows: nat, path: seq<nat>, start: nat, levelRows: nat, buckets: seq<seq<nat>>)
    returns (levelRows': nat, buckets': seq<seq<nat>>)
    requires CodesCover(text, codes) && EvenCodes(codes) && shift == 2 * (l + 1) && blockRows > 0
    requires encoder.At(full, levelRows) && HuffPass(text, codes, l, partition, start, levelRows, full, buckets)
    requires start + |path| <= |text| && path == text[start..start + |path|]
    modifies encoder
    ensures encoder.At(full, levelRows') && HuffPass(text, codes, l, partition, start + |path|, levelRows', full, buckets')
  {
    hide *;
    levelRows', buckets' := levelRows, buckets;
    var at := 0;
    while at < |path|
      invariant 0 <= at <= |path|
      invariant encoder.At(full, levelRows') && HuffPass(text, codes, l, partition, start + at, levelRows', full, buckets')
    {
      var block := if |path| - at < blockRows then |path| - at else blockRows;
      SubSlice(text, start, |path|, at, at + block);
      levelRows', buckets' := StreamHuffBlock(encoder, text, codes, shift, l, full, partition, path[at..at + block], start + at, levelRows', buckets');
      at := at + block;
    }
  }

  /** One level: all source files, then the closing of the encoder. */
  method StreamHuffLevel(paths: seq<seq<nat>>, codes: seq<PrefixCode>, shift: nat, ghost l: nat, ghost root: seq<Word>, partition: bool, blockRows: nat)
    returns (out: LevelOutput, levelLen: nat, buckets: seq<seq<nat>>)
    requires CodesCover(Concat(paths), codes) && EvenCodes(codes) && shift == 2 * (l + 1) && blockRows > 0
    requires Continuing(CodeRows(Concat(paths), codes), l) == Level(root, l)
    requires 0 < |Level(root, l)| < MAX_LEN && Bounded(LevelDigits(root, l), 4)
    ensures IsOutput(out, LevelDigits(root, l)) && levelLen == |Level(root, l)|
    ensures partition ==> Concat(buckets) == Partition(Concat(paths), CodeKeys(Concat(paths), codes, shift), 5)
  {
    hide FieldsAt, HuffPass, CodeKeys, Concat, IsFinalSuperblocks, IsFinalSamples, LinesOf, AuxBytes, OccsBelow, Level, LevelDigits, Continuing, Bounded, EvenCodes, CodesCover, CodeRows;
    ghost var text, full := Concat(paths), LevelDigits(root, l);
    var encoder := new LevelEncoder(full);
    buckets := [[], [], [], [], []];
    StartHuff(text, codes, l, root, full, partition, buckets);
    levelLen := 0;
    var seen, p := 0, 0;
    ConcatNone(paths);
    while p < |paths|
      invariant 0 <= p <= |paths| && fresh(encoder)
      invariant seen == |Concat(paths[..p])| <= |text|
      invariant encoder.At(full, levelLen) && HuffPass(text, codes, l, partition, seen, levelLen, full, buckets)
    {
      ConcatAt(paths, p);
      levelLen, buckets := StreamHuffPath(encoder, text, codes, shift, l, full, partition, blockRows, paths[p], seen, levelLen, buckets);
      seen := seen + |paths[p]|;
      p := p + 1;
    }
    assert paths[..|paths|] == paths;
    EndHuff(text, codes, l, root, full, partition, levelLen, buckets);
    var summary := encoder.Finish(full, levelLen);
    out := LevelOutput(encoder.data, encoder.superblocks, encoder.select, summary);
  }

  lemma StartHuff(text: seq<nat>, codes: seq<PrefixCode>, l: nat, root: seq<Word>, full: seq<int>, partition: bool, buckets: seq<seq<nat>>)
    requires CodesCover(text, codes) && EvenCodes(codes) && Continuing(CodeRows(text, codes), l) == Level(root, l)
    requires full == LevelDigits(root, l) && buckets == [[], [], [], [], []]
    ensures HuffPass(text, codes, l, partition, 0, 0, full, buckets)
  {
    hide Level;
    assert CodeRows(text, codes)[..|text|] == CodeRows(text, codes);
    NoDigits(text, codes, l);
    assert full[..0] == [];
  }

  lemma EndHuff(text: seq<nat>, codes: seq<PrefixCode>, l: nat, root: seq<Word>, full: seq<int>, partition: bool, levelRows: nat, buckets: seq<seq<nat>>)
    requires HuffPass(text, codes, l, partition, |text|, levelRows, full, buckets) && full == LevelDigits(root, l)
    requires CodesCover(text, codes)
    ensures levelRows == |full| == |Level(root, l)|
    ensures partition ==> Concat(buckets) == Partition(text, CodeKeys(text, codes, 2 * (l + 1)), 5)
  {
    hide Level;
    DigitsPrefix(text, codes, l, |text|, full, full[..levelRows]);
    if partition {
      BucketsDone(text, CodeKeys(text, codes, 2 * (l + 1)), 5, buckets);
    }
  }

  // ---- The whole tree ----

  /** Some row goes on at every level above the longest code. */
  lemma LevelNotEmpty(s: seq<nat>, codes: seq<PrefixCode>, maxLen: nat, l: nat)
    requires Encodes(s, codes) && |s| > 0 && exists x :: 0 <= x < |codes| && codes[x].len == maxLen
    requires 2 <= maxLen && l < maxLen / 2
    ensures 0 < |Level(CodeRows(s, codes), l)| <= |s|
    ensures Bounded(LevelDigits(CodeRows(s, codes), l), 4)
  {
    hide Level, Labels;
    CodeRowsShape(s, codes);
    var w := CodeRows(s, codes);
    var x :| 0 <= x < |codes| && codes[x].len == maxLen;
    CodedOccurs(s, codes, x);
    WordInRows(s, codes, x);
    LevelElements(w, l);
    assert CodeWord(codes[x]) in Level(w, l);
    LevelShrinks(w, l);
  }

  lemma CodedOccurs(s: seq<nat>, codes: seq<PrefixCode>, x: nat)
    requires Encodes(s, codes) && x < |codes| && codes[x].len > 0
    ensures x in s
  {}

  lemma {:induction false} LevelShrinks(w: seq<Word>, l: nat)
    requires AllQuaternary(w)
    ensures |Level(w, l)| <= |w|
  {
    hide Continuing, NextLevel;
    if l == 0 {
      ContinuingShrinks(w, 0);
    } else {
      LevelShrinks(w, l - 1);
      LevelElements(w, l - 1);
      NextShrinks(Level(w, l - 1), l);
    }
  }

  lemma NextShrinks(v: seq<Word>, l: nat)
    requires l > 0 && AllQuaternary(v)
    ensures |NextLevel(v, l)| <= |v|
  {
    hide Continuing, Sorted;
    ContinuingShrinks(v, l);
    ContinuingElements(v, l);
    ElementsQuaternary(v, Continuing(v, l));
    SortedElements(Continuing(v, l), l - 1);
  }

  lemma {:induction false} ContinuingShrinks(v: seq<Word>, l: nat)
    ensures |Continuing(v, l)| <= |v|
  {
    if |v| > 0 {
      ContinuingShrinks(v[..|v| - 1], l);
    }
  }

  /** All levels, for given codes; the level lengths go to the directory beside the outputs. */
  method WriteHuffDirect(source: seq<nat>, codes: seq<PrefixCode>, blockRows: nat) returns (outs: seq<LevelOutput>, lens: seq<nat>)
    requires 0 < |source| < MAX_LEN && |codes| > 0 && blockRows > 0 && Encodes(source, codes)
    ensures CodesCover(source, codes)
    ensures |outs| == |lens| && OutputsOf(outs, CodeRows(source, codes))
    ensures forall l :: 0 <= l < |lens| ==> lens[l] == |Level(CodeRows(source, codes), l)|
    ensures (forall i :: 0 <= i < |source| ==> codes[source[i]].len <= 2 * |outs|) && exists x :: 0 <= x < |codes| && codes[x].len == 2 * |outs|
  {
    hide Level, LevelDigits, Continuing, IsOutput, CodeKeys, Concat, Partition, Bounded, GoodCode, CodeWord;
    var maxLen := MaxLen(codes);
    CodesShape(source, codes, maxLen);
    var levels := maxLen / 2;
    ghost var root := CodeRows(source, codes);
    LevelIsContinuing(root);
    var current := [source];
    OneFile(source);
    outs, lens := [], [];
    var level := 0;
    while level < levels
      invariant 0 <= level <= levels && |outs| == |lens| == level && OutputsOf(outs, root)
      invariant forall l :: 0 <= l < level ==> lens[l] == |Level(root, l)|
      invariant level < levels ==> CodesCover(Concat(current), codes) && Continuing(CodeRows(Concat(current), codes), level) == Level(root, level)
    {
      var shift := 2 * (level + 1);
      var needsPartition := level + 1 < levels;
      LevelNotEmpty(source, codes, maxLen, level);
      var out, levelLen, buckets := StreamHuffLevel(current, codes, shift, level, root, needsPartition, blockRows);
      outs := outs + [out];
      lens := lens + [levelLen];
      if needsPartition {
        NextSequence(Concat(current), Concat(buckets), codes, root, level);
        current := buckets;
      }
      level := level + 1;
    }
  }

  /** The streamed levels are those of the Huffman tree that construction in memory leaves. */
  lemma StreamedHuffIsBuilt(source: seq<nat>, codes: seq<PrefixCode>, outs: seq<LevelOutput>, lens: seq<nat>, t: HuffQWaveletTree)
    requires t.Indexes(source) && t.codesEncode == codes && CodesCover(source, codes)
    requires BuiltLevels(t.qvs, CodeRows(source, codes), 256)
    requires |outs| == |lens| == t.nLevels && OutputsOf(outs, CodeRows(source, codes))
    requires forall l :: 0 <= l < |lens| ==> lens[l] == |Level(CodeRows(source, codes), l)|
    ensures lens == t.lens && |t.qvs| == |outs| && forall l :: 0 <= l < |outs| ==> SameLevel(outs[l], t.qvs[l])
  {
    hide Level, LevelDigits, IsOutput, RSQVector.Valid, BuiltLevel, SameLevel, Encodes, CodeWord;
    var w := CodeRows(source, codes);
    forall l | 0 <= l < |outs|
      ensures SameLevel(outs[l], t.qvs[l]) && lens[l] == t.lens[l]
    {
      t.AtLevel(source, l);
      assert BuiltLevel(t.qvs[l], w, l, 256);
      DigitsBounded(t.qvs[l], w, l);
      OutputIsLevel(outs[l], t.qvs[l], w, l);
    }
  }
}
