/**
 Rank and select on a bit vector with 512-bit blocks: superblocks of eight lines,
 a 44-bit rank and seven 12-bit counters to a word of 128 bits.
 */
module WideRS {
  import opened Wrappers
  import opened RankSelect
  import opened Arithmetic
  import opened Bits
  import opened Superblock
  import opened BitLines
  import opened BitHints

  const HINT: nat := 8192
  const WORD128: nat := 0x1_0000_0000_0000_0000_0000_0000_0000_0000

  /** Ones between the start of superblock `sb` and its line `j`. */
  ghost function LinesOnes(s: seq<bool>, sb: nat, j: nat): (r: nat)
    ensures r <= 512 * j
  {
    CountToMonotone(s, 512, true, 8 * sb, 8 * sb + j);
    SpanBound(s, 8 * sb, j);
    OnesTo(s, 512, 8 * sb + j) - OnesTo(s, 512, 8 * sb)
  }

  lemma {:induction false} SpanBound(s: seq<bool>, k: nat, j: nat)
    ensures OnesTo(s, 512, k + j) <= OnesTo(s, 512, k) + 512 * j
  {
    hide OnesTo;
    if j > 0 {
      SpanBound(s, k, j - 1);
      OnesToStep(s, 512, k + j - 1);
    }
  }

  /** Counters of the first `j` lines that have one, the last line lowest. */
  ghost function Fields(s: seq<bool>, sb: nat, j: nat): (r: seq<nat>)
    requires j <= 7
    ensures |r| == j && SmallFields(r) && forall m :: 0 <= m < j ==> r[m] == LinesOnes(s, sb, j - m)
  {
    seq(j, m requires 0 <= m < j => LinesOnes(s, sb, j - m))
  }

  /** The word of superblock `sb` after the counters of `j` lines. */
  ghost function Metadata(s: seq<bool>, sb: nat, j: nat): nat
    requires j <= 7
  {
    Pack(OnesTo(s, 512, 8 * sb), Fields(s, sb, j))
  }

  /** `(w << 12) | x` in 128 bits */
  function PushField(w: nat, x: nat): nat {
    BitOr(w * FIELD % WORD128, x)
  }

  lemma PushFieldMeans(s: seq<bool>, sb: nat, j: nat)
    requires j < 7 && OnesTo(s, 512, 8 * sb) < 0x1000_0000_0000
    ensures LinesOnes(s, sb, j + 1) < FIELD
    ensures PushField(Metadata(s, sb, j), LinesOnes(s, sb, j + 1)) == Metadata(s, sb, j + 1)
  {
    hide BitOr, OnesTo, LinesOnes;
    var w, x := Metadata(s, sb, j), LinesOnes(s, sb, j + 1);
    assert x < FIELD;
    PackWidth(OnesTo(s, 512, 8 * sb), Fields(s, sb, j), 0x1000_0000_0000);
    Room(w, j);
    OrLow(w, x);
    var f := Fields(s, sb, j + 1);
    assert f[0] == x && f[1..] == Fields(s, sb, j);
  }

  /** Seven fields of 12 bits fit above a 44-bit number. */
  lemma Room(w: nat, j: nat)
    requires j < 7 && w < 0x1000_0000_0000 * Pow4096(j)
    ensures w * FIELD < WORD128
  {
    assert Pow4096(6) == 0x1_0000_0000_0000_0000_00 by { Pow4096Six(); }
    Pow4096Monotone(j, 6);
    MulMonotone(0x1000_0000_0000, Pow4096(j), Pow4096(6));
  }

  lemma Pow4096Six()
    ensures Pow4096(6) == 0x1_0000_0000_0000_0000_00
  {
    assert Pow4096(1) == 4096;
    assert Pow4096(2) == 0x1000_000;
    assert Pow4096(3) == 0x1000_000_000;
    assert Pow4096(4) == 0x1000_000_000_000;
  }

  lemma {:induction false} Pow4096Monotone(a: nat, b: nat)
    requires a <= b
    ensures Pow4096(a) <= Pow4096(b)
  {
    if a < b {
      Pow4096Monotone(a, b - 1);
    }
  }

  // ---- The structure ----

  datatype RS = RS(bv: BitVector, superblockMetadata: seq<nat>, selectSamples: (seq<nat>, seq<nat>), countZeros: nat) {
    /** Every superblock word, one more behind the last superblock, and the samples of both bits. */
    ghost predicate Valid() {
      && bv.Valid()
      && |superblockMetadata| == (|bv.data| + 7) / 8 + 1
      && (forall sb :: 0 <= sb < |superblockMetadata| ==> superblockMetadata[sb] == Metadata(bv.Padded(), sb, 7))
      && Samples(bv.Padded(), 512, false, HINT, |bv.data|, |superblockMetadata|, selectSamples.0)
      && Samples(bv.Padded(), 512, true, HINT, |bv.data|, |superblockMetadata|, selectSamples.1)
      && countZeros == bv.nBits - Occs(bv.Padded(), true)
    }

    function SuperblockRank(block: nat): (r: nat)
      requires Valid() && block < |superblockMetadata|
      ensures r == OnesTo(bv.Padded(), 512, 8 * block)
    {
      PackTop(OnesTo(bv.Padded(), 512, 8 * block), Fields(bv.Padded(), block, 7));
      superblockMetadata[block] / Pow4096(7)
    }

    /** Ones before line `subBlock`. */
    function SubBlockRank(subBlock: nat): (r: nat)
      requires Valid() && subBlock / 8 < |superblockMetadata|
      ensures r == OnesTo(bv.Padded(), 512, subBlock)
    {
      var superblock, left := subBlock / 8, subBlock % 8;
      LineField(bv.Padded(), superblock, left);
      SuperblockRank(superblock) + if left != 0 then superblockMetadata[superblock] / Pow4096(7 - left) % FIELD else 0
    }

    method Rank1Unchecked(i: nat) returns (r: nat)
      requires Valid() && i <= bv.nBits
      ensures r == Rank(bv.Contents(), true, i)
    {
      bv.RankOfPadded(true, i);
      hide Valid, OnesTo, Rank;
      NothingBefore(bv.Contents());
      if i == 0 {
        return 0;
      }
      var pos := i - 1;
      var subBlock, subLeft := pos / 512, pos % 512 + 1;
      LineInside(i, subBlock, subLeft);
      var rest := LineRank(bv.data[subBlock], subLeft);
      r := SubBlockRank(subBlock) + rest;
    }

    /** Ones up to a position: those of the lines before, and those of its own line. */
    lemma LineInside(i: nat, line: nat, left: nat)
      requires Valid() && 0 < i <= bv.nBits && line == (i - 1) / 512 && left == (i - 1) % 512 + 1
      ensures line < |bv.data| && line / 8 < |superblockMetadata| && left <= 512 && i <= |bv.Padded()|
      ensures OnesTo(bv.Padded(), 512, line) + Rank(bv.data[line], true, left) == Rank(bv.Padded(), true, i)
    {
      hide OnesTo, Rank;
      assert 512 * line + left == i;
      bv.LineOf(line, true, left);
      CountIsRank(bv.Padded(), 512, true, line);
    }

    method Rank1(i: nat) returns (r: Option<nat>)
      requires Valid()
      ensures r == if |bv.Contents()| == 0 || i > |bv.Contents()| then None else Some(Rank(bv.Contents(), true, i))
    {
      if bv.nBits == 0 || i > bv.nBits {
        return None;
      }
      var rank := Rank1Unchecked(i);
      return Some(rank);
    }

    // ---- Select ----

    /** Occurrences of `v` before a superblock of 4096 bits. */
    function CountOfBlock(v: bool, block: nat): (r: nat)
      requires Valid() && block < |superblockMetadata|
      ensures r == CountTo(bv.Padded(), 512, v, 8 * block)
    {
      if v then SuperblockRank(block) else 4096 * block - SuperblockRank(block)
    }

    /** Occurrences of `v` before a line of 512 bits. */
    function CountOfLine(v: bool, line: nat): (r: nat)
      requires Valid() && line / 8 < |superblockMetadata|
      ensures r == CountTo(bv.Padded(), 512, v, line)
    {
      if v then SubBlockRank(line) else 512 * line - SubBlockRank(line)
    }

    /** What is known about the `i`-th occurrence before the search. */
    lemma Wanted(v: bool, i: nat)
      requires Valid() && i < Occs(bv.Contents(), v)
      ensures i < CountTo(bv.Padded(), 512, v, |bv.data|) && |bv.data| <= 8 * (|superblockMetadata| - 1)
      ensures |bv.data| * 512 == |bv.Padded()|
    {
      hide Rank;
      CountIsRank(bv.Padded(), 512, v, |bv.data|);
      bv.RankOfPadded(v, bv.nBits);
      RankMonotone(bv.Padded(), v, bv.nBits, |bv.Padded()|);
    }

    /** The line of occurrence `i` of `v`, and the ones before it. */
    method SelectSubBlock(v: bool, i: nat) returns (position: nat, rank: nat)
      requires Valid() && i < Occs(bv.Contents(), v)
      ensures position < |bv.data| && rank == Rank(bv.Padded(), v, 512 * position) <= i
      ensures i < Rank(bv.Padded(), v, 512 * position + 512)
    {
      hide Valid, OnesTo, Rank, CountTo;
      Wanted(v, i);
      var hintStart, hintEnd := Hints(v, i);
      var superblock := SelectSuperblock(v, i, hintStart, hintEnd);
      position := SelectLine(v, i, superblock);
      UnitInside(bv.Padded(), 512, v, |bv.data|, position, i);
      LineCounts(v, position);
      rank := CountOfLine(v, position);
    }

    /** The last superblock of the bracket that does not start behind occurrence `i`. */
    method SelectSuperblock(v: bool, i: nat, start: nat, hintEnd: nat) returns (superblock: nat)
      requires Valid() && start < hintEnd <= |superblockMetadata|
      requires CountTo(bv.Padded(), 512, v, 8 * start) <= i < CountTo(bv.Padded(), 512, v, 8 * hintEnd)
      ensures superblock < |superblockMetadata|
      ensures CountTo(bv.Padded(), 512, v, 8 * superblock) <= i < CountTo(bv.Padded(), 512, v, 8 * (superblock + 1))
    {
      hide Valid, CountTo;
      var hintStart := start;
      while hintStart < hintEnd
        invariant start <= hintStart <= hintEnd
        invariant hintStart > start ==> CountTo(bv.Padded(), 512, v, 8 * (hintStart - 1)) <= i
        invariant hintStart == hintEnd ==> i < CountTo(bv.Padded(), 512, v, 8 * hintStart)
      {
        if CountOfBlock(v, hintStart) > i {
          break;
        }
        hintStart := hintStart + 1;
      }
      superblock := hintStart - 1;
    }

    /** The last line of a superblock that does not start behind occurrence `i`. */
    method SelectLine(v: bool, i: nat, superblock: nat) returns (position: nat)
      requires Valid() && superblock < |superblockMetadata|
      requires CountTo(bv.Padded(), 512, v, 8 * superblock) <= i < CountTo(bv.Padded(), 512, v, 8 * (superblock + 1))
      ensures position / 8 == superblock
      ensures CountTo(bv.Padded(), 512, v, position) <= i < CountTo(bv.Padded(), 512, v, position + 1)
    {
      hide Valid, CountTo;
      position := 8 * superblock;
      var j := 0;
      while j < 8
        invariant 0 <= j <= 8
        invariant j > 0 ==> CountTo(bv.Padded(), 512, v, position + j - 1) <= i
        invariant j == 8 ==> i < CountTo(bv.Padded(), 512, v, position + j)
      {
        if CountOfLine(v, position + j) > i {
          break;
        }
        j := j + 1;
      }
      position := position + j - 1;
    }

    lemma SamplesHold(v: bool, samples: seq<nat>)
      requires Valid() && samples == (if v then selectSamples.1 else selectSamples.0)
      ensures Samples(bv.Padded(), 512, v, HINT, |bv.data|, |superblockMetadata|, samples)
    {
      hide CountTo, Samples;
    }

    lemma HintBracket(v: bool, i: nat, samples: seq<nat>, h: nat)
      requires Valid() && i < Occs(bv.Contents(), v)
      requires samples == (if v then selectSamples.1 else selectSamples.0) && h == i / HINT
      ensures h + 1 < |samples| && samples[h] <= samples[h + 1] < |superblockMetadata|
      ensures CountTo(bv.Padded(), 512, v, 8 * samples[h]) <= i < CountTo(bv.Padded(), 512, v, 8 * (samples[h + 1] + 1))
    {
      hide Valid, CountTo, Samples;
      SamplesHold(v, samples);
      Wanted(v, i);
      Bracket(bv.Padded(), 512, v, HINT, |bv.data|, |superblockMetadata|, samples, i);
    }

    /** The samples around occurrence `i`. */
    method Hints(v: bool, i: nat) returns (hintStart: nat, hintEnd: nat)
      requires Valid() && i < Occs(bv.Contents(), v)
      ensures hintStart < hintEnd <= |superblockMetadata|
      ensures CountTo(bv.Padded(), 512, v, 8 * hintStart) <= i < CountTo(bv.Padded(), 512, v, 8 * hintEnd)
    {
      hide Valid, CountTo;
      var hint := i / HINT;
      var samples := if v then selectSamples.1 else selectSamples.0;
      HintBracket(v, i, samples, hint);
      hintStart, hintEnd := samples[hint], 1 + samples[hint + 1];
    }

    lemma LineCounts(v: bool, line: nat)
      requires Valid() && line < |bv.data|
      ensures CountTo(bv.Padded(), 512, v, line) == Rank(bv.Padded(), v, 512 * line)
      ensures CountTo(bv.Padded(), 512, v, line + 1) == Rank(bv.Padded(), v, 512 * line + 512)
      ensures line / 8 < |superblockMetadata|
    {
      CountIsRank(bv.Padded(), 512, v, line);
      CountIsRank(bv.Padded(), 512, v, line + 1);
    }

    /** Position of occurrence `i` of `v`; zeros behind the end are never reached. */
    method Select(v: bool, i: nat) returns (r: Option<nat>)
      requires Valid()
      ensures SelectSpec(bv.Contents(), v, i, r)
    {
      CountsAgree();
      hide Valid, Rank, IsSelect;
      if i >= if v then bv.nBits - countZeros else countZeros {
        return None;
      }
      var block, rank := SelectSubBlock(v, i);
      var off := LineSelect(bv.data[block], v, i - rank);
      Found(v, i, block, rank, off);
      return Some(512 * block + off);
    }

    lemma CountsAgree()
      requires Valid()
      ensures countZeros <= bv.nBits && Occs(bv.Contents(), true) == bv.nBits - countZeros && Occs(bv.Contents(), false) == countZeros
    {
      bv.PaddingIsZero();
      NotRank(bv.Contents(), bv.nBits);
    }

    lemma Found(v: bool, i: nat, block: nat, rank: nat, off: nat)
      requires Valid() && i < Occs(bv.Contents(), v)
      requires block < |bv.data| && rank == Rank(bv.Padded(), v, 512 * block) <= i < Rank(bv.Padded(), v, 512 * block + 512)
      requires if i - rank < Occs(bv.data[block], v) then IsSelect(bv.data[block], v, i - rank, off) else off == 512
      ensures IsSelect(bv.Contents(), v, i, 512 * block + off)
    {
      hide Rank;
      bv.LineOf(block, v, 512);
      bv.SelectOf(block, v, i, off);
      var p := 512 * block + off;
      bv.RankOfPadded(v, bv.nBits);
      SelectBracket(bv.Padded(), v, i, p, bv.nBits);
      bv.RankOfPadded(v, p);
    }
  }

  /** The field of line `left` of a superblock. */
  lemma LineField(s: seq<bool>, sb: nat, left: nat)
    requires left < 8
    ensures left != 0 ==> Metadata(s, sb, 7) / Pow4096(7 - left) % FIELD == OnesTo(s, 512, 8 * sb + left) - OnesTo(s, 512, 8 * sb)
  {
    hide OnesTo;
    if left != 0 {
      PackField(OnesTo(s, 512, 8 * sb), Fields(s, sb, 7), 7 - left);
    }
  }

  // ---- Construction ----

  /** What is known after `b` lines: the open word, the ones before it and in it, and the samples of both bits. */
  ghost predicate Progress(s: seq<bool>, b: nat, totalRank: nat, wordPop: nat, cur: nat, words: seq<nat>) {
    && totalRank + wordPop == OnesTo(s, 512, b)
    && |words| == b / 8 && (forall sb :: 0 <= sb < |words| ==> words[sb] == Metadata(s, sb, 7))
    && (b > 0 ==> var sb, j := (b - 1) / 8, (b - 1) % 8; totalRank == OnesTo(s, 512, 8 * sb) && cur == Metadata(s, sb, j))
  }

  /** The word of the line, before it is counted. */
  method OpenLine(ghost s: seq<bool>, b: nat, totalRank: nat, wordPop: nat, cur: nat, ghost words: seq<nat>)
    returns (totalRank': nat, wordPop': nat, cur': nat)
    requires |s| < 0x1000_0000_0000 && Progress(s, b, totalRank, wordPop, cur, words)
    ensures totalRank' == OnesTo(s, 512, 8 * (b / 8)) && totalRank' + wordPop' == OnesTo(s, 512, b)
    ensures cur' == Metadata(s, b / 8, b % 8)
    ensures |words| == b / 8 && forall sb :: 0 <= sb < |words| ==> words[sb] == Metadata(s, sb, 7)
  {
    hide OnesTo, Metadata, LinesOnes, PushField;
    if b % 8 == 0 {
      totalRank' := totalRank + wordPop;
      wordPop' := 0;
      cur' := totalRank';
      NoFields(s, b / 8);
    } else {
      totalRank', wordPop' := totalRank, wordPop;
      SameSuperblock(b);
      OnesFit(s, 8 * (b / 8));
      PushFieldMeans(s, b / 8, b % 8 - 1);
      LinesDefined(s, b / 8, b % 8);
      cur' := PushField(cur, wordPop);
    }
  }

  lemma NoFields(s: seq<bool>, sb: nat)
    ensures Metadata(s, sb, 0) == OnesTo(s, 512, 8 * sb)
  {}

  lemma LinesDefined(s: seq<bool>, sb: nat, j: nat)
    ensures LinesOnes(s, sb, j) == OnesTo(s, 512, 8 * sb + j) - OnesTo(s, 512, 8 * sb)
  {
    hide OnesTo;
  }

  lemma SameSuperblock(b: nat)
    requires b % 8 != 0
    ensures (b - 1) / 8 == b / 8 && (b - 1) % 8 == b % 8 - 1 && b == 8 * (b / 8) + b % 8
  {}

  lemma OnesFit(s: seq<bool>, k: nat)
    requires |s| < 0x1000_0000_0000
    ensures OnesTo(s, 512, k) < 0x1000_0000_0000
  {}

  /** A line is counted; the eighth closes the word. */
  lemma CloseLine(s: seq<bool>, b: nat, totalRank: nat, wordPop: nat, cur: nat, words: seq<nat>, ones: nat)
    requires |words| == b / 8 && (forall sb :: 0 <= sb < |words| ==> words[sb] == Metadata(s, sb, 7))
    requires totalRank == OnesTo(s, 512, 8 * (b / 8)) && totalRank + wordPop == OnesTo(s, 512, b) && cur == Metadata(s, b / 8, b % 8)
    requires OnesTo(s, 512, b + 1) == OnesTo(s, 512, b) + ones
    ensures Progress(s, b + 1, totalRank, wordPop + ones, cur, if (b + 1) % 8 == 0 then words + [cur] else words)
  {
    hide OnesTo, Metadata;
    var next := if (b + 1) % 8 == 0 then words + [cur] else words;
    assert (b + 1) % 8 == 0 ==> b % 8 == 7;
    assert |next| == (b + 1) / 8;
  }

  /** One pass over the lines, then the open word, the word behind the last superblock and the guards. */
  method NewWide(bv: BitVector) returns (r: RS)
    requires bv.Valid() && 512 * |bv.data| < 0x1000_0000_0000
    ensures r.Valid() && r.bv == bv
  {
    hide OnesTo, CountTo, Metadata, SamplesTo, BitVector.Valid, Progress, Rank;
    ghost var s := bv.Padded();
    var metadata: seq<nat>, totalRank: nat, wordPop: nat, cur: nat, zerosSoFar: nat := [], 0, 0, 0, 0;
    var samples0: seq<nat>, samples1: seq<nat> := [0], [0];
    FirstSample(s, 512, false, HINT);
    FirstSample(s, 512, true, HINT);
    NoLines(s);
    var b := 0;
    while b < |bv.data|
      invariant 0 <= b <= |bv.data|
      invariant Progress(s, b, totalRank, wordPop, cur, metadata)
      invariant zerosSoFar == CountTo(s, 512, false, b)
      invariant SamplesTo(s, 512, false, HINT, b, samples0) && SamplesTo(s, 512, true, HINT, b, samples1)
    {
      totalRank, wordPop, cur := OpenLine(s, b, totalRank, wordPop, cur, metadata);
      var ones := CountOnes(bv.data[b]);
      LineOnes(bv, b);
      CloseLine(s, b, totalRank, wordPop, cur, metadata, ones);
      wordPop := wordPop + ones;
      samples1 := PushSample(s, true, b, totalRank + wordPop, samples1);
      zerosSoFar := zerosSoFar + (512 - ones);
      samples0 := PushSample(s, false, b, zerosSoFar, samples0);
      if (b + 1) % 8 == 0 {
        metadata := metadata + [cur];
      }
      b := b + 1;
    }
    metadata, totalRank := CloseMetadata(s, |bv.data|, totalRank, wordPop, cur, metadata);
    samples0 := samples0 + [|metadata| - 1];
    samples1 := samples1 + [|metadata| - 1];
    AllOnes(bv);
    r := RS(bv, metadata, (samples0, samples1), bv.nBits - totalRank);
    assert samples0[..|samples0| - 1] + [|metadata| - 1] == samples0;
  }

  lemma NoLines(s: seq<bool>)
    ensures Progress(s, 0, 0, 0, 0, []) && CountTo(s, 512, false, 0) == 0
  {}

  lemma LineOnes(bv: BitVector, b: nat)
    requires bv.Valid() && b < |bv.data|
    ensures OnesTo(bv.Padded(), 512, b + 1) == OnesTo(bv.Padded(), 512, b) + CountOnes(bv.data[b])
    ensures CountTo(bv.Padded(), 512, true, b + 1) == OnesTo(bv.Padded(), 512, b + 1)
    ensures CountTo(bv.Padded(), 512, false, b + 1) == CountTo(bv.Padded(), 512, false, b) + (512 - CountOnes(bv.data[b]))
  {
    bv.LineOf(b, true, 512);
  }

  lemma AllOnes(bv: BitVector)
    requires bv.Valid()
    ensures OnesTo(bv.Padded(), 512, |bv.data|) == Occs(bv.Padded(), true) <= bv.nBits
  {
    bv.PaddingIsZero();
  }

  /** A sample is added when the count has passed the next threshold. */
  method PushSample(ghost s: seq<bool>, ghost v: bool, b: nat, count: nat, samples: seq<nat>) returns (r: seq<nat>)
    requires SamplesTo(s, 512, v, HINT, b, samples) && count == CountTo(s, 512, v, b + 1)
    ensures SamplesTo(s, 512, v, HINT, b + 1, r)
  {
    hide CountTo;
    NextSample(s, 512, v, HINT, b, samples);
    var curHint := |samples| - 1;
    r := if count / HINT > curHint then samples + [b / 8] else samples;
  }

  /** Fields of missing lines repeat the count of the superblock; the last word holds only the total. */
  method CloseMetadata(ghost s: seq<bool>, lines: nat, totalRank: nat, wordPop: nat, cur: nat, metadata: seq<nat>)
    returns (words: seq<nat>, total: nat)
    requires |s| == 512 * lines < 0x1000_0000_0000 && Progress(s, lines, totalRank, wordPop, cur, metadata)
    ensures total == OnesTo(s, 512, lines)
    ensures |words| == (lines + 7) / 8 + 1 && forall sb :: 0 <= sb < |words| ==> words[sb] == Metadata(s, sb, 7)
  {
    hide OnesTo, Metadata, LinesOnes, PushField;
    total := totalRank + wordPop;
    var left := lines % 8;
    words := metadata;
    if left != 0 {
      var w := cur;
      SameSuperblock(lines);
      OnesFit(s, 8 * (lines / 8));
      var j := left;
      while j < 8
        invariant left <= j <= 8 && w == Metadata(s, lines / 8, j - 1)
      {
        PushFieldMeans(s, lines / 8, j - 1);
        LinesDefined(s, lines / 8, j);
        BehindTheEnd(s, lines, 8 * (lines / 8) + j);
        w := PushField(w, wordPop);
        j := j + 1;
      }
      words := words + [w];
    }
    LastWord(s, lines, |words|);
    words := words + [total * Pow4096(7) % WORD128];
  }

  lemma BehindTheEnd(s: seq<bool>, lines: nat, k: nat)
    requires |s| == 512 * lines && lines <= k
    ensures OnesTo(s, 512, k) == OnesTo(s, 512, lines)
  {}

  lemma LastWord(s: seq<bool>, lines: nat, sb: nat)
    requires |s| == 512 * lines < 0x1000_0000_0000 && lines <= 8 * sb
    ensures OnesTo(s, 512, lines) * Pow4096(7) % WORD128 == Metadata(s, sb, 7)
  {
    hide OnesTo;
    var total := OnesTo(s, 512, lines);
    OnesFit(s, lines);
    BehindTheEnd(s, lines, 8 * sb);
    var f := Fields(s, sb, 7);
    forall m | 0 <= m < 7
      ensures f[m] == 0
    {
      BehindTheEnd(s, lines, 8 * sb + (7 - m));
    }
    assert f == seq(7, _ => 0);
    PackZeros(total, 7);
    Room(total * Pow4096(6), 6);
    assert total * Pow4096(6) * FIELD == total * Pow4096(7) by {
      FieldTimes(total, Pow4096(6));
    }
  }
}
