/**
 Rank and select on a bit vector with 64-bit blocks: for every line its 64-bit
 rank, followed by seven 9-bit counters of its words in another 64-bit word.
 */
module NarrowRS {
  import opened Wrappers
  import opened RankSelect
  import opened Arithmetic
  import opened Bits
  import opened Superblock
  import opened BitLines
  import opened BitHints

  const HINT: nat := 1024
  const RADIX: nat := 512
  const WORD64: nat := 0x1_0000_0000_0000_0000

  // ---- Nine-bit fields ----

  function Pow512(k: nat): (r: nat)
    ensures r > 0
  {
    if k == 0 then 1 else RADIX * Pow512(k - 1)
  }

  /** The word with the given counters, first one lowest. */
  ghost function Pack9(fields: seq<nat>): nat {
    if fields == [] then 0 else fields[0] + RADIX * Pack9(fields[1..])
  }

  ghost predicate Small9(fields: seq<nat>) {
    forall k :: 0 <= k < |fields| ==> fields[k] < RADIX
  }

  lemma {:induction false} Pack9Field(fields: seq<nat>, k: nat)
    requires Small9(fields) && k < |fields|
    ensures Pack9(fields) / Pow512(k) % RADIX == fields[k]
  {
    ModUnique(Pack9(fields), RADIX, Pack9(fields[1..]), fields[0]);
    if k > 0 {
      Pack9Field(fields[1..], k - 1);
      DivDiv(Pack9(fields), RADIX, Pow512(k - 1));
    }
  }

  lemma {:induction false} Pack9Width(fields: seq<nat>)
    requires Small9(fields)
    ensures Pack9(fields) < Pow512(|fields|)
  {
    if fields != [] {
      Pack9Width(fields[1..]);
    }
  }

  lemma OrLow9(a: nat, x: nat)
    requires x < RADIX
    ensures BitOr(RADIX * a, x) == RADIX * a + x
  {
    assert Pow2(5) == 32;
    assert Pow2(9) == RADIX;
    OrCommutes(RADIX * a, x);
    OrSplit(0, x, a, 9);
  }

  lemma Pow512Monotone(j: nat)
    requires j <= 6
    ensures Pow512(j) <= Pow512(6) == 0x40_0000_0000_0000
  {
    assert Pow512(1) == 512;
    assert Pow512(2) == 0x4_0000;
    assert Pow512(3) == 0x800_0000;
    assert Pow512(4) == 0x10_0000_0000;
    assert Pow512(5) == 0x2000_0000_0000;
  }

  // ---- The counters of a line ----

  /** Ones in the first `j` words of line `b`. */
  ghost function WordsOnes(s: seq<bool>, b: nat, j: nat): (r: nat)
    ensures r <= 64 * j
  {
    SpanBound(s, 8 * b, j);
    OnesTo(s, 64, 8 * b + j) - OnesTo(s, 64, 8 * b)
  }

  lemma {:induction false} SpanBound(s: seq<bool>, k: nat, j: nat)
    ensures OnesTo(s, 64, k) <= OnesTo(s, 64, k + j) <= OnesTo(s, 64, k) + 64 * j
  {
    hide OnesTo;
    if j > 0 {
      SpanBound(s, k, j - 1);
      OnesToStep(s, 64, k + j - 1);
    }
  }

  ghost function Fields(s: seq<bool>, b: nat, j: nat): (r: seq<nat>)
    requires j <= 7
    ensures |r| == j && Small9(r) && forall m :: 0 <= m < j ==> r[m] == WordsOnes(s, b, j - m)
  {
    seq(j, m requires 0 <= m < j => WordsOnes(s, b, j - m))
  }

  /** The counter word of line `b` after `j` counters. */
  ghost function SubRanks(s: seq<bool>, b: nat, j: nat): nat
    requires j <= 7
  {
    Pack9(Fields(s, b, j))
  }

  /** `(w << 9) | x` in 64 bits */
  function PushField(w: nat, x: nat): nat {
    BitOr(w * RADIX % WORD64, x)
  }

  lemma PushFieldMeans(s: seq<bool>, b: nat, j: nat)
    requires j < 7
    ensures PushField(SubRanks(s, b, j), WordsOnes(s, b, j + 1)) == SubRanks(s, b, j + 1)
  {
    hide BitOr, WordsOnes;
    var w, x := SubRanks(s, b, j), WordsOnes(s, b, j + 1);
    Pack9Width(Fields(s, b, j));
    Pow512Monotone(j);
    assert w * RADIX < WORD64;
    OrLow9(w, x);
    var f := Fields(s, b, j + 1);
    assert f[0] == x && f[1..] == Fields(s, b, j);
  }

  lemma WordField(s: seq<bool>, b: nat, left: nat)
    requires left < 8
    ensures SubRanks(s, b, 7) / Pow512(7 - left) % RADIX == OnesTo(s, 64, 8 * b + left) - OnesTo(s, 64, 8 * b)
  {
    hide OnesTo;
    if left != 0 {
      Pack9Field(Fields(s, b, 7), 7 - left);
    } else {
      Pack9Width(Fields(s, b, 7));
      ModUnique(SubRanks(s, b, 7), Pow512(7), 0, SubRanks(s, b, 7));
    }
  }

  // ---- The structure ----

  datatype RS = RS(bv: BitVector, blockRankPairs: seq<nat>, selectSamples: (seq<nat>, seq<nat>)) {
    function Blocks(): nat {
      |blockRankPairs| / 2
    }

    /** A pair for every line, at least one more behind the last line, and the samples of both bits. */
    ghost predicate Valid() {
      && bv.Valid()
      && |blockRankPairs| % 2 == 0 && |bv.data| < Blocks()
      && (forall b: nat :: b < Blocks() ==> PairOk(bv.Padded(), blockRankPairs, b))
      && Samples(bv.Padded(), 64, false, HINT, 8 * |bv.data|, Blocks(), selectSamples.0)
      && Samples(bv.Padded(), 64, true, HINT, 8 * |bv.data|, Blocks(), selectSamples.1)
    }

    function BlockRank(block: nat): (r: nat)
      requires Valid() && block < Blocks()
      ensures r == OnesTo(bv.Padded(), 64, 8 * block)
    {
      assert PairOk(bv.Padded(), blockRankPairs, block);
      blockRankPairs[2 * block]
    }

    /** Ones before word `subBlock`; the field of the first word is the empty top of the counter word. */
    function SubBlockRank(subBlock: nat): (r: nat)
      requires Valid() && subBlock / 8 < Blocks()
      ensures r == OnesTo(bv.Padded(), 64, subBlock)
    {
      var block, left := subBlock / 8, subBlock % 8;
      assert PairOk(bv.Padded(), blockRankPairs, block);
      WordField(bv.Padded(), block, left);
      BlockRank(block) + blockRankPairs[2 * block + 1] / Pow512(7 - left) % RADIX
    }

    method Rank1Unchecked(i: nat) returns (r: nat)
      requires Valid() && i <= bv.nBits
      ensures r == Rank(bv.Contents(), true, i)
    {
      bv.RankOfPadded(true, i);
      hide Valid, OnesTo, Rank, WordOf;
      NothingBefore(bv.Contents());
      if i == 0 {
        return 0;
      }
      var pos := i - 1;
      var subBlock, subLeft := pos / 64, pos % 64 + 1;
      WordInside(i, subBlock, subLeft);
      var word := WordOf(bv.data[subBlock / 8], subBlock % 8);
      LowBitsRank(word, subLeft, 64);
      r := SubBlockRank(subBlock) + CountOnes(LowBits(word, subLeft));
    }

    /** Ones up to a position: those of the words before, and those of its own word. */
    lemma WordInside(i: nat, word: nat, left: nat)
      requires Valid() && 0 < i <= bv.nBits && word == (i - 1) / 64 && left == (i - 1) % 64 + 1
      ensures word / 8 < |bv.data| < Blocks() && left <= 64 && i <= |bv.Padded()|
      ensures OnesTo(bv.Padded(), 64, word) + Rank(WordOf(bv.data[word / 8], word % 8), true, left) == Rank(bv.Padded(), true, i)
    {
      hide OnesTo, Rank, WordOf;
      assert 64 * word + left == i;
      WordOfPadded(bv, word, true, left);
      CountIsRank(bv.Padded(), 64, true, word);
    }

    method Rank1(i: nat) returns (r: Option<nat>)
      requires Valid()
      ensures r == if |bv.Contents()| == 0 || i > |bv.Contents()| then None else Some(Rank(bv.Contents(), true, i))
    {
      if bv.nBits == 0 || i > bv.nBits {
        return None;
      }
      var rank := Rank1Unchecked(i);
      return Some(rank);
    }

    // ---- Select ----

    /** Occurrences of `v` before a line of 512 bits. */
    function CountOfBlock(v: bool, block: nat): (r: nat)
      requires Valid() && block < Blocks()
      ensures r == CountTo(bv.Padded(), 64, v, 8 * block)
    {
      if v then BlockRank(block) else 512 * block - BlockRank(block)
    }

    /** Occurrences of `v` before a word of 64 bits. */
    function CountOfWord(v: bool, word: nat): (r: nat)
      requires Valid() && word / 8 < Blocks()
      ensures r == CountTo(bv.Padded(), 64, v, word)
    {
      if v then SubBlockRank(word) else 64 * word - SubBlockRank(word)
    }

    /** What is known about the `i`-th occurrence before the search. */
    lemma Wanted(v: bool, i: nat)
      requires Valid() && i < Occs(bv.Contents(), v)
      ensures i < CountTo(bv.Padded(), 64, v, 8 * |bv.data|) && |bv.data| < Blocks()
      ensures |bv.data| * 512 == |bv.Padded()|
    {
      hide Rank;
      CountIsRank(bv.Padded(), 64, v, 8 * |bv.data|);
      bv.RankOfPadded(v, bv.nBits);
      RankMonotone(bv.Padded(), v, bv.nBits, |bv.Padded()|);
    }

    lemma SamplesHold(v: bool, samples: seq<nat>)
      requires Valid() && samples == (if v then selectSamples.1 else selectSamples.0)
      ensures Samples(bv.Padded(), 64, v, HINT, 8 * |bv.data|, Blocks(), samples)
    {
      hide CountTo, Samples;
    }

    lemma HintBracket(v: bool, i: nat, samples: seq<nat>, h: nat)
      requires Valid() && i < Occs(bv.Contents(), v)
      requires samples == (if v then selectSamples.1 else selectSamples.0) && h == i / HINT
      ensures h + 1 < |samples| && samples[h] <= samples[h + 1] < Blocks()
      ensures CountTo(bv.Padded(), 64, v, 8 * samples[h]) <= i < CountTo(bv.Padded(), 64, v, 8 * (samples[h + 1] + 1))
    {
      hide Valid, CountTo, Samples;
      SamplesHold(v, samples);
      Wanted(v, i);
      Bracket(bv.Padded(), 64, v, HINT, 8 * |bv.data|, Blocks(), samples, i);
    }

    /** The samples around occurrence `i`. */
    method Hints(v: bool, i: nat) returns (hintStart: nat, hintEnd: nat)
      requires Valid() && i < Occs(bv.Contents(), v)
      ensures hintStart < hintEnd <= Blocks()
      ensures CountTo(bv.Padded(), 64, v, 8 * hintStart) <= i < CountTo(bv.Padded(), 64, v, 8 * hintEnd)
    {
      hide Valid, CountTo;
      var hint := i / HINT;
      var samples := if v then selectSamples.1 else selectSamples.0;
      HintBracket(v, i, samples, hint);
      hintStart, hintEnd := samples[hint], 1 + samples[hint + 1];
    }

    /** The word of occurrence `i` of `v`, and the ones before it. */
    method SelectSubBlock(v: bool, i: nat) returns (position: nat, rank: nat)
      requires Valid() && i < Occs(bv.Contents(), v)
      ensures position / 8 < |bv.data| && rank == CountTo(bv.Padded(), 64, v, position) <= i
      ensures i < CountTo(bv.Padded(), 64, v, position + 1)
    {
      hide Valid, OnesTo, Rank, CountTo;
      Wanted(v, i);
      var hintStart, hintEnd := Hints(v, i);
      var block := SelectBlock(v, i, hintStart, hintEnd);
      position := SelectWord(v, i, block);
      UnitInside(bv.Padded(), 64, v, 8 * |bv.data|, position, i);
      rank := CountOfWord(v, position);
    }

    /** The last line of the bracket that does not start behind occurrence `i`. */
    method SelectBlock(v: bool, i: nat, start: nat, hintEnd: nat) returns (block: nat)
      requires Valid() && start < hintEnd <= Blocks()
      requires CountTo(bv.Padded(), 64, v, 8 * start) <= i < CountTo(bv.Padded(), 64, v, 8 * hintEnd)
      ensures block < Blocks()
      ensures CountTo(bv.Padded(), 64, v, 8 * block) <= i < CountTo(bv.Padded(), 64, v, 8 * (block + 1))
    {
      hide Valid, CountTo, Blocks;
      var hintStart := start;
      while hintStart < hintEnd
        invariant start <= hintStart <= hintEnd
        invariant hintStart > start ==> CountTo(bv.Padded(), 64, v, 8 * (hintStart - 1)) <= i
        invariant hintStart == hintEnd ==> i < CountTo(bv.Padded(), 64, v, 8 * hintStart)
      {
        if CountOfBlock(v, hintStart) > i {
          break;
        }
        hintStart := hintStart + 1;
      }
      block := hintStart - 1;
    }

    /** The last word of a line that does not start behind occurrence `i`. */
    method SelectWord(v: bool, i: nat, block: nat) returns (position: nat)
      requires Valid() && block < Blocks()
      requires CountTo(bv.Padded(), 64, v, 8 * block) <= i < CountTo(bv.Padded(), 64, v, 8 * (block + 1))
      ensures position / 8 == block
      ensures CountTo(bv.Padded(), 64, v, position) <= i < CountTo(bv.Padded(), 64, v, position + 1)
    {
      hide Valid, CountTo, Blocks;
      position := 8 * block;
      var j := 0;
      while j < 8
        invariant 0 <= j <= 8
        invariant j > 0 ==> CountTo(bv.Padded(), 64, v, position + j - 1) <= i
        invariant j == 8 ==> i < CountTo(bv.Padded(), 64, v, position + j)
      {
        if CountOfWord(v, position + j) > i {
          break;
        }
        j := j + 1;
      }
      position := position + j - 1;
    }

    /** Position of occurrence `i` of `v`; zeros behind the end are never reached. */
    method Select(v: bool, i: nat) returns (r: Option<nat>)
      requires Valid()
      ensures SelectSpec(bv.Contents(), v, i, r)
    {
      CountsAgree();
      hide *;
      if i >= if v then bv.countOnes else bv.nBits - bv.countOnes {
        return None;
      }
      var block, rank := SelectSubBlock(v, i);
      var word := WordOf(bv.data[block / 8], block % 8);
      var wordToSelect := if v then word else Not(word);
      var p := SelectInWord(wordToSelect, i - rank);
      Found(v, i, block, rank, wordToSelect, p);
      return Some(64 * block + p);
    }

    lemma CountsAgree()
      requires Valid()
      ensures bv.countOnes <= bv.nBits && Occs(bv.Contents(), true) == bv.countOnes && Occs(bv.Contents(), false) == bv.nBits - bv.countOnes
    {
      bv.PaddingIsZero();
      NotRank(bv.Contents(), bv.nBits);
    }

    lemma Found(v: bool, i: nat, block: nat, rank: nat, word: seq<bool>, p: nat)
      requires Valid() && i < Occs(bv.Contents(), v) && block / 8 < |bv.data|
      requires rank == CountTo(bv.Padded(), 64, v, block) <= i < CountTo(bv.Padded(), 64, v, block + 1)
      requires word == (if v then WordOf(bv.data[block / 8], block % 8) else Not(WordOf(bv.data[block / 8], block % 8)))
      requires i - rank < CountOnes(word) ==> IsSelect(word, true, i - rank, p)
      ensures IsSelect(bv.Contents(), v, i, 64 * block + p)
    {
      WordAt(v, block, word);
      hide Rank, IsSelect, CountTo, WordOf;
      SelectOfWord(bv, v, i, block, word, p);
      var q := 64 * block + p;
      bv.RankOfPadded(v, bv.nBits);
      OccurrenceInside(bv, v, i, q);
    }

    /** A word holds the occurrences between its two counts. */
    lemma WordAt(v: bool, block: nat, word: seq<bool>)
      requires Valid() && block / 8 < |bv.data|
      requires word == (if v then WordOf(bv.data[block / 8], block % 8) else Not(WordOf(bv.data[block / 8], block % 8)))
      ensures 64 * block <= |bv.Padded()| && CountTo(bv.Padded(), 64, v, block) == Rank(bv.Padded(), v, 64 * block)
      ensures CountTo(bv.Padded(), 64, v, block + 1) == Rank(bv.Padded(), v, 64 * block) + CountOnes(word)
    {
      hide Rank, WordOf;
      CountIsRank(bv.Padded(), 64, v, block);
      CountIsRank(bv.Padded(), 64, v, block + 1);
      WordOfPadded(bv, block, v, 64);
      NotRank(WordOf(bv.data[block / 8], block % 8), 64);
    }
  }

  /** The rank and the counters of a line. */
  ghost predicate PairOk(s: seq<bool>, pairs: seq<nat>, b: nat) {
    2 * b + 1 < |pairs| && pairs[2 * b] == OnesTo(s, 64, 8 * b) && pairs[2 * b + 1] == SubRanks(s, b, 7)
  }

  /** Word number `k` of a bit vector. */
  lemma WordOfPadded(bv: BitVector, k: nat, v: bool, i: nat)
    requires k / 8 < |bv.data| && i <= 64
    ensures 64 * k + i <= |bv.Padded()| && Rank(bv.Padded(), v, 64 * k) <= Rank(bv.Padded(), v, 64 * k + i)
    ensures Rank(WordOf(bv.data[k / 8], k % 8), v, i) == Rank(bv.Padded(), v, 64 * k + i) - Rank(bv.Padded(), v, 64 * k)
  {
    hide Rank, WordOf;
    var b, w := k / 8, k % 8;
    assert 64 * k == 512 * b + 64 * w;
    bv.LineOf(b, v, 64 * w);
    bv.LineOf(b, v, 64 * w + i);
    WordRank(bv.data[b], w, v, i);
  }

  lemma SelectOfWord(bv: BitVector, v: bool, i: nat, k: nat, word: seq<bool>, p: nat)
    requires k / 8 < |bv.data| && word == (if v then WordOf(bv.data[k / 8], k % 8) else Not(WordOf(bv.data[k / 8], k % 8)))
    requires 64 * k <= |bv.Padded()| && Rank(bv.Padded(), v, 64 * k) <= i && IsSelect(word, true, i - Rank(bv.Padded(), v, 64 * k), p)
    ensures IsSelect(bv.Padded(), v, i, 64 * k + p)
  {
    hide Rank;
    var b, w := k / 8, k % 8;
    WordOfPadded(bv, k, v, p);
    NotRank(WordOf(bv.data[b], w), p);
    assert 64 * k + p == 512 * b + (64 * w + p);
    assert (512 * b + (64 * w + p)) / 512 == b && (512 * b + (64 * w + p)) % 512 == 64 * w + p;
  }

  lemma OccurrenceInside(bv: BitVector, v: bool, i: nat, q: nat)
    requires bv.Valid() && i < Occs(bv.Contents(), v) && IsSelect(bv.Padded(), v, i, q)
    ensures IsSelect(bv.Contents(), v, i, q)
  {
    hide Rank;
    bv.RankOfPadded(v, bv.nBits);
    SelectBracket(bv.Padded(), v, i, q, bv.nBits);
    bv.RankOfPadded(v, q);
  }

  // ---- Construction ----

  /** The pairs of `b` lines and the rank of the next one. */
  ghost predicate PairsTo(s: seq<bool>, b: nat, pairs: seq<nat>) {
    |pairs| == 2 * b + 1 && pairs[2 * b] == OnesTo(s, 64, 8 * b) && forall c: nat :: c < b ==> PairOk(s, pairs, c)
  }

  lemma NextPair(s: seq<bool>, b: nat, pairs: seq<nat>, subranks: nat, nextRank: nat)
    requires PairsTo(s, b, pairs) && subranks == SubRanks(s, b, 7) && nextRank == OnesTo(s, 64, 8 * (b + 1))
    ensures PairsTo(s, b + 1, pairs + [subranks, nextRank])
  {
    hide OnesTo, SubRanks;
    var next := pairs + [subranks, nextRank];
    forall c: nat | c < b + 1
      ensures PairOk(s, next, c)
    {
      if c < b {
        assert PairOk(s, pairs, c);
      }
    }
  }

  /** The words of one line, one counter behind. */
  method CountWords(bv: BitVector, b: nat, rank: nat, zeros: nat, first0: seq<nat>, first1: seq<nat>)
    returns (subranks: nat, nextRank: nat, zerosSoFar: nat, samples0: seq<nat>, samples1: seq<nat>)
    requires bv.Valid() && b < |bv.data|
    requires rank == OnesTo(bv.Padded(), 64, 8 * b) && zeros == CountTo(bv.Padded(), 64, false, 8 * b)
    requires SamplesTo(bv.Padded(), 64, false, HINT, 8 * b, first0) && SamplesTo(bv.Padded(), 64, true, HINT, 8 * b, first1)
    ensures subranks == SubRanks(bv.Padded(), b, 7)
    ensures nextRank == OnesTo(bv.Padded(), 64, 8 * (b + 1)) && zerosSoFar == CountTo(bv.Padded(), 64, false, 8 * (b + 1))
    ensures SamplesTo(bv.Padded(), 64, false, HINT, 8 * (b + 1), samples0)
    ensures SamplesTo(bv.Padded(), 64, true, HINT, 8 * (b + 1), samples1)
  {
    hide OnesTo, CountTo, SamplesTo, SubRanks, WordsOnes, PushField, Rank, WordOf, BitVector.Valid;
    ghost var s := bv.Padded();
    subranks, nextRank, zerosSoFar, samples0, samples1 := 0, rank, zeros, first0, first1;
    var curSubrank := 0;
    NoCounters(s, b);
    var b1 := 0;
    while b1 < 8
      invariant 0 <= b1 <= 8
      invariant subranks == SubRanks(s, b, if b1 == 0 then 0 else b1 - 1) && curSubrank == WordsOnes(s, b, b1)
      invariant nextRank == OnesTo(s, 64, 8 * b + b1) && zerosSoFar == CountTo(s, 64, false, 8 * b + b1)
      invariant SamplesTo(s, 64, false, HINT, 8 * b + b1, samples0) && SamplesTo(s, 64, true, HINT, 8 * b + b1, samples1)
    {
      if b1 >= 1 {
        PushFieldMeans(s, b, b1 - 1);
        subranks := PushField(subranks, curSubrank);
      }
      var wordPop := CountOnes(WordOf(bv.data[b], b1));
      OneWord(bv, b, b1);
      nextRank := nextRank + wordPop;
      curSubrank := curSubrank + wordPop;
      samples1 := PushSample(s, true, b, b1, nextRank, samples1);
      zerosSoFar := zerosSoFar + (64 - wordPop);
      samples0 := PushSample(s, false, b, b1, zerosSoFar, samples0);
      b1 := b1 + 1;
    }
  }

  lemma NoCounters(s: seq<bool>, b: nat)
    ensures SubRanks(s, b, 0) == 0 && WordsOnes(s, b, 0) == 0
  {}

  lemma OneWord(bv: BitVector, b: nat, b1: nat)
    requires b < |bv.data| && b1 < 8
    ensures var s, k, ones := bv.Padded(), 8 * b + b1, CountOnes(WordOf(bv.data[b], b1));
      && OnesTo(s, 64, k + 1) == OnesTo(s, 64, k) + ones && ones <= 64
      && CountTo(s, 64, true, k + 1) == OnesTo(s, 64, k + 1)
      && CountTo(s, 64, false, k + 1) == CountTo(s, 64, false, k) + (64 - ones)
      && WordsOnes(s, b, b1 + 1) == WordsOnes(s, b, b1) + ones
  {
    var k := 8 * b + b1;
    assert k / 8 == b && k % 8 == b1;
    hide Rank, WordOf;
    WordOfPadded(bv, k, true, 64);
  }

  method PushSample(ghost s: seq<bool>, ghost v: bool, b: nat, ghost b1: nat, count: nat, samples: seq<nat>) returns (r: seq<nat>)
    requires b1 < 8 && SamplesTo(s, 64, v, HINT, 8 * b + b1, samples) && count == CountTo(s, 64, v, 8 * b + b1 + 1)
    ensures SamplesTo(s, 64, v, HINT, 8 * b + (b1 + 1), r)
  {
    hide CountTo;
    NextSample(s, 64, v, HINT, 8 * b + b1, samples);
    assert (8 * b + b1) / 8 == b;
    var curHint := |samples| - 1;
    r := if count / HINT > curHint then samples + [b] else samples;
  }

  /** One pass over the words, then the pairs behind the last line and the guards. */
  method NewNarrow(bv: BitVector) returns (r: RS)
    requires bv.Valid()
    ensures r.Valid() && r.bv == bv
  {
    hide OnesTo, CountTo, SamplesTo, SubRanks, BitVector.Valid, PairsTo;
    ghost var s := bv.Padded();
    var pairs: seq<nat>, nextRank: nat, zerosSoFar: nat := [0], 0, 0;
    var samples0: seq<nat>, samples1: seq<nat> := [0], [0];
    FirstSample(s, 64, false, HINT);
    FirstSample(s, 64, true, HINT);
    FirstPair(s);
    var b := 0;
    while b < |bv.data|
      invariant 0 <= b <= |bv.data| && PairsTo(s, b, pairs)
      invariant nextRank == OnesTo(s, 64, 8 * b) && zerosSoFar == CountTo(s, 64, false, 8 * b)
      invariant SamplesTo(s, 64, false, HINT, 8 * b, samples0) && SamplesTo(s, 64, true, HINT, 8 * b, samples1)
    {
      var subranks;
      subranks, nextRank, zerosSoFar, samples0, samples1 := CountWords(bv, b, nextRank, zerosSoFar, samples0, samples1);
      NextPair(s, b, pairs, subranks, nextRank);
      pairs := pairs + [subranks, nextRank];
      b := b + 1;
    }
    pairs := ClosePairs(s, |bv.data|, nextRank, pairs);
    samples0 := samples0 + [|pairs| / 2 - 1];
    samples1 := samples1 + [|pairs| / 2 - 1];
    assert samples0[..|samples0| - 1] + [|pairs| / 2 - 1] == samples0;
    r := RS(bv, pairs, (samples0, samples1));
  }

  lemma FirstPair(s: seq<bool>)
    ensures PairsTo(s, 0, [0]) && OnesTo(s, 64, 0) == 0 && CountTo(s, 64, false, 0) == 0
  {}

  /** Pairs behind the last line: the total, and no ones after it. */
  method ClosePairs(ghost s: seq<bool>, lines: nat, nextRank: nat, pairs: seq<nat>) returns (r: seq<nat>)
    requires |s| == 512 * lines && PairsTo(s, lines, pairs) && nextRank == OnesTo(s, 64, 8 * lines)
    ensures |r| % 2 == 0 && lines < |r| / 2 && forall b: nat :: b < |r| / 2 ==> PairOk(s, r, b)
  {
    hide OnesTo, SubRanks;
    var subranks := 0;
    var left := 8 - lines % 8;
    var k := 0;
    while k < left
      invariant 0 <= k <= left && subranks == 0
    {
      subranks := PushField(subranks, 0);
      k := k + 1;
    }
    NothingBehind(s, lines, lines);
    NothingBehind(s, lines, lines + 1);
    r := pairs + [subranks];
    assert forall b: nat :: b < lines ==> PairOk(s, pairs, b);
    if lines % 8 != 0 {
      r := r + [nextRank, 0];
    }
    forall b: nat | b < |r| / 2
      ensures PairOk(s, r, b)
    {
      if b < lines {
        assert PairOk(s, pairs, b);
      }
    }
  }

  lemma NothingBehind(s: seq<bool>, lines: nat, b: nat)
    requires |s| == 512 * lines && lines <= b
    ensures OnesTo(s, 64, 8 * b) == OnesTo(s, 64, 8 * lines) && SubRanks(s, b, 7) == 0
  {
    var f := Fields(s, b, 7);
    forall m | 0 <= m < 7
      ensures f[m] == 0
    {
      BehindTheEnd(s, lines, 8 * b + (7 - m));
      BehindTheEnd(s, lines, 8 * b);
    }
    BehindTheEnd(s, lines, 8 * b);
    hide OnesTo;
    ZeroFields(f);
  }

  lemma BehindTheEnd(s: seq<bool>, lines: nat, k: nat)
    requires |s| == 512 * lines && 8 * lines <= k
    ensures OnesTo(s, 64, k) == OnesTo(s, 64, 8 * lines)
  {}

  lemma {:induction false} ZeroFields(f: seq<nat>)
    requires forall m :: 0 <= m < |f| ==> f[m] == 0
    ensures Pack9(f) == 0
  {
    if f != [] {
      ZeroFields(f[1..]);
    }
  }
}
