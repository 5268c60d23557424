/**
 The streamed encoder of one level. Digits arrive one by one or in blocks; blocks
 are cut into pieces of at most 64 rows that are counted by population counts.
 Either way the files hold what in-memory construction would hold.
 */
module LevelEncoders {
  import opened RankSelect
  import opened StablePartition
  import opened Arithmetic
  import opened CraftCodes
  import opened Bits
  import opened QuadVector
  import opened Superblock
  import opened RankSupport
  import opened BuildSupport
  import opened PackedLines

  const BLOCK_ROWS: nat := 256
  const SUPERBLOCK_ROWS: nat := 2048
  const PIECE_ROWS: nat := 64

  // ---- Counting a piece ----

  /** `x.wrapping_sub(1)` in 64 bits. */
  function WrappingPred(x: nat): nat {
    if x == 0 then 0xFFFF_FFFF_FFFF_FFFF else x - 1
  }

  /** Is one of the occurrences `first, ..., first + count - 1` sampled? */
  predicate Crosses(first: nat, count: nat)
    requires count > 0
  {
    (first + count - 1) / SELECT_NUM_SAMPLES != WrappingPred(first) / SELECT_NUM_SAMPLES
  }

  /** At most 64 occurrences cross at most one sampling threshold, the last one or an earlier one. */
  lemma CrossesStep(first: nat, count: nat)
    requires count < 64 && first < 0x1000_0000_0000_0000
    ensures Crosses(first, count + 1) <==> (count > 0 && Crosses(first, count)) || (first + count) % SELECT_NUM_SAMPLES == 0
    ensures count > 0 && Crosses(first, count) ==> (first + count) % SELECT_NUM_SAMPLES != 0
  {
    var m := SELECT_NUM_SAMPLES;
    var x := first + count;
    if x % m == 0 && x > 0 {
      assert (x - 1) / m == x / m - 1;
    } else if x > 0 {
      assert (x - 1) / m == x / m;
    }
  }

  /** Rows of a piece lie in one superblock. */
  lemma PieceSuperblock(row: nat, j: nat)
    requires row % PIECE_ROWS + j < PIECE_ROWS
    ensures (row + j) / SUPERBLOCK_ROWS == row / SUPERBLOCK_ROWS
    ensures j > 0 ==> (row + j) % BLOCK_ROWS != 0 && (row + j) % SUPERBLOCK_ROWS != 0
  {
    PieceWithin(row, j, 4);
    PieceWithin(row, j, 32);
  }

  /** A piece stays within any unit of `u` pieces. */
  lemma PieceWithin(row: nat, j: nat, u: nat)
    requires u > 0 && row % PIECE_ROWS + j < PIECE_ROWS
    ensures (row + j) / (PIECE_ROWS * u) == row / (PIECE_ROWS * u)
    ensures j > 0 ==> (row + j) % (PIECE_ROWS * u) != 0
  {
    var a, r := row / PIECE_ROWS, row % PIECE_ROWS;
    DivDiv(row, PIECE_ROWS, u);
    DivDiv(row + j, PIECE_ROWS, u);
    assert (row + j) / PIECE_ROWS == a && (row + j) % PIECE_ROWS == r + j;
    if (row + j) % (PIECE_ROWS * u) == 0 {
      MultipleSplit(row + j, PIECE_ROWS, u);
    }
  }

  lemma MultipleSplit(x: nat, m: nat, u: nat)
    requires m > 0 && u > 0 && m * u > 0 && x % (m * u) == 0
    ensures x % m == 0
  {
    var k := x / (m * u);
    assert x == k * (m * u);
    assert x == (k * u) * m by { MulAssociates(k, m, u); }
    ModUnique(x, m, k * u, 0);
  }

  /** The samples of a symbol after `j` rows of a piece. */
  lemma {:induction false} PieceSamples(full: seq<int>, s: nat, row: nat, j: nat)
    requires row % PIECE_ROWS + j <= PIECE_ROWS && row + j <= |full| < MAX_LEN
    ensures var count := Rank(full, s, row + j) - Rank(full, s, row);
      && 0 <= count <= j
      && SamplesUpTo(full, 256, s, row + j)
         == SamplesUpTo(full, 256, s, row) + if count > 0 && Crosses(Rank(full, s, row), count) then [row / SUPERBLOCK_ROWS] else []
  {
    RankMonotone(full, s, row, row + j);
    if j > 0 {
      PieceSamples(full, s, row, j - 1);
      PieceSamplesStep(full, s, row, j - 1);
    }
  }

  lemma PieceSamplesStep(full: seq<int>, s: nat, row: nat, j: nat)
    requires row % PIECE_ROWS + j + 1 <= PIECE_ROWS && row + j + 1 <= |full| < MAX_LEN && Rank(full, s, row) <= Rank(full, s, row + j)
    requires var count := Rank(full, s, row + j) - Rank(full, s, row);
      && count <= j
      && SamplesUpTo(full, 256, s, row + j)
         == SamplesUpTo(full, 256, s, row) + if count > 0 && Crosses(Rank(full, s, row), count) then [row / SUPERBLOCK_ROWS] else []
    ensures Rank(full, s, row) <= Rank(full, s, row + j + 1)
    ensures var count := Rank(full, s, row + j + 1) - Rank(full, s, row);
      SamplesUpTo(full, 256, s, row + j + 1)
         == SamplesUpTo(full, 256, s, row) + if count > 0 && Crosses(Rank(full, s, row), count) then [row / SUPERBLOCK_ROWS] else []
  {
    hide Crosses;
    PieceSuperblock(row, j);
    if full[row + j] == s {
      CrossesStep(Rank(full, s, row), Rank(full, s, row + j) - Rank(full, s, row));
    }
  }

  /** What the encoder keeps for one symbol when `row` rows have been counted. */
  ghost predicate SymbolAtRow(full: seq<int>, row: nat, s: nat, global: nat, block: nat, expected: nat, select: seq<nat>, nSel: nat)
    requires row <= |full|
  {
    global == Rank(full, s, row) && block == expected && select == SamplesUpTo(full, 256, s, row) && nSel == |select|
  }

  /** One symbol of a piece: at most one sample, and both counters. */
  method CountPieceSymbol(ghost full: seq<int>, row: nat, ghost take: nat, ghost s: nat, count: nat, global: nat, block: nat, select: seq<nat>, nSel: nat, ghost was: nat)
    returns (g: nat, c: nat, x: seq<nat>, k: nat)
    requires row % PIECE_ROWS + take <= PIECE_ROWS && row + take <= |full| < MAX_LEN
    requires Rank(full, s, row) <= Rank(full, s, row + take) && count == Rank(full, s, row + take) - Rank(full, s, row)
    requires SymbolAtRow(full, row, s, global, block, was, select, nSel)
    ensures SymbolAtRow(full, row + take, s, g, c, was + count, x, k)
  {
    hide Rank, SamplesUpTo, Crosses;
    PieceSamples(full, s, row, take);
    g, c, x, k := global, block, select, nSel;
    if count != 0 {
      if Crosses(global, count) {
        x := x + [row / SUPERBLOCK_ROWS];
        k := k + 1;
      }
      g := g + count;
      c := c + count;
    }
  }

  /** Counts after `j` rows of a piece. */
  ghost predicate CountedTo(full: seq<int>, row: nat, j: nat, sbc: seq<nat>, bc: seq<nat>, sbc': seq<nat>, bc': seq<nat>)
    requires row + j <= |full|
  {
    && |sbc| == |bc| == |sbc'| == |bc'| == 4
    && forall s: nat :: s < 4 ==>
         sbc'[s] == sbc[s] + (Rank(full, s, row + j) - Rank(full, s, row)) && bc'[s] == bc[s] + (Rank(full, s, row + j) - Rank(full, s, row))
  }

  /** Rows inside a piece close no block: the words stay as they are while the counts grow. */
  lemma {:induction false} PieceSupport(full: seq<int>, row: nat, j: nat, superblocks: seq<SuperblockPlain>,
                                        sbc: seq<nat>, bc: seq<nat>, sbc': seq<nat>, bc': seq<nat>)
    requires Bounded(full, 4) && 0 < j && row % PIECE_ROWS + j <= PIECE_ROWS && row + j <= |full|
    requires Opened(full, 256, row, row + 1, superblocks, sbc, bc) && CountedTo(full, row, j, sbc, bc, sbc', bc')
    ensures PassState(full, 256, row + j, superblocks, sbc', bc')
  {
    hide Opened, PassState;
    var i := row + j - 1;
    if j == 1 {
      NextCounts(full, row, superblocks, sbc, bc, sbc', bc');
      Advance(full, 256, row, superblocks, sbc, bc, sbc', bc');
    } else {
      var s0, b0 := StepBack(full, row, j, sbc, bc, sbc', bc');
      PieceSupport(full, row, j - 1, superblocks, sbc, bc, s0, b0);
      PieceSuperblock(row, j - 1);
      OpenOld(full, 256, i, superblocks, s0, b0);
      CloseNone(full, 256, i, superblocks, s0, b0);
      OneMore(full, row, j, superblocks, sbc, bc, s0, b0, sbc', bc');
      Advance(full, 256, i, superblocks, s0, b0, sbc', bc');
    }
  }

  lemma NextCounts(full: seq<int>, row: nat, superblocks: seq<SuperblockPlain>, sbc: seq<nat>, bc: seq<nat>, sbc': seq<nat>, bc': seq<nat>)
    requires row < |full| && Opened(full, 256, row, row + 1, superblocks, sbc, bc) && CountedTo(full, row, 1, sbc, bc, sbc', bc')
    ensures Counts(full, 256, row + 1, row / 2048, sbc', bc')
  {
    hide AllPartial;
  }

  lemma StepBack(full: seq<int>, row: nat, j: nat, sbc: seq<nat>, bc: seq<nat>, sbc': seq<nat>, bc': seq<nat>)
    returns (s0: seq<nat>, b0: seq<nat>)
    requires 1 < j && row + j <= |full| && CountedTo(full, row, j, sbc, bc, sbc', bc')
    ensures CountedTo(full, row, j - 1, sbc, bc, s0, b0)
  {
    forall s: nat | s < 4
      ensures Rank(full, s, row) <= Rank(full, s, row + j - 1)
    {
      RankMonotone(full, s, row, row + j - 1);
    }
    s0 := seq(4, s requires 0 <= s < 4 => sbc[s] + (Rank(full, s, row + j - 1) - Rank(full, s, row)));
    b0 := seq(4, s requires 0 <= s < 4 => bc[s] + (Rank(full, s, row + j - 1) - Rank(full, s, row)));
  }

  lemma OneMore(full: seq<int>, row: nat, j: nat, superblocks: seq<SuperblockPlain>, sbc: seq<nat>, bc: seq<nat>,
                s0: seq<nat>, b0: seq<nat>, sbc': seq<nat>, bc': seq<nat>)
    requires 1 < j && row + j <= |full| && row % PIECE_ROWS + j <= PIECE_ROWS
    requires CountedTo(full, row, j - 1, sbc, bc, s0, b0) && CountedTo(full, row, j, sbc, bc, sbc', bc')
    requires Opened(full, 256, row + j - 1, row + j, superblocks, s0, b0)
    ensures Counts(full, 256, row + j, (row + j - 1) / 2048, sbc', bc')
  {
    hide AllPartial;
  }

  // ---- Population counts ----

  function Both(a: seq<bool>, b: seq<bool>): (r: seq<bool>)
    requires |a| == |b|
    ensures |r| == |a| && forall i :: 0 <= i < |a| ==> r[i] == (a[i] && b[i])
  {
    seq(|a|, i requires 0 <= i < |a| => a[i] && b[i])
  }

  function OnlyFirst(a: seq<bool>, b: seq<bool>): (r: seq<bool>)
    requires |a| == |b|
    ensures |r| == |a| && forall i :: 0 <= i < |a| ==> r[i] == (a[i] && !b[i])
  {
    seq(|a|, i requires 0 <= i < |a| => a[i] && !b[i])
  }

  /** The piece written as two bit planes. */
  method Transpose(ghost full: seq<int>, ghost row: nat, piece: seq<nat>) returns (high: seq<bool>, low: seq<bool>)
    requires |piece| <= 64 && row + |piece| <= |full| && Bounded(full, 4)
    requires forall i :: 0 <= i < |piece| ==> piece[i] == full[row + i]
    ensures PlaneOf(full, row, |piece|, true, high) && PlaneOf(full, row, |piece|, false, low)
  {
    high, low := seq(64, _ => false), seq(64, _ => false);
    var index := 0;
    while index < |piece|
      invariant 0 <= index <= |piece|
      invariant PlaneOf(full, row, index, true, high) && PlaneOf(full, row, index, false, low)
    {
      var digit := piece[index];
      high := high[index := high[index] || (digit / 2) % 2 == 1];
      low := low[index := low[index] || digit % 2 == 1];
      index := index + 1;
    }
  }

  lemma MarkedCount(full: seq<int>, row: nat, take: nat, s: int, w: seq<bool>)
    requires row + take <= |full| && take <= |w| && forall i :: 0 <= i < |w| ==> (w[i] <==> i < take && full[row + i] == s)
    ensures Rank(full, s, row) <= Rank(full, s, row + take) && CountOnes(w) == Rank(full, s, row + take) - Rank(full, s, row)
  {
    MarksRank(full, w, row, s, take);
    RestEmpty(w, take);
  }

  lemma {:induction false} RankSum(full: seq<int>, i: nat)
    requires Bounded(full, 4) && i <= |full|
    ensures Rank(full, 0, i) + Rank(full, 1, i) + Rank(full, 2, i) + Rank(full, 3, i) == i
  {
    if i > 0 {
      RankSum(full, i - 1);
    }
  }

  /** Occurrences of the four symbols in a piece. */
  method CountPiece(ghost full: seq<int>, ghost row: nat, rows: nat, high: seq<bool>, low: seq<bool>) returns (counts: seq<nat>)
    requires Bounded(full, 4) && row + rows <= |full| && rows <= 64
    requires PlaneOf(full, row, rows, true, high) && PlaneOf(full, row, rows, false, low)
    ensures |counts| == 4
    ensures forall s: nat :: s < 4 ==> Rank(full, s, row) <= Rank(full, s, row + rows) && counts[s] == Rank(full, s, row + rows) - Rank(full, s, row)
  {
    hide Rank;
    MarkedCount(full, row, rows, 3, Both(high, low));
    MarkedCount(full, row, rows, 2, OnlyFirst(high, low));
    MarkedCount(full, row, rows, 1, OnlyFirst(low, high));
    RankMonotone(full, 0, row, row + rows);
    RankSum(full, row);
    RankSum(full, row + rows);
    var c3 := CountOnes(Both(high, low));
    var c2 := CountOnes(OnlyFirst(high, low));
    var c1 := CountOnes(OnlyFirst(low, high));
    counts := [rows - c1 - c2 - c3, c1, c2, c3];
  }

  // ---- The state ----

  datatype Fields = Fields(data: seq<DataLine>, superblocks: seq<SuperblockPlain>, select: seq<seq<nat>>,
                           words: seq<Bits128>, lineRows: nat, nDatalines: nat, global: seq<nat>, block: seq<nat>,
                           superblockWords: seq<nat>, nSuperblocks: nat, nSel: seq<nat>)

  /** Superblocks in the file and the open one, after `m` digits. */
  ghost predicate SupportAt(full: seq<int>, m: nat, superblocks: seq<SuperblockPlain>, superblockWords: seq<nat>,
                            global: seq<nat>, block: seq<nat>, nSuperblocks: nat)
    requires m <= |full|
  {
    && |superblockWords| == |global| == |block| == 4 && nSuperblocks == |superblocks| + 1
    && if m == 0 then superblocks == [] && superblockWords == [0, 0, 0, 0] && global == [0, 0, 0, 0] && block == [0, 0, 0, 0]
       else PassState(full, 256, m, superblocks + [SuperblockPlain(superblockWords)], global, block)
  }

  ghost predicate SelectAt(full: seq<int>, m: nat, select: seq<seq<nat>>, nSel: seq<nat>)
    requires m <= |full|
  {
    SampleState(full, 256, m, select) && |nSel| == 4 && forall s :: 0 <= s < 4 ==> nSel[s] == |select[s]|
  }

  lemma CountsBefore(full: seq<int>, row: nat, global: seq<nat>, block: seq<nat>, select: seq<seq<nat>>, nSel: seq<nat>)
    requires row <= |full| && |global| == |block| == 4 && SelectAt(full, row, select, nSel)
    requires forall s: nat :: s < 4 ==> global[s] == Rank(full, s, row)
    ensures |select| == |nSel| == 4
    ensures forall s: nat :: s < 4 ==> SymbolAtRow(full, row, s, global[s], block[s], block[s], select[s], nSel[s])
  {
    hide Rank, SamplesUpTo;
  }

  lemma CountsAfter(full: seq<int>, row: nat, take: nat, counts: seq<nat>, sbc: seq<nat>, bc: seq<nat>,
                    global: seq<nat>, block: seq<nat>, select: seq<seq<nat>>, nSel: seq<nat>)
    requires row + take <= |full| && |sbc| == |bc| == |counts| == |global| == |block| == |select| == |nSel| == 4
    requires forall s: nat :: s < 4 ==> sbc[s] == Rank(full, s, row) <= Rank(full, s, row + take) && counts[s] == Rank(full, s, row + take) - Rank(full, s, row)
    requires forall s: nat :: s < 4 ==> SymbolAtRow(full, row + take, s, global[s], block[s], bc[s] + counts[s], select[s], nSel[s])
    ensures CountedTo(full, row, take, sbc, bc, global, block) && SelectAt(full, row + take, select, nSel)
  {
    hide Rank, SamplesUpTo;
    assert forall s: nat :: s < 4 ==> SymbolAtRow(full, row + take, s, global[s], block[s], bc[s] + counts[s], select[s], nSel[s]);
  }

  /** All fields after the first `m` of the digits `full`. */
  ghost predicate FieldsAt(full: seq<int>, m: nat, f: Fields) {
    && Bounded(full, 4) && m <= |full| < MAX_LEN
    && LinesAt(full, m, f.data, f.words, f.lineRows) && f.nDatalines == |f.data|
    && SupportAt(full, m, f.superblocks, f.superblockWords, f.global, f.block, f.nSuperblocks)
    && SelectAt(full, m, f.select, f.nSel)
  }

  /** The state depends on the digits alone, not on how they were cut into calls. */
  lemma StateDetermined(full: seq<int>, m: nat, a: Fields, b: Fields)
    requires FieldsAt(full, m, a) && FieldsAt(full, m, b)
    ensures a == b
  {
    SameLines(full, m, a, b);
    SameSupport(full, m, a, b);
    SameSelect(full, m, a, b);
  }

  lemma SameLines(full: seq<int>, m: nat, a: Fields, b: Fields)
    requires FieldsAt(full, m, a) && FieldsAt(full, m, b)
    ensures a.data == b.data && a.words == b.words && a.lineRows == b.lineRows && a.nDatalines == b.nDatalines
  {
    hide LineOf, LineWord, SupportAt, SelectAt;
  }

  lemma SameSelect(full: seq<int>, m: nat, a: Fields, b: Fields)
    requires FieldsAt(full, m, a) && FieldsAt(full, m, b)
    ensures a.select == b.select && a.nSel == b.nSel
  {
    hide SamplesUpTo, LinesAt, SupportAt;
    assert forall s :: 0 <= s < 4 ==> a.select[s] == b.select[s];
  }

  lemma SameSupport(full: seq<int>, m: nat, a: Fields, b: Fields)
    requires FieldsAt(full, m, a) && FieldsAt(full, m, b)
    ensures a.superblocks == b.superblocks && a.superblockWords == b.superblockWords && a.nSuperblocks == b.nSuperblocks
    ensures a.global == b.global && a.block == b.block
  {
    hide LinesAt, SelectAt;
    if m > 0 {
      var x, y := a.superblocks + [SuperblockPlain(a.superblockWords)], b.superblocks + [SuperblockPlain(b.superblockWords)];
      SamePass(full, m, x, y, a.global, b.global, a.block, b.block);
      hide PassState;
      assert x[..|x| - 1] == a.superblocks && y[..|y| - 1] == b.superblocks;
      assert x[|x| - 1] == y[|y| - 1];
    }
  }

  lemma SamePass(full: seq<int>, m: nat, x: seq<SuperblockPlain>, y: seq<SuperblockPlain>,
                 sbc: seq<nat>, sbc': seq<nat>, bc: seq<nat>, bc': seq<nat>)
    requires 0 < m <= |full| && PassState(full, 256, m, x, sbc, bc) && PassState(full, 256, m, y, sbc', bc')
    ensures x == y && sbc == sbc' && bc == bc'
  {
    hide PartialWord, Rank;
    forall t | 0 <= t < |x|
      ensures x[t] == y[t]
    {
      assert IsPartial(full, 256, t, m, x[t]) && IsPartial(full, 256, t, m, y[t]);
      assert x[t].counters == y[t].counters;
    }
    assert sbc == sbc' && bc == bc';
  }

  // ---- Steps on values ----

  /** The open superblock when position `row` has been reached. */
  lemma StartRow(full: seq<int>, row: nat, f: Fields)
    requires Bounded(full, 4) && row <= |full|
    requires SupportAt(full, row, f.superblocks, f.superblockWords, f.global, f.block, f.nSuperblocks)
    ensures |f.global| == 4
    ensures row > 0 && row % SUPERBLOCK_ROWS == 0 ==>
      Opened(full, 256, row, row, f.superblocks + [SuperblockPlain(f.superblockWords)] + [NewSuperblock(f.global)], f.global, [0, 0, 0, 0])
    ensures row == 0 || row % SUPERBLOCK_ROWS != 0 ==>
      Opened(full, 256, row, row, f.superblocks + [SuperblockPlain(f.superblockWords)], f.global, f.block)
  {
    hide PassState, Opened;
    if row == 0 {
      PassStart(full, 256);
      OpenNew(full, 256, 0, [], f.global, f.block);
      ZeroSuperblock();
      assert [] + [SuperblockPlain(f.superblockWords)] == [SuperblockPlain(f.superblockWords)];
    } else if row % SUPERBLOCK_ROWS == 0 {
      OpenNew(full, 256, row, f.superblocks + [SuperblockPlain(f.superblockWords)], f.global, f.block);
    } else {
      OpenOld(full, 256, row, f.superblocks + [SuperblockPlain(f.superblockWords)], f.global, f.block);
    }
  }

  lemma ZeroSuperblock()
    ensures NewSuperblock([0, 0, 0, 0]) == SuperblockPlain([0, 0, 0, 0])
  {
    assert FieldShift(0, 7) == 0;
  }

  /** The open word of every symbol, with the block counters of a block that starts at `row`. */
  lemma StartBlock(full: seq<int>, row: nat, done: seq<SuperblockPlain>, words: seq<nat>, sbc: seq<nat>, bc: seq<nat>)
    requires Bounded(full, 4) && row <= |full| && |words| == 4
    requires Opened(full, 256, row, row, done + [SuperblockPlain(words)], sbc, bc)
    ensures |bc| == 4 && forall s :: 0 <= s < 4 ==> bc[s] < FIELD || row % BLOCK_ROWS != 0
    ensures row % BLOCK_ROWS == 0 ==>
      Opened(full, 256, row, row + 1, done + [SuperblockPlain(words).SetBlockCounters(row / BLOCK_ROWS % 8, bc)], sbc, bc)
    ensures row % BLOCK_ROWS != 0 ==> Opened(full, 256, row, row + 1, done + [SuperblockPlain(words)], sbc, bc)
  {
    OpenedShape(full, row, done + [SuperblockPlain(words)], sbc, bc);
    hide Opened;
    var all := done + [SuperblockPlain(words)];
    var last := |all| - 1;
    if row % BLOCK_ROWS == 0 {
      CloseBlock(full, 256, row, all, sbc, bc);
      assert all[last := all[last].SetBlockCounters(row / 256 % 8, bc)]
          == done + [SuperblockPlain(words).SetBlockCounters(row / BLOCK_ROWS % 8, bc)];
    } else {
      CloseNone(full, 256, row, all, sbc, bc);
    }
  }

  lemma OpenedShape(full: seq<int>, row: nat, all: seq<SuperblockPlain>, sbc: seq<nat>, bc: seq<nat>)
    requires row <= |full| && Opened(full, 256, row, row, all, sbc, bc)
    ensures |bc| == 4 && |sbc| == 4
  {}

  class LevelEncoder {
    var data: seq<DataLine>
    var superblocks: seq<SuperblockPlain>
    var select: seq<seq<nat>>
    var words: seq<Bits128>
    var lineRows: nat
    var nDatalines: nat
    var global: seq<nat>
    var block: seq<nat>
    var superblockWords: seq<nat>
    var nSuperblocks: nat
    var nSel: seq<nat>

    ghost function State(): Fields
      reads this
    {
      Fields(data, superblocks, select, words, lineRows, nDatalines, global, block, superblockWords, nSuperblocks, nSel)
    }

    /** The first `m` of the digits `full` have been written. */
    ghost predicate At(full: seq<int>, m: nat)
      reads this
    {
      FieldsAt(full, m, State())
    }

    constructor (ghost full: seq<int>)
      requires Bounded(full, 4) && |full| < MAX_LEN
      ensures At(full, 0)
    {
      data, superblocks, select := [], [], [[], [], [], []];
      words, lineRows, nDatalines := [Repeat(false), Repeat(false), Repeat(false), Repeat(false)], 0, 0;
      global, block, superblockWords := [0, 0, 0, 0], [0, 0, 0, 0], [0, 0, 0, 0];
      nSuperblocks, nSel := 1, [0, 0, 0, 0];
      new;
      StartState(full, State());
    }

    /** Superblock and block boundaries before the digit of `row`. */
    method Boundaries(ghost full: seq<int>, row: nat)
      requires At(full, row) && row < |full|
      modifies this`superblocks, this`superblockWords, this`block, this`nSuperblocks
      ensures |superblockWords| == |global| == |block| == 4 && nSuperblocks == |superblocks| + 1
      ensures Opened(full, 256, row, row + 1, superblocks + [SuperblockPlain(superblockWords)], global, block)
    {
      hide Opened, LinesAt, SelectAt, PassState, NewSuperblock;
      StartRow(full, row, State());
      if row > 0 && row % SUPERBLOCK_ROWS == 0 {
        FlushSuperblock();
        superblockWords := NewSuperblock(global).counters;
        block := [0, 0, 0, 0];
        nSuperblocks := nSuperblocks + 1;
      }
      StartBlock(full, row, superblocks, superblockWords, global, block);
      if row % BLOCK_ROWS == 0 {
        SetBlockCounters(row / BLOCK_ROWS % 8);
      }
    }

    method FlushSuperblock()
      modifies this`superblocks
      ensures superblocks == old(superblocks) + [SuperblockPlain(superblockWords)]
    {
      superblocks := superblocks + [SuperblockPlain(superblockWords)];
    }

    method FlushLine()
      modifies this`data, this`words, this`lineRows, this`nDatalines
      ensures data == old(data) + [DataLine(old(words))]
      ensures words == [Repeat(false), Repeat(false), Repeat(false), Repeat(false)] && lineRows == 0
      ensures nDatalines == old(nDatalines) + 1
    {
      data := data + [DataLine(words)];
      words := [Repeat(false), Repeat(false), Repeat(false), Repeat(false)];
      lineRows := 0;
      nDatalines := nDatalines + 1;
    }

    /** Or-s the block counts into their field; each count is below the width of its field. */
    method SetBlockCounters(blockId: nat)
      requires blockId < 8 && |superblockWords| == |block| == 4 && forall s :: 0 <= s < 4 ==> block[s] < FIELD
      modifies this`superblockWords
      ensures superblockWords == SuperblockPlain(old(superblockWords)).SetBlockCounters(blockId, block).counters
      ensures |superblockWords| == 4
    {
      if blockId == 0 {
        return;
      }
      var shift := blockId - 1;
      superblockWords := [BitOr(superblockWords[0], FieldShift(block[0], shift)), BitOr(superblockWords[1], FieldShift(block[1], shift)),
                          BitOr(superblockWords[2], FieldShift(block[2], shift)), BitOr(superblockWords[3], FieldShift(block[3], shift))];
    }

    /** The planes of a piece go into the open line. */
    method WriteLine(ghost full: seq<int>, ghost row: nat, take: nat, high: seq<bool>, low: seq<bool>)
      requires take > 0 && row % 64 + take <= 64 && row + take <= |full|
      requires LinesAt(full, row, data, words, lineRows) && nDatalines == |data|
      requires PlaneOf(full, row, take, true, high) && PlaneOf(full, row, take, false, low)
      modifies this`data, this`words, this`lineRows, this`nDatalines
      ensures LinesAt(full, row + take, data, words, lineRows) && nDatalines == |data|
    {
      WriteLines(full, row, take, data, words, lineRows, high, low);
      OpenLineRows(full, row, take, data, words, lineRows);
      hide LinesAt, LinesWritten, PlaneOf;
      var highWord := lineRows / 128;
      words := words[highWord := OrShifted(words[highWord], high, lineRows % 128)]
                    [highWord + 2 := OrShifted(words[highWord + 2], low, lineRows % 128)];
      lineRows := lineRows + take;
      if lineRows == BLOCK_ROWS {
        CloseFullLine(full, row, take, data, words);
        FlushLine();
      } else {
        KeepOpenLine(full, row, take, data, words);
      }
    }

    /** A piece of at most 64 rows that crosses no 64-row boundary. */
    method PushPiece(ghost full: seq<int>, piece: seq<nat>, row: nat)
      requires At(full, row) && 0 < |piece| <= PIECE_ROWS - row % PIECE_ROWS && row + |piece| <= |full|
      requires forall i :: 0 <= i < |piece| ==> piece[i] == full[row + i]
      modifies this
      ensures At(full, row + |piece|)
    {
      hide LinesAt, SelectAt, SupportAt, Opened, PassState;
      Boundaries(full, row);
      var high, low := Transpose(full, row, piece);
      var counts := CountPiece(full, row, |piece|, high, low);
      ghost var sbc, bc := global, block;
      OpenedCounts(full, 256, row, superblocks + [SuperblockPlain(superblockWords)], sbc, bc);
      CountSymbols(full, row, |piece|, counts);
      PieceSupport(full, row, |piece|, superblocks + [SuperblockPlain(superblockWords)], sbc, bc, global, block);
      WriteLine(full, row, |piece|, high, low);
      SupportNow(full, row + |piece|, superblocks, superblockWords, global, block, nSuperblocks);
    }

    /** Samples and counters of a piece, symbol by symbol. */
    method CountSymbols(ghost full: seq<int>, row: nat, ghost take: nat, counts: seq<nat>)
      requires |full| < MAX_LEN && 0 < take && row % PIECE_ROWS + take <= PIECE_ROWS && row + take <= |full|
      requires |global| == |block| == |counts| == 4 && SelectAt(full, row, select, nSel)
      requires forall s: nat :: s < 4 ==> global[s] == Rank(full, s, row)
      requires forall s: nat :: s < 4 ==> Rank(full, s, row) <= Rank(full, s, row + take) && counts[s] == Rank(full, s, row + take) - Rank(full, s, row)
      modifies this`select, this`nSel, this`global, this`block
      ensures |global| == |block| == 4 && CountedTo(full, row, take, old(global), old(block), global, block)
      ensures SelectAt(full, row + take, select, nSel)
    {
      hide Rank, SamplesUpTo, SymbolAtRow;
      assert forall s: nat :: s < 4 ==> SymbolAtRow(full, row, s, global[s], block[s], block[s], select[s], nSel[s]) by {
        CountsBefore(full, row, global, block, select, nSel);
      }
      var symbol := 0;
      while symbol < 4
        invariant 0 <= symbol <= 4 && |global| == |block| == |select| == |nSel| == 4
        invariant forall s: nat :: s < symbol ==>
          SymbolAtRow(full, row + take, s, global[s], block[s], old(block)[s] + counts[s], select[s], nSel[s])
        invariant forall s: nat :: symbol <= s < 4 ==>
          SymbolAtRow(full, row, s, global[s], block[s], old(block)[s], select[s], nSel[s])
      {
        var g, c, x, k := CountPieceSymbol(full, row, take, symbol, counts[symbol], global[symbol], block[symbol], select[symbol], nSel[symbol], old(block)[symbol]);
        global := global[symbol := g];
        block := block[symbol := c];
        select := select[symbol := x];
        nSel := nSel[symbol := k];
        symbol := symbol + 1;
      }
      CountsAfter(full, row, take, counts, old(global), old(block), global, block, select, nSel);
    }

    /** Any number of digits, cut at the 64-row boundaries. */
    method PushBlock(ghost full: seq<int>, digits: seq<nat>, startRow: nat)
      requires At(full, startRow) && startRow + |digits| <= |full|
      requires forall i :: 0 <= i < |digits| ==> digits[i] == full[startRow + i]
      modifies this
      ensures At(full, startRow + |digits|)
    {
      hide FieldsAt;
      var row, rest := startRow, digits;
      while |rest| > 0
        invariant row + |rest| == startRow + |digits| && At(full, row)
        invariant forall i :: 0 <= i < |rest| ==> rest[i] == full[row + i]
        decreases |rest|
      {
        var take := if |rest| <= PIECE_ROWS - row % PIECE_ROWS then |rest| else PIECE_ROWS - row % PIECE_ROWS;
        PushPiece(full, rest[..take], row);
        row := row + take;
        rest := rest[take..];
      }
    }

    /** One digit: the scalar form. */
    method Push(ghost full: seq<int>, digit: nat, row: nat)
      requires At(full, row) && row < |full| && digit == full[row]
      modifies this
      ensures At(full, row + 1)
    {
      hide LinesAt, SelectAt, SupportAt, Opened, PassState;
      DigitRange(full, row);
      Boundaries(full, row);
      ghost var sbc, bc := global, block;
      OpenedCounts(full, 256, row, superblocks + [SuperblockPlain(superblockWords)], sbc, bc);
      SampleOne(full, row, digit);
      global := global[digit := global[digit] + 1];
      block := block[digit := block[digit] + 1];
      OneCounted(full, row, sbc, bc, global, block);
      PieceSupport(full, row, 1, superblocks + [SuperblockPlain(superblockWords)], sbc, bc, global, block);
      WriteDigit(full, row, digit);
      SupportNow(full, row + 1, superblocks, superblockWords, global, block, nSuperblocks);
    }

    method SampleOne(ghost full: seq<int>, row: nat, digit: nat)
      requires row < |full| && digit == full[row] && digit < 4 && |global| == 4 && SelectAt(full, row, select, nSel)
      requires forall s: nat :: s < 4 ==> global[s] == Rank(full, s, row)
      modifies this`select, this`nSel
      ensures SelectAt(full, row + 1, select, nSel)
    {
      hide Rank;
      SampleNext(full, 256, row, select, digit);
      if global[digit] % SELECT_NUM_SAMPLES == 0 {
        select := select[digit := select[digit] + [row / SUPERBLOCK_ROWS]];
        nSel := nSel[digit := nSel[digit] + 1];
      }
    }

    method WriteDigit(ghost full: seq<int>, ghost row: nat, digit: nat)
      requires row < |full| && digit == full[row] && digit < 4
      requires LinesAt(full, row, data, words, lineRows) && nDatalines == |data|
      modifies this`data, this`words, this`lineRows, this`nDatalines
      ensures LinesAt(full, row + 1, data, words, lineRows) && nDatalines == |data|
    {
      DigitPlanes(full, row);
      hide *;
      WriteLines(full, row, 1, data, words, lineRows, OnePlane(digit / 2 == 1), OnePlane(digit % 2 == 1));
      OpenLineRows(full, row, 1, data, words, lineRows);
      var linePos := lineRows;
      words := DigitWords(words, digit, linePos);
      lineRows := lineRows + 1;
      if lineRows == BLOCK_ROWS {
        CloseFullLine(full, row, 1, data, words);
        FlushLine();
      } else {
        KeepOpenLine(full, row, 1, data, words);
      }
    }

    /** Closes the last superblock; with no rows at all the first superblock is written twice. */
    method CloseSuperblocks(ghost full: seq<int>, rows: nat)
      requires At(full, rows) && rows == |full|
      modifies this`superblocks, this`superblockWords, this`block, this`nSuperblocks
      ensures nSuperblocks == |superblocks| > 0
      ensures rows > 0 ==> IsFinalSuperblocks(full, 256, superblocks)
      ensures rows == 0 ==> superblocks == [SuperblockPlain([0, 0, 0, 0]), SuperblockPlain([0, 0, 0, 0])]
    {
      hide Opened, LinesAt, SelectAt, PassState, NewSuperblock, IsFinalSuperblocks;
      ghost var f := State();
      StartRow(full, rows, f);
      ZeroSuperblock();
      if rows % SUPERBLOCK_ROWS == 0 {
        FlushSuperblock();
        superblockWords := NewSuperblock(global).counters;
        block := [0, 0, 0, 0];
        nSuperblocks := nSuperblocks + 1;
        if rows > 0 {
          StartBlock(full, rows, superblocks, superblockWords, global, block);
        }
      } else {
        StartBlock(full, rows, superblocks, superblockWords, global, block);
        if rows % BLOCK_ROWS == 0 {
          SetBlockCounters(rows / BLOCK_ROWS % 8);
        }
      }
      ghost var done, was := superblocks, superblockWords;
      if rows > 0 {
        Advance(full, 256, rows, done + [SuperblockPlain(was)], global, block, global, block);
        EndOpen(full, done, was, global, block);
      }
      var nextBlock := rows / BLOCK_ROWS % 8 + 1;
      if nextBlock < 8 {
        SetBlockCounters(nextBlock);
      }
      FlushSuperblock();
      if rows == 0 {
        ZeroFields(block);
      }
    }

    /** The sample list of an absent symbol gets a filler; every list ends with the last superblock. */
    method CloseSamples(ghost full: seq<int>)
      requires SelectAt(full, |full|, select, nSel) && nSuperblocks > 0
      modifies this`select, this`nSel
      ensures |select| == |nSel| == 4 && forall s :: 0 <= s < 4 ==> nSel[s] == |select[s]|
      ensures forall s: nat :: s < 4 ==> select[s] == ClosedSamples(full, s, nSuperblocks - 1)
    {
      hide SamplesUpTo;
      var symbol := 0;
      while symbol < 4
        invariant 0 <= symbol <= 4 && |select| == |nSel| == 4 && forall s :: 0 <= s < 4 ==> nSel[s] == |select[s]|
        invariant forall s: nat :: s < symbol ==> select[s] == ClosedSamples(full, s, nSuperblocks - 1)
        invariant forall s: nat :: symbol <= s < 4 ==> select[s] == SamplesUpTo(full, 256, s, |full|)
      {
        if nSel[symbol] == 0 {
          select := select[symbol := select[symbol] + [0]];
          nSel := nSel[symbol := nSel[symbol] + 1];
        }
        var sentinel := nSuperblocks - 1;
        select := select[symbol := select[symbol] + [sentinel]];
        nSel := nSel[symbol := nSel[symbol] + 1];
        symbol := symbol + 1;
      }
    }

    /** Closes the files and reports what the directory entry needs. */
    method Finish(ghost full: seq<int>, rows: nat) returns (summary: LevelSummary)
      requires At(full, rows) && rows == |full|
      modifies this
      ensures data == LinesOf(full)
      ensures IsFinalSuperblocks(full, 256, superblocks) <==> rows > 0
      ensures rows > 0 ==> IsFinalSamples(full, 256, select)
      ensures rows == 0 ==> superblocks == [SuperblockPlain([0, 0, 0, 0]), SuperblockPlain([0, 0, 0, 0])]
      ensures rows == 0 ==> select == [[0, 1], [0, 1], [0, 1], [0, 1]]
      ensures summary.positionBits == 2 * rows && summary.nDatalines == |data| && summary.nSuperblocks == |superblocks|
      ensures |select| == 4 && summary.nSel == [|select[0]|, |select[1]|, |select[2]|, |select[3]|]
      ensures |summary.nOccsSmaller| == 5 && forall d: nat :: d <= 4 ==> summary.nOccsSmaller[d] == OccsBelow(full, d)
      ensures summary.auxBytes == AuxBytes(|data|, |superblocks|, select)
    {
      hide LinesAt, SelectAt, SupportAt, IsFinalSuperblocks, IsFinalSamples, SamplesUpTo, OccsBelow;
      LastLine(full, data, words, lineRows);
      TotalsKnown(full, State());
      CloseSuperblocks(full, rows);
      if lineRows != 0 {
        FlushLine();
      }
      CloseSamples(full);
      SamplesClosed(full, select, nSuperblocks);
      SuperblocksClosed(full, superblocks);
      var cumulative := Cumulative(full, global);
      summary := LevelSummary(nDatalines, rows * 2, nSuperblocks, nSel, cumulative, AuxBytes(|data|, |superblocks|, select));
    }
  }

  /** What a finished level reports. */
  datatype LevelSummary = LevelSummary(nDatalines: nat, positionBits: nat, nSuperblocks: nat, nSel: seq<nat>, nOccsSmaller: seq<nat>, auxBytes: nat)

  /** Bytes of the data, superblock and sample files. */
  function AuxBytes(lines: nat, superblocks: nat, select: seq<seq<nat>>): nat
    requires |select| == 4
  {
    lines * 64 + superblocks * 64 + (|select[0]| + |select[1]| + |select[2]| + |select[3]|) * 4
  }

  ghost function ClosedSamples(full: seq<int>, s: nat, last: nat): seq<nat> {
    var samples := SamplesUpTo(full, 256, s, |full|);
    (if samples == [] then [0] else samples) + [last]
  }

  lemma SamplesClosed(full: seq<int>, select: seq<seq<nat>>, nSuperblocks: nat)
    requires nSuperblocks > 0 && |select| == 4 && forall s: nat :: s < 4 ==> select[s] == ClosedSamples(full, s, nSuperblocks - 1)
    ensures nSuperblocks == |full| / 2048 + 1 ==> IsFinalSamples(full, 256, select)
    ensures |full| == 0 && nSuperblocks == 2 ==> select == [[0, 1], [0, 1], [0, 1], [0, 1]]
  {
    if |full| == 0 && nSuperblocks == 2 {
      assert select[0] == [0, 1] && select[1] == [0, 1] && select[2] == [0, 1] && select[3] == [0, 1];
      assert select == [select[0], select[1], select[2], select[3]];
    }
  }

  lemma SuperblocksClosed(full: seq<int>, superblocks: seq<SuperblockPlain>)
    requires |full| > 0 ==> IsFinalSuperblocks(full, 256, superblocks)
    requires |full| == 0 ==> |superblocks| == 2
    ensures IsFinalSuperblocks(full, 256, superblocks) <==> |full| > 0
    ensures |full| > 0 ==> |superblocks| == |full| / 2048 + 1
  {}

  lemma ZeroFields(block: seq<nat>)
    requires block == [0, 0, 0, 0]
    ensures SuperblockPlain([0, 0, 0, 0]).SetBlockCounters(1, block).counters == [0, 0, 0, 0]
  {
    assert FieldShift(0, 0) == 0;
    assert BitOr(0, 0) == 0;
  }

  /** The sentinel completes the last superblock. */
  lemma EndOpen(full: seq<int>, done: seq<SuperblockPlain>, words: seq<nat>, sbc: seq<nat>, bc: seq<nat>)
    requires |words| == 4 && PassState(full, 256, |full| + 1, done + [SuperblockPlain(words)], sbc, bc)
    ensures |bc| == 4 && (|full| / 256 % 8 + 1 < 8 ==> forall s :: 0 <= s < 4 ==> bc[s] < FIELD)
    ensures |full| / 256 % 8 + 1 < 8 ==>
      IsFinalSuperblocks(full, 256, done + [SuperblockPlain(SuperblockPlain(words).SetBlockCounters(|full| / 256 % 8 + 1, bc).counters)])
    ensures |full| / 256 % 8 + 1 >= 8 ==> IsFinalSuperblocks(full, 256, done + [SuperblockPlain(words)])
  {
    FinishOpen(full, 256, done + [SuperblockPlain(words)], sbc, bc);
    hide PassState, IsFinalSuperblocks;
    var all := done + [SuperblockPlain(words)];
    var last := |all| - 1;
    if |full| / 256 % 8 + 1 < 8 {
      assert all[last := all[last].SetBlockCounters(|full| / 256 % 8 + 1, bc)]
          == done + [SuperblockPlain(words).SetBlockCounters(|full| / 256 % 8 + 1, bc)];
    }
  }

  lemma TotalsKnown(full: seq<int>, f: Fields)
    requires FieldsAt(full, |full|, f)
    ensures |f.global| == 4 && forall s: nat :: s < 4 ==> f.global[s] == Occs(full, s)
  {
    hide LinesAt, SelectAt, AllPartial;
  }

  /** Running totals of the four counts. */
  method Cumulative(ghost full: seq<int>, global: seq<nat>) returns (cumulative: seq<nat>)
    requires |global| == 4 && forall s: nat :: s < 4 ==> global[s] == Occs(full, s)
    ensures |cumulative| == 5 && forall d: nat :: d <= 4 ==> cumulative[d] == OccsBelow(full, d)
  {
    hide Rank;
    cumulative := [0, 0, 0, 0, 0];
    var symbol := 0;
    while symbol < 4
      invariant 0 <= symbol <= 4 && |cumulative| == 5
      invariant forall d: nat :: d <= symbol ==> cumulative[d] == OccsBelow(full, d)
    {
      cumulative := cumulative[symbol + 1 := cumulative[symbol] + global[symbol]];
      symbol := symbol + 1;
    }
  }

  lemma StartState(full: seq<int>, f: Fields)
    requires Bounded(full, 4) && |full| < MAX_LEN
    requires f == Fields([], [], [[], [], [], []], [Repeat(false), Repeat(false), Repeat(false), Repeat(false)], 0, 0,
                         [0, 0, 0, 0], [0, 0, 0, 0], [0, 0, 0, 0], 1, [0, 0, 0, 0])
    ensures FieldsAt(full, 0, f)
  {
    forall h | 0 <= h < 4
      ensures f.words[h] == LineWord(full, 0, 0, h)
    {
      EmptyLine(full, 0, h);
    }
  }

  lemma OpenLineRows(full: seq<int>, row: nat, take: nat, data: seq<DataLine>, words: seq<Bits128>, lineRows: nat)
    requires take > 0 && row % 64 + take <= 64 && row + take <= |full| && LinesAt(full, row, data, words, lineRows)
    ensures |words| == 4 && lineRows == row % 256 < 256 && lineRows + take <= 256
  {}

  lemma SupportNow(full: seq<int>, m: nat, superblocks: seq<SuperblockPlain>, superblockWords: seq<nat>,
                   global: seq<nat>, block: seq<nat>, nSuperblocks: nat)
    requires 0 < m <= |full| && |superblockWords| == |global| == |block| == 4 && nSuperblocks == |superblocks| + 1
    requires PassState(full, 256, m, superblocks + [SuperblockPlain(superblockWords)], global, block)
    ensures SupportAt(full, m, superblocks, superblockWords, global, block, nSuperblocks)
  {}

  lemma DigitRange(full: seq<int>, row: nat)
    requires Bounded(full, 4) && row < |full|
    ensures 0 <= full[row] < 4
  {}

  lemma DigitPlanes(full: seq<int>, row: nat)
    requires row < |full| && 0 <= full[row] < 4
    ensures PlaneOf(full, row, 1, true, OnePlane(full[row] / 2 == 1)) && PlaneOf(full, row, 1, false, OnePlane(full[row] % 2 == 1))
  {}

  lemma OneCounted(full: seq<int>, row: nat, sbc: seq<nat>, bc: seq<nat>, sbc': seq<nat>, bc': seq<nat>)
    requires row < |full| && |sbc| == |bc| == 4 && 0 <= full[row] < 4
    requires sbc' == sbc[full[row] := sbc[full[row]] + 1] && bc' == bc[full[row] := bc[full[row]] + 1]
    ensures CountedTo(full, row, 1, sbc, bc, sbc', bc')
  {}

  ghost function OnePlane(b: bool): (r: seq<bool>)
    ensures |r| == 64 && forall i :: 0 <= i < 64 ==> (r[i] <==> i == 0 && b)
  {
    seq(64, i => i == 0 && b)
  }

  /** The two bits of a digit, at position `linePos` of the open line. */
  method DigitWords(words: seq<Bits128>, digit: nat, linePos: nat) returns (r: seq<Bits128>)
    requires |words| == 4 && digit < 4 && linePos < 256
    ensures var highWord := linePos / 128;
      r == words[highWord := OrShifted(words[highWord], OnePlane(digit / 2 == 1), linePos % 128)]
                [highWord + 2 := OrShifted(words[highWord + 2], OnePlane(digit % 2 == 1), linePos % 128)]
  {
    hide *;
    var highWord, shift := linePos / 128, linePos % 128;
    var lowWord := highWord + 2;
    OneBit(words[highWord], digit / 2 == 1, shift);
    OneBit(words[lowWord], digit % 2 == 1, shift);
    r := words[highWord := OrBit(words[highWord], shift, digit / 2 == 1)]
              [lowWord := OrBit(words[lowWord], shift, digit % 2 == 1)];
  }

  lemma OneBit(word: Bits128, b: bool, shift: nat)
    requires shift < 128
    ensures OrBit(word, shift, b) == OrShifted(word, OnePlane(b), shift)
  {}
}
