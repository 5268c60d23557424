/**
 The next occurrences of a symbol after a position, by scanning the packed lines
 in between. Padding in the last line looks like symbol 0 and is told apart only
 by the length of the level.
 */
module SelectAfters {
  import opened Wrappers
  import opened RankSelect
  import opened StablePartition
  import opened Bits
  import opened QuadVector
  import opened IntraBlock

  /** All positions of the data lines, padding included. */
  ghost function Padded(qv: QVector): (r: seq<int>)
    requires qv.Valid()
    ensures |r| == 256 * |qv.data| && qv.Len() <= |r|
    ensures forall i :: 0 <= i < qv.Len() ==> r[i] == qv.Contents()[i]
  {
    QVector(qv.data, 512 * |qv.data|).Contents()
  }

  /** Marks from offset `lo` on count the occurrences from there. */
  lemma HalfCounts(full: seq<int>, symbol: int, from: nat, w: Bits128, lo: nat, m: Bits128, i: nat)
    requires Marks(full, symbol, from, w) && from + 128 <= |full| && lo <= i <= 128 && m == And(w, HighMask(lo))
    ensures Rank(full, symbol, from + lo) <= Rank(full, symbol, from + i)
    ensures Rank(m, true, i) == Rank(full, symbol, from + i) - Rank(full, symbol, from + lo)
  {
    RankMonotone(full, symbol, from + lo, from + i);
    MarksRank(full, w, from, symbol, i);
    MarksRank(full, w, from, symbol, lo);
    CountFrom(w, HighMask(lo), lo, i);
  }

  /** A mark number `k` of the half is that many occurrences after `lo`. */
  lemma HalfSelected(full: seq<int>, symbol: int, from: nat, w: Bits128, lo: nat, m: Bits128, k: nat, p: nat)
    requires Marks(full, symbol, from, w) && from + 128 <= |full| && lo <= 128 && m == And(w, HighMask(lo))
    requires IsSelect(m, true, k, p)
    ensures lo <= p < 128 && IsSelect(full, symbol, Rank(full, symbol, from + lo) + k, from + p)
  {
    assert p >= lo;
    HalfCounts(full, symbol, from, w, lo, m, p);
  }

  /** What a scan of positions `[from + lo, from + width)` for occurrence number `advance` finds. */
  ghost predicate Scanned(full: seq<int>, symbol: int, start: nat, end: nat, advance: nat, found: bool, result: nat)
    requires advance > 0
  {
    && start <= end <= |full|
    && if found then start <= result < end && IsSelect(full, symbol, Rank(full, symbol, start) + (advance - 1), result)
       else result < advance && Rank(full, symbol, end) == Rank(full, symbol, start) + result
  }

  /** One half of a line, by counting its marks. */
  method NthOfHalf(ghost full: seq<int>, symbol: nat, from: nat, ghost w: Bits128, ghost lo: nat, m: Bits128, advance: nat)
    returns (found: bool, result: nat)
    requires Marks(full, symbol, from, w) && from + 128 <= |full| && lo <= 128 && m == And(w, HighMask(lo)) && advance > 0
    ensures Scanned(full, symbol, from + lo, from + 128, advance, found, result)
  {
    HalfCounts(full, symbol, from, w, lo, m, 128);
    var count := CountOnes(m);
    if advance <= count {
      var selected := SelectInWord128(m, advance - 1);
      HalfSelected(full, symbol, from, w, lo, m, advance - 1, selected);
      return true, from + selected;
    }
    return false, count;
  }

  /** One half of a line when the very next occurrence is wanted: its lowest mark. */
  method FirstOfHalf(ghost full: seq<int>, symbol: nat, from: nat, ghost w: Bits128, ghost lo: nat, m: Bits128)
    returns (found: bool, result: nat)
    requires Marks(full, symbol, from, w) && from + 128 <= |full| && lo <= 128 && m == And(w, HighMask(lo))
    ensures Scanned(full, symbol, from + lo, from + 128, 1, found, result)
  {
    HalfCounts(full, symbol, from, w, lo, m, 128);
    ZeroWord(m, 128);
    if m != Repeat(false) {
      var selected := TrailingZeros(m);
      HalfSelected(full, symbol, from, w, lo, m, 0, selected);
      return true, from + selected;
    }
    return false, 0;
  }

  /** The two halves of the rest of a line. */
  method ScanLine(qv: QVector, symbol: nat, lineIndex: nat, offset: nat, advance: nat) returns (found: bool, result: nat)
    requires qv.Valid() && symbol < 4 && lineIndex < |qv.data| && offset < 256 && advance > 0
    ensures Scanned(Padded(qv), symbol, 256 * lineIndex + offset, 256 * lineIndex + 256, advance, found, result)
  {
    hide *;
    ghost var full := Padded(qv);
    LineMarks(qv, symbol, lineIndex);
    var halves := Normalize(qv.data[lineIndex], symbol);
    var low, high := halves.0, halves.1;
    ghost var loLow, loHigh := if offset < 128 then offset else 128, if offset < 128 then 0 else offset - 128;
    if offset < 128 {
      low := And(low, HighMask(offset));
      assert And(high, HighMask(0)) == high;
    } else {
      low := Repeat(false);
      assert And(halves.0, HighMask(128)) == low;
      high := And(high, HighMask(offset - 128));
    }
    if advance == 1 {
      found, result := FirstOfHalf(full, symbol, lineIndex * 256, halves.0, loLow, low);
      InFirstHalf(full, symbol, lineIndex * 256, offset, loLow, advance, found, result);
      if found {
        return;
      }
      ghost var lowCount := result;
      found, result := FirstOfHalf(full, symbol, lineIndex * 256 + 128, halves.1, loHigh, high);
      InBothHalves(full, symbol, lineIndex * 256, offset, advance, lowCount, found, result);
    } else {
      found, result := NthOfHalf(full, symbol, lineIndex * 256, halves.0, loLow, low, advance);
      InFirstHalf(full, symbol, lineIndex * 256, offset, loLow, advance, found, result);
      if found {
        return;
      }
      var lowCount := result;
      found, result := NthOfHalf(full, symbol, lineIndex * 256 + 128, halves.1, loHigh, high, advance - lowCount);
      InBothHalves(full, symbol, lineIndex * 256, offset, advance, lowCount, found, result);
      if !found {
        result := result + lowCount;
      }
    }
  }

  /** The scan of the first half; beyond it there is nothing to find. */
  lemma InFirstHalf(full: seq<int>, symbol: int, from: nat, offset: nat, lo: nat, advance: nat, found: bool, result: nat)
    requires offset < 256 && from + 256 <= |full| && lo == (if offset < 128 then offset else 128) && advance > 0
    requires Scanned(full, symbol, from + lo, from + 128, advance, found, result)
    ensures found ==> Scanned(full, symbol, from + offset, from + 256, advance, true, result)
    ensures !found ==> result < advance && (offset >= 128 ==> result == 0)
    ensures !found && offset < 128 ==> Rank(full, symbol, from + 128) == Rank(full, symbol, from + offset) + result
  {
    hide Rank;
  }

  lemma InBothHalves(full: seq<int>, symbol: int, from: nat, offset: nat, advance: nat, lowCount: nat, found: bool, result: nat)
    requires offset < 256 && from + 256 <= |full| && lowCount < advance
    requires if offset < 128 then Rank(full, symbol, from + 128) == Rank(full, symbol, from + offset) + lowCount else lowCount == 0
    requires Scanned(full, symbol, from + 128 + (if offset < 128 then 0 else offset - 128), from + 256, advance - lowCount, found, result)
    ensures if found then Scanned(full, symbol, from + offset, from + 256, advance, true, result)
            else Scanned(full, symbol, from + offset, from + 256, advance, false, result + lowCount)
  {
    hide Rank;
  }

  lemma LineMarks(qv: QVector, symbol: nat, lineIndex: nat)
    requires qv.Valid() && symbol < 4 && lineIndex < |qv.data|
    ensures ValidLine(qv.data[lineIndex])
    ensures Marks(Padded(qv), symbol, 256 * lineIndex, Normalize(qv.data[lineIndex], symbol).0)
    ensures Marks(Padded(qv), symbol, 256 * lineIndex + 128, Normalize(qv.data[lineIndex], symbol).1)
  {
    MarksLine(QVector(qv.data, 512 * |qv.data|), symbol, lineIndex);
  }

  /** An occurrence among the padded positions is one of the level when it lies below the length. */
  lemma InLevel(qv: QVector, symbol: int, k: nat, p: nat)
    requires qv.Valid() && IsSelect(Padded(qv), symbol, k, p)
    ensures p < qv.Len() ==> IsSelect(qv.Contents(), symbol, k, p)
    ensures p >= qv.Len() ==> Occs(qv.Contents(), symbol) <= k
  {
    if p < qv.Len() {
      RankPrefix(Padded(qv), qv.Contents(), symbol, p);
    } else {
      RankPrefix(Padded(qv), qv.Contents(), symbol, qv.Len());
      RankMonotone(Padded(qv), symbol, qv.Len(), p);
    }
  }

  lemma PastLevel(qv: QVector, symbol: int, k: nat, next: nat)
    requires qv.Valid() && qv.Len() <= next <= |Padded(qv)| && Rank(Padded(qv), symbol, next) <= k
    ensures Occs(qv.Contents(), symbol) <= k
  {
    RankPrefix(Padded(qv), qv.Contents(), symbol, qv.Len());
    RankMonotone(Padded(qv), symbol, qv.Len(), next);
  }

  /** The occurrence that is `advance` occurrences after `position`. */
  method SelectAfter(qv: QVector, symbol: nat, position: nat, advance: nat) returns (r: Option<nat>)
    requires qv.Valid()
    ensures symbol > 3 || position >= qv.Len() || advance == 0 ==> r == None
    ensures symbol <= 3 && position < qv.Len() && advance > 0 ==>
      SelectSpec(qv.Contents(), symbol, Rank(qv.Contents(), symbol, position + 1) + (advance - 1), r)
  {
    hide Rank, IsSelect, QVector.Contents;
    if symbol > 3 || position >= qv.Len() || advance == 0 {
      return None;
    }
    ghost var full := Padded(qv);
    ghost var k := Rank(full, symbol, position + 1) + (advance - 1);
    RankPrefix(full, qv.Contents(), symbol, position + 1);
    var rest: nat, next: nat := advance, position + 1;
    while next < qv.Len()
      invariant next <= |full| && rest > 0
      invariant Rank(full, symbol, next) + (rest - 1) == k
    {
      var lineIndex, offset := next / 256, next % 256;
      var found, result := ScanLine(qv, symbol, lineIndex, offset, rest);
      if found {
        InLevel(qv, symbol, k, result);
        return if result < qv.Len() then Some(result) else None;
      }
      rest := rest - result;
      next := (lineIndex + 1) * 256;
    }
    PastLevel(qv, symbol, k, next);
    return None;
  }

  /** From an occurrence, `select_after` is `select` that many occurrences further on. */
  lemma AfterOccurrence(q: seq<int>, symbol: int, position: nat, advance: nat, r: Option<nat>)
    requires position < |q| && q[position] == symbol && advance > 0
    requires SelectSpec(q, symbol, Rank(q, symbol, position + 1) + (advance - 1), r)
    ensures SelectSpec(q, symbol, Rank(q, symbol, position) + advance, r)
    ensures r.Some? ==> r.value > position
  {
    if r.Some? {
      SelectBracket(q, symbol, Rank(q, symbol, position) + advance, r.value, position + 1);
    }
  }
}
