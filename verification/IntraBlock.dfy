/** Rank and select inside one block of 256 or 512 symbols, read from its data lines. */
module IntraBlock {
  import opened RankSelect
  import opened Arithmetic
  import opened CraftCodes
  import opened Bits
  import opened QuadVector
  import opened RankSupport

  /** Rank between the start of a line and an offset in it; a missing line counts nothing. */
  method RankOfLine(qv: QVector, symbol: nat, line: nat, offset: nat) returns (r: nat)
    requires qv.Valid() && symbol < 4 && offset <= 256 && 256 * line + offset <= qv.Len()
    ensures r == Rank(qv.Contents(), symbol, 256 * line + offset) - Rank(qv.Contents(), symbol, 256 * line)
  {
    if line < |qv.data| {
      qv.LineRank(line, offset, symbol);
      r := RankInLine(qv.data[line], symbol, offset);
    } else {
      r := 0;
    }
  }

  method RankAllOfLine(qv: QVector, line: nat, offset: nat) returns (r: seq<nat>)
    requires qv.Valid() && offset <= 256 && 256 * line + offset <= qv.Len()
    ensures |r| == 4
    ensures forall s: nat :: s < 4 ==>
      r[s] == Rank(qv.Contents(), s, 256 * line + offset) - Rank(qv.Contents(), s, 256 * line)
  {
    if line < |qv.data| {
      forall s: nat | s < 4
        ensures Rank(Symbols(qv.data[line]), s, offset)
             == Rank(qv.Contents(), s, 256 * line + offset) - Rank(qv.Contents(), s, 256 * line)
      {
        qv.LineRank(line, offset, s);
      }
      r := RankAllInLine(qv.data[line], offset);
    } else {
      r := [0, 0, 0, 0];
    }
  }

  /** Occurrences of `symbol` between the start of the block that holds `i` and `i`. */
  method RankIntraBlock(qv: QVector, b: nat, symbol: nat, i: nat) returns (rank: nat)
    requires qv.Valid() && BlockSize(b) && symbol < 4 && i <= qv.Len()
    ensures i / b * b <= i
    ensures rank == Rank(qv.Contents(), symbol, i) - Rank(qv.Contents(), symbol, i / b * b)
  {
    hide Rank;
    if b == 256 {
      rank := RankOfLine(qv, symbol, i / 256, i % 256);
    } else {
      var blockId, offsetInBlock := i / 512, i % 512;
      var offsetInFirst := if offsetInBlock <= 256 then offsetInBlock else 256;
      rank := RankOfLine(qv, symbol, blockId * 2, offsetInFirst);
      if offsetInBlock > 256 {
        var second := RankOfLine(qv, symbol, blockId * 2 + 1, offsetInBlock - 256);
        rank := rank + second;
      }
    }
  }

  /** The same for all four symbols, loading each line once. */
  method RankIntraBlockAll(qv: QVector, b: nat, i: nat) returns (ranks: seq<nat>)
    requires qv.Valid() && BlockSize(b) && i <= qv.Len()
    ensures i / b * b <= i && |ranks| == 4
    ensures forall s: nat :: s < 4 ==>
      ranks[s] == Rank(qv.Contents(), s, i) - Rank(qv.Contents(), s, i / b * b)
  {
    hide Rank;
    if b == 256 {
      ranks := RankAllOfLine(qv, i / 256, i % 256);
    } else {
      var blockId, offsetInBlock := i / 512, i % 512;
      var offsetInFirst := if offsetInBlock <= 256 then offsetInBlock else 256;
      ranks := RankAllOfLine(qv, blockId * 2, offsetInFirst);
      if offsetInBlock > 256 {
        var second := RankAllOfLine(qv, blockId * 2 + 1, offsetInBlock - 256);
        ranks := [ranks[0] + second[0], ranks[1] + second[1], ranks[2] + second[2], ranks[3] + second[3]];
      }
    }
  }

  /** Offset, inside the block that starts at `pos`, of its `i`-th occurrence (counted from 1). */
  method SelectIntraBlock(qv: QVector, b: nat, symbol: nat, i: nat, pos: nat, ghost p: nat) returns (result: nat)
    requires qv.Valid() && BlockSize(b) && symbol < 4 && i > 0
    requires p < qv.Len() && qv.Contents()[p] == symbol && pos == p / b * b <= p
    requires Rank(qv.Contents(), symbol, p) == Rank(qv.Contents(), symbol, pos) + (i - 1)
    ensures pos + result == p
  {
    hide Rank, Normalize, Marks, CountOnes;
    ghost var c := qv.Contents();
    BlockLines(b, p);
    var lineId := pos / 256;
    result := 0;
    var rest: nat := i - 1;
    var lines := if b == 256 then 1 else 2;
    var j := 0;
    while j < lines
      invariant 0 <= j <= lines && result == 256 * j
      invariant pos + result <= p
      invariant Rank(c, symbol, pos + result) + rest == Rank(c, symbol, p)
    {
      LineHolds(qv, lineId + j, p);
      MarksLine(qv, symbol, lineId + j);
      var found, offset := SelectInLine(qv.data[lineId + j], symbol, rest, c, pos + result, p);
      if found {
        return result + offset;
      }
      rest := rest - offset;
      result := result + 256;
      j := j + 1;
    }
    // never reached: the occurrence lies in one of the lines
  }

  /**
   Looks for mark number `rest` in the two words of a line. Returns its offset, or
   else the number of marks passed over.
   */
  method SelectInLine(line: DataLine, symbol: nat, rest: nat, ghost c: seq<int>, ghost from: nat, ghost p: nat)
    returns (found: bool, offset: nat)
    requires ValidLine(line) && symbol < 4
    requires Marks(c, symbol, from, Normalize(line, symbol).0) && Marks(c, symbol, from + 128, Normalize(line, symbol).1)
    requires from <= p < |c| && c[p] == symbol && Rank(c, symbol, from) + rest == Rank(c, symbol, p)
    ensures found <==> p < from + 256
    ensures found ==> from + offset == p
    ensures !found ==> offset <= rest && Rank(c, symbol, from + 256) == Rank(c, symbol, from) + offset
  {
    hide Rank, Normalize, Marks, CountOnes, IsSelect;
    var words := Normalize(line, symbol);
    HalfSelect(c, symbol, from, words.0, rest, p);
    var cnt0 := CountOnes(words.0);
    if cnt0 > rest {
      var q := SelectInWord128(words.0, rest);
      HalfFound(c, symbol, from, words.0, rest, p, q);
      return true, q;
    }
    HalfSelect(c, symbol, from + 128, words.1, rest - cnt0, p);
    var cnt1 := CountOnes(words.1);
    if cnt1 > rest - cnt0 {
      var q := SelectInWord128(words.1, rest - cnt0);
      HalfFound(c, symbol, from + 128, words.1, rest - cnt0, p, q);
      return true, 128 + q;
    }
    return false, cnt0 + cnt1;
  }

  lemma BlockLines(b: nat, p: nat)
    requires BlockSize(b)
    ensures p / b * b == p / b * b / 256 * 256
    ensures p < p / b * b + b
  {}

  lemma LineHolds(qv: QVector, line: nat, p: nat)
    requires qv.Valid() && p < qv.Len() && 256 * line <= p
    ensures line < |qv.data| && ValidLine(qv.data[line])
  {}

  lemma MarksLine(qv: QVector, symbol: nat, line: nat)
    requires qv.Valid() && symbol < 4 && line < |qv.data| && ValidLine(qv.data[line])
    ensures Marks(qv.Contents(), symbol, 256 * line, Normalize(qv.data[line], symbol).0)
    ensures Marks(qv.Contents(), symbol, 256 * line + 128, Normalize(qv.data[line], symbol).1)
  {
    var n, c := Normalize(qv.data[line], symbol), qv.Contents();
    NormalizeMarks(qv.data[line], symbol);
    hide Normalize;
    forall k | 0 <= k < 128 && 256 * line + k < |c|
      ensures n.0[k] <==> c[256 * line + k] == symbol
    {
      assert (256 * line + k) / 256 == line && (256 * line + k) % 256 == k;
    }
    forall k | 0 <= k < 128 && 256 * line + 128 + k < |c|
      ensures n.1[k] <==> c[256 * line + 128 + k] == symbol
    {
      assert (256 * line + (128 + k)) / 256 == line && (256 * line + (128 + k)) % 256 == 128 + k;
    }
  }

  /** `w` marks the occurrences in the 128 positions of `c` that start at `from`. */
  ghost predicate Marks(c: seq<int>, symbol: int, from: nat, w: Bits128) {
    forall k :: 0 <= k < 128 && from + k < |c| ==> (w[k] <==> c[from + k] == symbol)
  }

  /** The half holds occurrence `p` exactly when it has more than `rest` marks. */
  lemma HalfSelect(c: seq<int>, symbol: int, from: nat, w: Bits128, rest: nat, p: nat)
    requires Marks(c, symbol, from, w)
    requires from <= p < |c| && c[p] == symbol && Rank(c, symbol, from) + rest == Rank(c, symbol, p)
    ensures CountOnes(w) > rest <==> p < from + 128
    ensures p >= from + 128 ==> Rank(c, symbol, from + 128) == Rank(c, symbol, from) + CountOnes(w)
  {
    if p >= from + 128 {
      MarksRank(c, w, from, symbol, 128);
      RankMonotone(c, symbol, from + 128, p);
    } else {
      MarksRank(c, w, from, symbol, p - from);
      RankStrict(w, true, p - from, 128);
    }
  }

  lemma HalfFound(c: seq<int>, symbol: int, from: nat, w: Bits128, rest: nat, p: nat, q: nat)
    requires Marks(c, symbol, from, w)
    requires from <= p < |c| && p < from + 128 && c[p] == symbol
    requires Rank(c, symbol, from) + rest == Rank(c, symbol, p)
    requires IsSelect(w, true, rest, q)
    ensures from + q == p
  {
    MarksRank(c, w, from, symbol, p - from);
    SelectUnique(w, true, rest, q, p - from);
  }
}
