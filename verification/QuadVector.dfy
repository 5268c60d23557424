/**
 The quad vector: symbols in 0..3 packed 256 to a line, as two bit planes. The
 first two words of a line hold the high bits, the other two the low bits.
 */
module QuadVector {
  import opened Wrappers
  import opened RankSelect
  import opened StablePartition
  import opened Bits

  const LINE: nat := 256

  datatype DataLine = DataLine(words: seq<Bits128>)

  ghost predicate ValidLine(line: DataLine) {
    |line.words| == 4
  }

  const EMPTY_LINE: DataLine := DataLine([Repeat(false), Repeat(false), Repeat(false), Repeat(false)])

  /** `get` on a line. */
  function SymbolAt(line: DataLine, i: nat): (r: int)
    requires ValidLine(line) && i < LINE
    ensures 0 <= r < 4
  {
    (if line.words[i / 128][i % 128] then 2 else 0) + (if line.words[i / 128 + 2][i % 128] then 1 else 0)
  }

  /** The 256 symbols of a line. */
  ghost function Symbols(line: DataLine): (r: seq<int>)
    requires ValidLine(line)
    ensures |r| == LINE && forall i :: 0 <= i < LINE ==> r[i] == SymbolAt(line, i)
  {
    seq(LINE, i requires 0 <= i < LINE => SymbolAt(line, i))
  }

  /** Bit masks of the positions that hold `symbol`, for the two halves of the line. */
  function Normalize(line: DataLine, symbol: nat): (Bits128, Bits128)
    requires ValidLine(line) && symbol < 4
  {
    var maskHigh := Repeat(symbol / 2 == 0);
    var maskLow := Repeat(symbol % 2 == 0);
    (And(Xor(line.words[0], maskHigh), Xor(line.words[2], maskLow)),
     And(Xor(line.words[1], maskHigh), Xor(line.words[3], maskLow)))
  }

  lemma NormalizeMarks(line: DataLine, symbol: nat)
    requires ValidLine(line) && symbol < 4
    ensures forall i :: 0 <= i < 128 ==> (Normalize(line, symbol).0[i] <==> SymbolAt(line, i) == symbol)
    ensures forall i :: 0 <= i < 128 ==> (Normalize(line, symbol).1[i] <==> SymbolAt(line, 128 + i) == symbol)
  {
    forall i | 0 <= i < 128
      ensures Normalize(line, symbol).1[i] <==> SymbolAt(line, 128 + i) == symbol
    {
      assert (128 + i) / 128 == 1 && (128 + i) % 128 == i;
    }
  }

  /** Counting marks counts symbols. */
  lemma {:induction false} MarksRank(s: seq<int>, w: seq<bool>, from: nat, symbol: int, i: nat)
    requires i <= |w| && from + i <= |s|
    requires forall k :: 0 <= k < i ==> (w[k] <==> s[from + k] == symbol)
    ensures Rank(s, symbol, from) <= Rank(s, symbol, from + i)
    ensures Rank(w, true, i) == Rank(s, symbol, from + i) - Rank(s, symbol, from)
  {
    RankMonotone(s, symbol, from, from + i);
    if i > 0 {
      MarksRank(s, w, from, symbol, i - 1);
    }
  }

  /** The masks that select the first `i` positions in the two halves. */
  function Masks(i: nat): (r: (Bits128, Bits128))
    requires i <= LINE
    ensures forall k :: 0 <= k < 128 ==> (r.0[k] <==> k < i) && (r.1[k] <==> 128 + k < i)
  {
    var lastWord := i / 128;
    var offset := i % 128;
    (if lastWord == 0 then LowMask(offset) else Repeat(true),
     if lastWord == 1 then LowMask(offset) else Repeat(lastWord == 2))
  }

  lemma MaskedRank(s: seq<int>, w0: Bits128, w1: Bits128, symbol: int, i: nat)
    requires |s| == LINE && i <= LINE
    requires forall k :: 0 <= k < 128 ==> (w0[k] <==> s[k] == symbol && k < i)
    requires forall k :: 0 <= k < 128 ==> (w1[k] <==> s[128 + k] == symbol && 128 + k < i)
    ensures CountOnes(w0) + CountOnes(w1) == Rank(s, symbol, i)
  {
    if i <= 128 {
      MarksRank(s, w0, 0, symbol, i);
      RestEmpty(w0, i);
      NoneBelow(w1, 128);
    } else {
      MarksRank(s, w0, 0, symbol, 128);
      MarksRank(s, w1, 128, symbol, i - 128);
      RestEmpty(w1, i - 128);
    }
  }

  lemma {:induction false} RestEmpty(w: seq<bool>, i: nat)
    requires i <= |w| && forall k :: i <= k < |w| ==> !w[k]
    ensures CountOnes(w) == Rank(w, true, i)
    decreases |w| - i
  {
    if i < |w| {
      RestEmpty(w, i + 1);
    }
  }

  /** Rank within a line, for one symbol. */
  function RankInLine(line: DataLine, symbol: nat, i: nat): (r: nat)
    requires ValidLine(line) && symbol < 4 && i <= LINE
    ensures r == Rank(Symbols(line), symbol, i)
  {
    var n := Normalize(line, symbol);
    var m := Masks(i);
    NormalizeMarks(line, symbol);
    MaskedRank(Symbols(line), And(n.0, m.0), And(n.1, m.1), symbol, i);
    CountOnes(And(n.0, m.0)) + CountOnes(And(n.1, m.1))
  }

  /** Ranks within a line for all four symbols, from one masked copy of each plane. */
  function RankAllInLine(line: DataLine, i: nat): (r: seq<nat>)
    requires ValidLine(line) && i <= LINE
    ensures |r| == 4 && forall symbol :: 0 <= symbol < 4 ==> r[symbol] == Rank(Symbols(line), symbol, i)
  {
    var m := Masks(i);
    var h0 := And(line.words[0], m.0);
    var l0 := And(line.words[2], m.0);
    var nh0 := Xor(m.0, h0);
    var nl0 := Xor(m.0, l0);
    var h1 := And(line.words[1], m.1);
    var l1 := And(line.words[3], m.1);
    var nh1 := Xor(m.1, h1);
    var nl1 := Xor(m.1, l1);
    PlaneRank(line, i, 0, And(nh0, nl0), And(nh1, nl1));
    PlaneRank(line, i, 1, And(nh0, l0), And(nh1, l1));
    PlaneRank(line, i, 2, And(h0, nl0), And(h1, nl1));
    PlaneRank(line, i, 3, And(h0, l0), And(h1, l1));
    [CountOnes(And(nh0, nl0)) + CountOnes(And(nh1, nl1)),
     CountOnes(And(nh0, l0)) + CountOnes(And(nh1, l1)),
     CountOnes(And(h0, nl0)) + CountOnes(And(h1, nl1)),
     CountOnes(And(h0, l0)) + CountOnes(And(h1, l1))]
  }

  lemma PlaneRank(line: DataLine, i: nat, symbol: nat, w0: Bits128, w1: Bits128)
    requires ValidLine(line) && i <= LINE && symbol < 4
    requires forall k :: 0 <= k < 128 ==>
      (w0[k] <==> k < i && line.words[0][k] == (symbol / 2 == 1) && line.words[2][k] == (symbol % 2 == 1))
    requires forall k :: 0 <= k < 128 ==>
      (w1[k] <==> 128 + k < i && line.words[1][k] == (symbol / 2 == 1) && line.words[3][k] == (symbol % 2 == 1))
    ensures CountOnes(w0) + CountOnes(w1) == Rank(Symbols(line), symbol, i)
  {
    forall k | 0 <= k < 128
      ensures SymbolAt(line, 128 + k) == symbol <==>
        line.words[1][k] == (symbol / 2 == 1) && line.words[3][k] == (symbol % 2 == 1)
    {
      assert (128 + k) / 128 == 1 && (128 + k) % 128 == k;
    }
    MaskedRank(Symbols(line), w0, w1, symbol, i);
  }

  // ---- The vector ----

  datatype QVector = QVector(data: seq<DataLine>, position: nat) {
    ghost predicate Valid() {
      && (forall l :: 0 <= l < |data| ==> ValidLine(data[l]))
      && position % 2 == 0 && position <= |data| * 512
    }

    function Len(): nat {
      position / 2
    }

    function Get(i: nat): (r: Option<int>)
      requires Valid()
      ensures r == if i < Len() then Some(Contents()[i]) else None
    {
      if i >= Len() then None else Some(SymbolAt(data[i / LINE], i % LINE))
    }

    /** The symbol at position `i`, which the caller guarantees to exist. */
    function GetUnchecked(i: nat): (r: nat)
      requires Valid() && i < Len()
      ensures r == Contents()[i] && r < 4
    {
      SymbolAt(data[i / LINE], i % LINE)
    }

    ghost function Contents(): (r: seq<int>)
      requires Valid()
      ensures |r| == Len()
      ensures Bounded(r, 4)
      ensures forall i :: 0 <= i < Len() ==> r[i] == SymbolAt(data[i / LINE], i % LINE)
    {
      seq(Len(), i requires 0 <= i < Len() => SymbolAt(data[i / LINE], i % LINE))
    }

    /** Rank inside the line that holds position `i` of the vector. */
    lemma LineRank(l: nat, o: nat, symbol: int)
      requires Valid() && l < |data| && o <= LINE && LINE * l + o <= Len()
      ensures Rank(Contents(), symbol, LINE * l) <= Rank(Contents(), symbol, LINE * l + o)
      ensures Rank(Symbols(data[l]), symbol, o) == Rank(Contents(), symbol, LINE * l + o) - Rank(Contents(), symbol, LINE * l)
    {
      var c, s := Contents(), Symbols(data[l]);
      forall k | 0 <= k < o
        ensures s[k] == c[LINE * l + k]
      {
        assert (LINE * l + k) / LINE == l && (LINE * l + k) % LINE == k;
      }
      RankWindow(c, s, LINE * l, symbol, o);
    }
  }

  /** No more lines than the symbols need, and zeros after the last symbol. */
  ghost predicate Canonical(qv: QVector)
    requires qv.Valid()
  {
    && |qv.data| == (qv.Len() + LINE - 1) / LINE
    && forall i :: qv.Len() <= i < LINE * |qv.data| ==> SymbolAt(qv.data[i / LINE], i % LINE) == 0
  }

  /** Appends symbols one at a time. */
  class QVectorBuilder {
    var data: seq<DataLine>
    var position: nat

    ghost predicate Valid()
      reads this
    {
      QVector(data, position).Valid() && Canonical(QVector(data, position))
    }

    ghost function Contents(): seq<int>
      reads this
      requires Valid()
    {
      QVector(data, position).Contents()
    }

    constructor ()
      ensures Valid() && Contents() == []
    {
      data := [];
      position := 0;
    }

    /** The two low bits of `symbol` are appended; higher bits are dropped. */
    method Push(symbol: nat)
      requires Valid()
      modifies this
      ensures Valid()
      ensures Contents() == old(Contents()) + [symbol % 4]
    {
      hide SetSymbol, SymbolAt;
      ghost var n, was := position / 2, data;
      var posInLastLine := (position / 2) % 256;
      if posInLastLine == 0 {
        data := data + [EMPTY_LINE];
      }
      RoomAtEnd(was, data, n);
      var last := |data| - 1;
      ghost var before := data;
      data := data[last := SetSymbol(data[last], symbol, posInLastLine)];
      position := position + 2;
      SymbolSet(before, data, last, symbol, n);
      ContentsPushed(was, before, data, n, symbol);
    }

    method Build() returns (qv: QVector)
      requires Valid()
      ensures qv.Valid() && qv.Contents() == Contents()
      ensures qv == QVector(data, position) && Canonical(qv)
    {
      qv := QVector(data, position);
    }
  }

  /** A fresh line is opened only when the last one is full. */
  lemma RoomAtEnd(was: seq<DataLine>, data: seq<DataLine>, n: nat)
    requires QVector(was, 2 * n).Valid() && |was| == (n + LINE - 1) / LINE
    requires forall i :: n <= i < LINE * |was| ==> SymbolAt(was[i / LINE], i % LINE) == 0
    requires data == if n % 256 == 0 then was + [EMPTY_LINE] else was
    ensures QVector(data, 2 * n).Valid() && |data| == n / LINE + 1
    ensures forall i :: n <= i < LINE * |data| ==> SymbolAt(data[i / LINE], i % LINE) == 0
    ensures forall i :: 0 <= i < n ==> data[i / LINE] == was[i / LINE]
  {
    forall i | n <= i < LINE * |data|
      ensures SymbolAt(data[i / LINE], i % LINE) == 0
    {
      assert i / LINE < |was| ==> data[i / LINE] == was[i / LINE];
    }
  }

  lemma ContentsPushed(was: seq<DataLine>, before: seq<DataLine>, data: seq<DataLine>, n: nat, symbol: nat)
    requires QVector(was, 2 * n).Valid() && QVector(before, 2 * n).Valid() && |data| == |before| == n / LINE + 1
    requires forall l :: 0 <= l < |data| ==> ValidLine(data[l])
    requires forall i :: n <= i < LINE * |before| ==> SymbolAt(before[i / LINE], i % LINE) == 0
    requires forall i :: 0 <= i < n ==> before[i / LINE] == was[i / LINE]
    requires forall i :: 0 <= i < LINE * |data| ==>
      SymbolAt(data[i / LINE], i % LINE) == if i == n then symbol % 4 else SymbolAt(before[i / LINE], i % LINE)
    ensures QVector(data, 2 * (n + 1)).Valid() && |data| == (n + 1 + LINE - 1) / LINE
    ensures forall i :: n + 1 <= i < LINE * |data| ==> SymbolAt(data[i / LINE], i % LINE) == 0
    ensures QVector(data, 2 * (n + 1)).Contents() == QVector(was, 2 * n).Contents() + [symbol % 4]
  {
    hide SymbolAt;
    var c := QVector(data, 2 * (n + 1)).Contents();
    var d := QVector(was, 2 * n).Contents() + [symbol % 4];
    forall i | 0 <= i < n + 1
      ensures c[i] == d[i]
    {
      assert i < LINE * |data|;
    }
  }

  /** Setting one symbol of the last line changes nothing else. */
  lemma SymbolSet(before: seq<DataLine>, data: seq<DataLine>, last: nat, symbol: nat, n: nat)
    requires last + 1 == |before| && (forall l :: 0 <= l < |before| ==> ValidLine(before[l])) && n / LINE == last
    requires SymbolAt(before[last], n % LINE) == 0 && data == before[last := SetSymbol(before[last], symbol, n % LINE)]
    ensures forall i :: 0 <= i < LINE * |data| ==>
      SymbolAt(data[i / LINE], i % LINE) == if i == n then symbol % 4 else SymbolAt(before[i / LINE], i % LINE)
  {
    hide SymbolAt, SetSymbol;
    forall i | 0 <= i < LINE * |data|
      ensures SymbolAt(data[i / LINE], i % LINE) == if i == n then symbol % 4 else SymbolAt(before[i / LINE], i % LINE)
    {
      if i / LINE == last {
        SetSymbolAt(before[last], symbol, n % LINE, i % LINE);
      }
    }
  }

  /** Or-s the two bits of `symbol` into position `i` of a line. */
  function SetSymbol(line: DataLine, symbol: nat, i: nat): (r: DataLine)
    requires ValidLine(line) && i < LINE
    ensures ValidLine(r)
  {
    var wordHigh := i / 128;
    var wordLow := wordHigh + 2;
    var shift := i % 128;
    var s := symbol % 4;
    var w := line.words[wordHigh := OrBit(line.words[wordHigh], shift, s / 2 == 1)];
    DataLine(w[wordLow := OrBit(w[wordLow], shift, s % 2 == 1)])
  }

  function OrBit(w: Bits128, i: nat, b: bool): (r: Bits128)
    requires i < 128
    ensures forall k :: 0 <= k < 128 ==> r[k] == (w[k] || (k == i && b))
  {
    w[i := w[i] || b]
  }

  lemma SetSymbolAt(line: DataLine, symbol: nat, i: nat, k: nat)
    requires ValidLine(line) && i < LINE && k < LINE && SymbolAt(line, i) == 0
    ensures SymbolAt(SetSymbol(line, symbol, i), k) == if k == i then symbol % 4 else SymbolAt(line, k)
  {
    assert k / 128 == i / 128 && k % 128 == i % 128 ==> k == i;
  }
}
