/** Data lines written 64 rows at a time: the bits of a piece are shifted into the words of the open line. */
module PackedLines {
  import opened RankSelect
  import opened StablePartition
  import opened Bits
  import opened QuadVector

  /** Bit `k` of word `h` of line `l` when the first `m` digits have been written. */
  ghost predicate LineBit(full: seq<int>, m: nat, l: nat, h: nat, k: nat)
    requires m <= |full|
  {
    var p := 256 * l + 128 * (h % 2) + k;
    p < m && (if h < 2 then full[p] / 2 == 1 else full[p] % 2 == 1)
  }

  ghost function LineWord(full: seq<int>, m: nat, l: nat, h: nat): (w: Bits128)
    requires m <= |full|
    ensures forall k :: 0 <= k < 128 ==> (w[k] <==> LineBit(full, m, l, h, k))
  {
    seq(128, k requires 0 <= k < 128 => LineBit(full, m, l, h, k))
  }

  ghost function LineOf(full: seq<int>, m: nat, l: nat): (line: DataLine)
    requires m <= |full|
    ensures |line.words| == 4 && forall h :: 0 <= h < 4 ==> line.words[h] == LineWord(full, m, l, h)
  {
    DataLine([LineWord(full, m, l, 0), LineWord(full, m, l, 1), LineWord(full, m, l, 2), LineWord(full, m, l, 3)])
  }

  /** The data lines of a digit sequence. */
  ghost function LinesOf(full: seq<int>): (lines: seq<DataLine>)
    ensures |lines| == (|full| + LINE - 1) / LINE
    ensures forall l :: 0 <= l < |lines| ==> lines[l] == LineOf(full, |full|, l)
  {
    seq((|full| + LINE - 1) / LINE, l requires 0 <= l < (|full| + LINE - 1) / LINE => LineOf(full, |full|, l))
  }

  lemma LineSymbol(full: seq<int>, l: nat, o: nat)
    requires Bounded(full, 4) && o < LINE
    ensures SymbolAt(LineOf(full, |full|, l), o) == if LINE * l + o < |full| then full[LINE * l + o] else 0
  {
    var h, k := o / 128, o % 128;
    assert 256 * l + 128 * (h % 2) + k == 256 * l + o;
    assert (h + 2) % 2 == h % 2;
  }

  /** A line is determined by its symbols. */
  lemma SameSymbols(a: DataLine, b: DataLine)
    requires ValidLine(a) && ValidLine(b) && forall o :: 0 <= o < LINE ==> SymbolAt(a, o) == SymbolAt(b, o)
    ensures a == b
  {
    forall h, k | 0 <= h < 4 && 0 <= k < 128
      ensures a.words[h][k] == b.words[h][k]
    {
      var o := 128 * (h % 2) + k;
      assert o / 128 == h % 2 && o % 128 == k;
      assert SymbolAt(a, o) == SymbolAt(b, o);
    }
    assert a.words[0] == b.words[0] && a.words[1] == b.words[1] && a.words[2] == b.words[2] && a.words[3] == b.words[3];
    assert a.words == b.words;
  }

  /** What the in-memory builder leaves are the same lines. */
  lemma BuilderLines(data: seq<DataLine>, full: seq<int>)
    requires QVector(data, 2 * |full|).Valid() && QVector(data, 2 * |full|).Contents() == full
    requires Canonical(QVector(data, 2 * |full|))
    ensures data == LinesOf(full)
  {
    forall l | 0 <= l < |data|
      ensures data[l] == LineOf(full, |full|, l)
    {
      forall o | 0 <= o < LINE
        ensures SymbolAt(data[l], o) == SymbolAt(LineOf(full, |full|, l), o)
      {
        LineSymbol(full, l, o);
        assert (LINE * l + o) / LINE == l && (LINE * l + o) % LINE == o;
      }
      SameSymbols(data[l], LineOf(full, |full|, l));
    }
  }

  // ---- Writing into the open line ----

  /** `word | bits << shift`, with the bits that leave the word dropped. */
  function OrShifted(word: Bits128, bits: seq<bool>, shift: nat): (r: Bits128)
    ensures forall k :: 0 <= k < 128 ==> (r[k] <==> word[k] || (shift <= k < shift + |bits| && bits[k - shift]))
  {
    seq(128, k requires 0 <= k < 128 => word[k] || (shift <= k < shift + |bits| && bits[k - shift]))
  }

  /** `plane` holds one bit of each digit of the piece `[row, row + take)`, and zeros after it. */
  ghost predicate PlaneOf(full: seq<int>, row: nat, take: nat, high: bool, plane: seq<bool>) {
    && row + take <= |full| && take <= |plane| == 64
    && forall i :: 0 <= i < 64 ==> (plane[i] <==> i < take && (if high then full[row + i] / 2 == 1 else full[row + i] % 2 == 1))
  }

  /** One bit of the word that holds the piece: `off` is where the piece starts in it. */
  lemma PieceBit(full: seq<int>, row: nat, take: nat, h: nat, plane: seq<bool>, l: nat, off: nat, k: nat)
    requires h < 4 && PlaneOf(full, row, take, h < 2, plane) && k < 128
    requires row == 256 * l + 128 * (h % 2) + off
    ensures LineBit(full, row + take, l, h, k) <==>
      LineBit(full, row, l, h, k) || (off <= k < off + |plane| && plane[k - off])
  {
    var p := 256 * l + 128 * (h % 2) + k;
    assert p - row == k - off;
  }

  /** Or-ing the planes of a piece in writes its rows and no others. */
  lemma WritePiece(full: seq<int>, row: nat, take: nat, h: nat, plane: seq<bool>)
    requires h < 4 && take > 0 && row % 64 + take <= 64 && PlaneOf(full, row, take, h < 2, plane)
    requires h % 2 == row % 256 / 128
    ensures OrShifted(LineWord(full, row, row / 256, h), plane, row % 128) == LineWord(full, row + take, row / 256, h)
  {
    hide LineBit;
    var l, off := row / 256, row % 128;
    var w, next := LineWord(full, row, l, h), LineWord(full, row + take, l, h);
    assert row == 256 * l + 128 * (h % 2) + off;
    forall k: nat | k < 128
      ensures OrShifted(w, plane, off)[k] <==> next[k]
    {
      PieceBit(full, row, take, h, plane, l, off, k);
    }
  }

  /** One bit of the other half: before the piece and already written, or behind it. */
  lemma OtherBit(full: seq<int>, row: nat, take: nat, h: nat, l: nat, k: nat)
    requires row + take <= |full| && k < 128
    requires 256 * l + 128 * (h % 2) + 128 <= row || row + take <= 256 * l + 128 * (h % 2)
    ensures LineBit(full, row, l, h, k) <==> LineBit(full, row + take, l, h, k)
  {}

  /** The other half of the line is not touched. */
  lemma OtherHalf(full: seq<int>, row: nat, take: nat, h: nat)
    requires h < 4 && take > 0 && row % 64 + take <= 64 && row + take <= |full|
    requires h % 2 != row % 256 / 128
    ensures LineWord(full, row, row / 256, h) == LineWord(full, row + take, row / 256, h)
  {
    hide LineBit;
    var l := row / 256;
    Halves(row, take, h % 2);
    var w, next := LineWord(full, row, l, h), LineWord(full, row + take, l, h);
    forall k: nat | k < 128
      ensures w[k] <==> next[k]
    {
      OtherBit(full, row, take, h, l, k);
    }
  }

  lemma Halves(row: nat, take: nat, half: nat)
    requires half < 2 && half != row % 256 / 128 && row % 64 + take <= 64
    ensures 256 * (row / 256) + 128 * half + 128 <= row || row + take <= 256 * (row / 256) + 128 * half
  {
    var q, r := row / 64, row % 64;
    assert row == 64 * q + r;
    assert row / 256 == q / 4;
  }

  lemma FullLineStays(full: seq<int>, m: nat, n: nat, l: nat)
    requires m <= n <= |full| && 256 * (l + 1) <= m
    ensures LineOf(full, m, l) == LineOf(full, n, l)
  {
    forall h | 0 <= h < 4
      ensures LineWord(full, m, l, h) == LineWord(full, n, l, h)
    {
      var a, b := LineWord(full, m, l, h), LineWord(full, n, l, h);
      forall k | 0 <= k < 128
        ensures a[k] <==> b[k]
      {}
    }
  }

  lemma EmptyLine(full: seq<int>, m: nat, h: nat)
    requires m <= |full| && m % 256 == 0 && h < 4
    ensures LineWord(full, m, m / 256, h) == Repeat(false)
  {}

  // ---- The state of the line writer ----

  /** Complete lines in the file, the open line in `words`. */
  ghost predicate LinesAt(full: seq<int>, m: nat, data: seq<DataLine>, words: seq<Bits128>, lineRows: nat)
    requires m <= |full|
  {
    && |data| == m / 256 && lineRows == m % 256
    && (forall l :: 0 <= l < |data| ==> data[l] == LineOf(full, m, l))
    && |words| == 4 && forall h :: 0 <= h < 4 ==> words[h] == LineWord(full, m, m / 256, h)
  }

  /** State after the words of a piece have been written and before a full line is flushed. */
  ghost predicate LinesWritten(full: seq<int>, row: nat, take: nat, data: seq<DataLine>, words: seq<Bits128>)
    requires row + take <= |full|
  {
    && |data| == row / 256
    && (forall l :: 0 <= l < |data| ==> data[l] == LineOf(full, row + take, l))
    && |words| == 4 && forall h :: 0 <= h < 4 ==> words[h] == LineWord(full, row + take, row / 256, h)
  }

  lemma WriteLines(full: seq<int>, row: nat, take: nat, data: seq<DataLine>, words: seq<Bits128>, lineRows: nat, high: seq<bool>, low: seq<bool>)
    requires take > 0 && row % 64 + take <= 64 && row + take <= |full| && LinesAt(full, row, data, words, lineRows)
    requires PlaneOf(full, row, take, true, high) && PlaneOf(full, row, take, false, low)
    ensures var highWord := lineRows / 128;
      highWord < 2 && LinesWritten(full, row, take, data,
        words[highWord := OrShifted(words[highWord], high, lineRows % 128)]
             [highWord + 2 := OrShifted(words[highWord + 2], low, lineRows % 128)])
  {
    hide PlaneOf, LineBit;
    var highWord := lineRows / 128;
    var next := words[highWord := OrShifted(words[highWord], high, lineRows % 128)]
                     [highWord + 2 := OrShifted(words[highWord + 2], low, lineRows % 128)];
    assert row % 128 == lineRows % 128;
    forall h | 0 <= h < 4
      ensures next[h] == LineWord(full, row + take, row / 256, h)
    {
      if h % 2 == highWord {
        WritePiece(full, row, take, h, if h < 2 then high else low);
      } else {
        OtherHalf(full, row, take, h);
      }
    }
    forall l | 0 <= l < |data|
      ensures data[l] == LineOf(full, row + take, l)
    {
      FullLineStays(full, row, row + take, l);
    }
  }

  lemma WordsAreLine(full: seq<int>, m: nat, l: nat, words: seq<Bits128>)
    requires m <= |full| && |words| == 4 && forall h :: 0 <= h < 4 ==> words[h] == LineWord(full, m, l, h)
    ensures DataLine(words) == LineOf(full, m, l)
  {
    hide LineWord;
    assert words == LineOf(full, m, l).words;
  }

  /** A full line goes to the file. */
  lemma CloseFullLine(full: seq<int>, row: nat, take: nat, data: seq<DataLine>, words: seq<Bits128>)
    requires take > 0 && row % 256 + take == 256 && row + take <= |full| && LinesWritten(full, row, take, data, words)
    ensures LinesAt(full, row + take, data + [DataLine(words)], [Repeat(false), Repeat(false), Repeat(false), Repeat(false)], 0)
  {
    hide LineWord, LineOf;
    var m := row + take;
    assert m / 256 == row / 256 + 1 && m % 256 == 0;
    WordsAreLine(full, m, row / 256, words);
    forall h | 0 <= h < 4
      ensures LineWord(full, m, m / 256, h) == Repeat(false)
    {
      EmptyLine(full, m, h);
    }
  }

  /** A partial line stays open. */
  lemma KeepOpenLine(full: seq<int>, row: nat, take: nat, data: seq<DataLine>, words: seq<Bits128>)
    requires take > 0 && row % 256 + take < 256 && row + take <= |full| && LinesWritten(full, row, take, data, words)
    ensures LinesAt(full, row + take, data, words, row % 256 + take)
  {
    hide LineWord, LineOf;
    var m := row + take;
    assert m / 256 == row / 256 && m % 256 == row % 256 + take;
  }

  /** At the end a partial line is flushed as it is. */
  lemma LastLine(full: seq<int>, data: seq<DataLine>, words: seq<Bits128>, lineRows: nat)
    requires LinesAt(full, |full|, data, words, lineRows)
    ensures (if lineRows != 0 then data + [DataLine(words)] else data) == LinesOf(full)
  {
    hide LineWord, LineOf;
    if lineRows != 0 {
      WordsAreLine(full, |full|, |data|, words);
    }
  }
}
