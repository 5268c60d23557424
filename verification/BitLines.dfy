/** Bit vectors as 512-bit lines of eight 64-bit words, with rank and select inside a line. */
module BitLines {
  import opened Wrappers
  import opened RankSelect
  import opened Bits

  /** A line, lowest bit of its first word first. */
  type Line = l: seq<bool> | |l| == 512 witness seq(512, _ => false)

  /** Word `w` of a line. */
  function WordOf(l: Line, w: nat): (r: seq<bool>)
    requires w < 8
    ensures |r| == 64 && forall k :: 0 <= k < 64 ==> r[k] == l[64 * w + k]
  {
    l[64 * w..64 * w + 64]
  }

  /** `!word` */
  function Not(word: seq<bool>): (r: seq<bool>)
    ensures |r| == |word| && forall k :: 0 <= k < |word| ==> r[k] == !word[k]
  {
    seq(|word|, k requires 0 <= k < |word| => !word[k])
  }

  /** `word & ((1 << left) - 1)` */
  function LowBits(word: seq<bool>, left: nat): (r: seq<bool>)
    ensures |r| == |word| && forall k :: 0 <= k < |word| ==> r[k] == (word[k] && k < left)
  {
    seq(|word|, k requires 0 <= k < |word| => word[k] && k < left)
  }

  lemma {:induction false} LowBitsRank(word: seq<bool>, left: nat, i: nat)
    requires i <= |word| && left <= |word|
    ensures Rank(LowBits(word, left), true, i) == Rank(word, true, if i <= left then i else left)
  {
    if i > 0 {
      LowBitsRank(word, left, i - 1);
    }
  }

  lemma {:induction false} NotRank(word: seq<bool>, i: nat)
    requires i <= |word|
    ensures Rank(Not(word), true, i) == Rank(word, false, i) == i - Rank(word, true, i)
  {
    if i > 0 {
      NotRank(word, i - 1);
    }
  }

  /** Counting in a word of a line. */
  lemma WordRank(l: Line, w: nat, v: bool, i: nat)
    requires w < 8 && i <= 64
    ensures Rank(l, v, 64 * w) <= Rank(l, v, 64 * w + i)
    ensures Rank(WordOf(l, w), v, i) == Rank(l, v, 64 * w + i) - Rank(l, v, 64 * w)
  {
    RankWindow(l, WordOf(l, w), 64 * w, v, i);
  }

  // ---- A line ----

  /** Ones before position `i` of a line: whole words, then the low bits of one more. */
  method LineRank(l: Line, i: nat) returns (rank: nat)
    requires i <= 512
    ensures rank == Rank(l, true, i)
  {
    hide Rank, WordOf;
    var left: int := i;
    rank := 0;
    assert Rank(l, true, 0) == 0 by { NothingBefore(l); }
    var w := 0;
    while w < 8
      invariant 0 <= w <= 8 && left == i - 64 * w
      invariant rank == Rank(l, true, if 64 * w <= i then 64 * w else i)
    {
      if left < 0 {
        break;
      }
      var curWord := WordOf(l, w);
      var low := if left > 63 then 64 else left;
      LowBitsRank(curWord, low, 64);
      WordRank(l, w, true, low);
      rank := rank + CountOnes(LowBits(curWord, low));
      left := left - 64;
      w := w + 1;
    }
  }

  lemma NothingBefore(l: seq<bool>)
    ensures Rank(l, true, 0) == 0 && Rank(l, false, 0) == 0
  {}

  /** Position of occurrence `i` of `v` in a line; 512 if there are not that many. */
  method LineSelect(l: Line, v: bool, i: nat) returns (off: nat)
    ensures if i < Occs(l, v) then IsSelect(l, v, i, off) else off == 512
  {
    hide Rank, WordOf, IsSelect;
    var rank := 0;
    off := 0;
    NothingBefore(l);
    var w := 0;
    while w < 8
      invariant 0 <= w <= 8 && off == 64 * w && rank == Rank(l, v, off) <= i
    {
      var wordToSelect := if v then WordOf(l, w) else Not(WordOf(l, w));
      SelectWord(l, v, w);
      var kp := CountOnes(wordToSelect);
      if kp > i - rank {
        var p := SelectInWord(wordToSelect, i - rank);
        InWord(l, v, w, i, p, wordToSelect);
        off := off + p;
        return;
      }
      rank := rank + kp;
      off := off + 64;
      w := w + 1;
    }
  }

  lemma SelectWord(l: Line, v: bool, w: nat)
    requires w < 8
    ensures Rank(l, v, 64 * w) + CountOnes(if v then WordOf(l, w) else Not(WordOf(l, w))) == Rank(l, v, 64 * w + 64) <= Occs(l, v)
  {
    WordRank(l, w, v, 64);
    NotRank(WordOf(l, w), 64);
    RankMonotone(l, v, 64 * w + 64, 512);
  }

  lemma InWord(l: Line, v: bool, w: nat, i: nat, p: nat, word: seq<bool>)
    requires w < 8 && word == (if v then WordOf(l, w) else Not(WordOf(l, w)))
    requires Rank(l, v, 64 * w) <= i && IsSelect(word, true, i - Rank(l, v, 64 * w), p)
    ensures IsSelect(l, v, i, 64 * w + p)
  {
    WordRank(l, w, v, p);
    NotRank(WordOf(l, w), p);
  }

  // ---- The bit vector ----

  datatype BitVector = BitVector(data: seq<Line>, nBits: nat, countOnes: nat) {
    /** All bits of all lines. */
    ghost function Padded(): (r: seq<bool>)
      ensures |r| == 512 * |data|
    {
      seq(512 * |data|, p requires 0 <= p < 512 * |data| => data[p / 512][p % 512])
    }

    /** No line too many, nothing but zeros behind the last bit, and the right number of ones. */
    ghost predicate Valid() {
      && |data| == (nBits + 511) / 512
      && (forall p :: nBits <= p < 512 * |data| ==> !Padded()[p])
      && countOnes == Occs(Padded(), true)
    }

    ghost function Contents(): (r: seq<bool>)
      requires Valid()
      ensures |r| == nBits
    {
      Padded()[..nBits]
    }

    /** Counting in the vector and in its lines. */
    lemma RankOfPadded(v: bool, i: nat)
      requires Valid() && i <= nBits
      ensures i <= |Padded()| && Rank(Contents(), v, i) == Rank(Padded(), v, i)
    {
      RankPrefix(Contents(), Padded(), v, i);
    }

    /** The zeros behind the end hold no one. */
    lemma PaddingIsZero()
      requires Valid()
      ensures Occs(Padded(), true) == Occs(Contents(), true)
    {
      RankOfPadded(true, nBits);
      FlatTail(Padded(), nBits, |Padded()|);
    }

    lemma LineOf(b: nat, v: bool, i: nat)
      requires b < |data| && i <= 512
      ensures Rank(Padded(), v, 512 * b) <= Rank(Padded(), v, 512 * b + i)
      ensures Rank(data[b], v, i) == Rank(Padded(), v, 512 * b + i) - Rank(Padded(), v, 512 * b)
    {
      forall k | 0 <= k < i
        ensures data[b][k] == Padded()[512 * b + k]
      {
        assert (512 * b + k) / 512 == b && (512 * b + k) % 512 == k;
      }
      RankWindow(Padded(), data[b], 512 * b, v, i);
    }

    /** A position found in a line is a position of the vector. */
    lemma SelectOf(b: nat, v: bool, k: nat, off: nat)
      requires b < |data| && Rank(Padded(), v, 512 * b) <= k && IsSelect(data[b], v, k - Rank(Padded(), v, 512 * b), off)
      ensures IsSelect(Padded(), v, k, 512 * b + off)
    {
      LineOf(b, v, off);
      assert (512 * b + off) / 512 == b && (512 * b + off) % 512 == off;
    }
  }

  lemma {:induction false} FlatTail(s: seq<bool>, from: nat, i: nat)
    requires from <= i <= |s| && forall p :: from <= p < i ==> !s[p]
    ensures Rank(s, true, i) == Rank(s, true, from)
  {
    if from < i {
      FlatTail(s, from, i - 1);
    }
  }
}
