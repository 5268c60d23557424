/**
 Any stack of quad sequences of one length is the wavelet matrix of the words it
 decodes to: positions move by a permutation on every level.
 */
module LevelStacks {
  import opened RankSelect
  import opened StablePartition
  import opened Arithmetic
  import opened Words
  import opened WaveletMatrix
  import opened CraftCodes
  import opened SymbolWords

  ghost predicate Stack(ks: seq<seq<int>>, n: nat) {
    forall l :: 0 <= l < |ks| ==> |ks[l]| == n && Bounded(ks[l], 4)
  }

  /** Where row `i` stands on level `l`. */
  ghost function Trace(ks: seq<seq<int>>, n: nat, i: nat, l: nat): (q: nat)
    requires Stack(ks, n) && i < n && l <= |ks|
    ensures q < n
  {
    if l == 0 then i
    else
      var p := Trace(ks, n, i, l - 1);
      OccsBelowTotal(ks[l - 1], 4);
      MoveStep(ks[l - 1], ks[l - 1], 4, p);
      Move(ks[l - 1], p)
  }

  /** The digits that a descent from row `i` reads. */
  ghost function Decoded(ks: seq<seq<int>>, n: nat, i: nat): (w: Word)
    requires Stack(ks, n) && i < n
    ensures |w| == |ks| && Quaternary(w)
    ensures forall l :: 0 <= l < |ks| ==> w[l] == ks[l][Trace(ks, n, i, l)]
  {
    seq(|ks|, l requires 0 <= l < |ks| => ks[l][Trace(ks, n, i, l)])
  }

  ghost function DecodedRows(ks: seq<seq<int>>, n: nat): (w: seq<Word>)
    requires Stack(ks, n)
    ensures |w| == n && forall i :: 0 <= i < n ==> w[i] == Decoded(ks, n, i)
  {
    seq(n, i requires 0 <= i < n => Decoded(ks, n, i))
  }

  ghost function DecodedSymbol(ks: seq<seq<int>>, n: nat, i: nat): (x: nat)
    requires Stack(ks, n) && i < n
    ensures x == Value(Decoded(ks, n, i)) < Pow4(|ks|)
  {
    ValueBound(Decoded(ks, n, i));
    Value(Decoded(ks, n, i))
  }

  /** The text that the stack decodes to. */
  ghost function DecodedText(ks: seq<seq<int>>, n: nat): (s: seq<nat>)
    requires Stack(ks, n)
    ensures |s| == n && forall i :: 0 <= i < n ==> s[i] == DecodedSymbol(ks, n, i)
  {
    seq(n, i requires 0 <= i < n => DecodedSymbol(ks, n, i))
  }

  /** Every position of a level is reached by some row. */
  lemma {:induction false} TraceOnto(ks: seq<seq<int>>, n: nat, l: nat, q: nat) returns (i: nat)
    requires Stack(ks, n) && l <= |ks| && q < n
    ensures i < n && Trace(ks, n, i, l) == q
  {
    if l == 0 {
      i := q;
    } else {
      OccsBelowTotal(ks[l - 1], 4);
      var p := MoveSurjective(ks[l - 1], 4, q);
      i := TraceOnto(ks, n, l - 1, p);
    }
  }

  /** Level `l` of the decoded words holds row `i` where the descent finds it. */
  ghost predicate LevelAt(ks: seq<seq<int>>, n: nat, l: nat)
    requires Stack(ks, n) && l < |ks|
  {
    var v := Level(DecodedRows(ks, n), l);
    && |v| == n
    && forall i :: 0 <= i < n ==> v[Trace(ks, n, i, l)] == Decoded(ks, n, i)
  }

  lemma LevelDigitsAre(ks: seq<seq<int>>, n: nat, l: nat)
    requires Stack(ks, n) && l < |ks| && LevelAt(ks, n, l)
    ensures LevelDigits(DecodedRows(ks, n), l) == ks[l]
  {
    var d := LevelDigits(DecodedRows(ks, n), l);
    forall q | 0 <= q < n
      ensures d[q] == ks[l][q]
    {
      var i := TraceOnto(ks, n, l, q);
    }
  }

  /** The partition of a level holds the row of position `p` where `p` moves. */
  lemma SortedAt(v: seq<Word>, l: nat, k: seq<int>)
    requires Deep(v, l) && k == Digits(v, l) && Bounded(k, 4)
    ensures |Sorted(v, l)| == |v|
    ensures forall p :: 0 <= p < |v| ==> Move(k, p) < |v| && Sorted(v, l)[Move(k, p)] == v[p]
  {
    hide Move;
    OccsBelowTotal(k, 4);
    forall p | 0 <= p < |v|
      ensures Move(k, p) < |v| && Sorted(v, l)[Move(k, p)] == v[p]
    {
      MoveStep(v, k, 4, p);
    }
  }

  lemma LevelAtZero(ks: seq<seq<int>>, n: nat)
    requires Stack(ks, n) && |ks| > 0
    ensures LevelAt(ks, n, 0)
  {
    hide Decoded;
    var w := DecodedRows(ks, n);
    LevelZero(w);
    hide Level;
    assert forall i :: 0 <= i < n ==> Trace(ks, n, i, 0) == i;
  }

  lemma LevelAtNext(ks: seq<seq<int>>, n: nat, l: nat)
    requires Stack(ks, n) && l + 1 < |ks| && LevelAt(ks, n, l) && LevelDigits(DecodedRows(ks, n), l) == ks[l]
    ensures LevelAt(ks, n, l + 1)
  {
    hide Decoded, Level, Sorted, Move;
    var w := DecodedRows(ks, n);
    UniformAligned(w, |ks|, l);
    SortedAt(Level(w, l), l, ks[l]);
    forall i | 0 <= i < n
      ensures Trace(ks, n, i, l + 1) == Move(ks[l], Trace(ks, n, i, l))
    {}
  }

  /** Main result: the given levels are the levels of the decoded words. */
  lemma {:induction false} StackIsMatrix(ks: seq<seq<int>>, n: nat, l: nat)
    requires Stack(ks, n) && l < |ks|
    ensures LevelAt(ks, n, l) && LevelDigits(DecodedRows(ks, n), l) == ks[l]
  {
    hide LevelAt, LevelDigits, DecodedRows;
    if l == 0 {
      LevelAtZero(ks, n);
    } else {
      StackIsMatrix(ks, n, l - 1);
      LevelAtNext(ks, n, l - 1);
    }
    LevelDigitsAre(ks, n, l);
  }

  /** The words of the decoded text are the decoded words. */
  lemma DecodedTextRows(ks: seq<seq<int>>, n: nat)
    requires Stack(ks, n)
    ensures Rows(DecodedText(ks, n), |ks|) == DecodedRows(ks, n)
  {
    var s := DecodedText(ks, n);
    forall i | 0 <= i < n
      ensures SymbolWord(s[i], |ks|) == Decoded(ks, n, i)
    {
      CodeWordOfValue(Decoded(ks, n, i));
    }
  }
}
