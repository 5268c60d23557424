/** Symbols of the plain tree as words of a common number of base-4 digits. */
module SymbolWords {
  import opened RankSelect
  import opened StablePartition
  import opened Arithmetic
  import opened Words
  import opened WaveletMatrix
  import opened CraftCodes
  import opened PartitionInto

  /** The `n` base-4 digits of a symbol, most significant first. */
  ghost function SymbolWord(x: nat, n: nat): (w: Word)
    ensures |w| == n && Quaternary(w)
  {
    CodeWord(PrefixCode(x, 2 * n))
  }

  lemma {:induction false} ValueOfSymbol(x: nat, n: nat)
    requires x < Pow4(n)
    ensures Value(SymbolWord(x, n)) == x
  {
    hide SymbolWord, Pow4;
    if n == 0 {
      OnlyZero(x);
    } else {
      QuarterBelow(x, n);
      ValueOfSymbol(x / 4, n - 1);
      SymbolWordSplit(x, n);
    }
  }

  lemma OnlyZero(x: nat)
    requires x < Pow4(0)
    ensures x == 0
  {}

  lemma QuarterBelow(x: nat, n: nat)
    requires n > 0 && x < Pow4(n)
    ensures x / 4 < Pow4(n - 1)
  {}

  lemma SymbolWordSplit(x: nat, n: nat)
    requires n > 0
    ensures SymbolWord(x, n)[..n - 1] == SymbolWord(x / 4, n - 1) && SymbolWord(x, n)[n - 1] == x % 4
  {
    var w, v := SymbolWord(x, n), SymbolWord(x / 4, n - 1);
    LastDigit(x, n);
    forall t | 0 <= t < n - 1
      ensures w[t] == v[t]
    {
      UpperDigit(x, n, t);
    }
  }

  lemma LastDigit(x: nat, n: nat)
    requires n > 0
    ensures SymbolWord(x, n)[n - 1] == x % 4
  {
    assert Pow4(0) == 1;
    assert (2 * n) / 2 == n;
  }

  lemma UpperDigit(x: nat, n: nat, t: nat)
    requires t + 1 < n
    ensures SymbolWord(x, n)[t] == SymbolWord(x / 4, n - 1)[t]
  {
    var p := Pow4(n - 2 - t);
    DivDiv(x, 4, p);
    PowUp(n - 2 - t);
    hide Pow4;
    assert SymbolWord(x, n)[t] == (x / Pow4(n - 1 - t)) % 4;
    assert SymbolWord(x / 4, n - 1)[t] == (x / 4 / p) % 4;
  }

  lemma PowUp(k: nat)
    ensures Pow4(k + 1) == 4 * Pow4(k)
  {}

  /** Different symbols have different words. */
  lemma SymbolWordInjective(x: nat, y: nat, n: nat)
    requires x < Pow4(n) && y < Pow4(n) && SymbolWord(x, n) == SymbolWord(y, n)
    ensures x == y
  {
    ValueOfSymbol(x, n);
    ValueOfSymbol(y, n);
  }

  ghost predicate Below(s: seq<nat>, bound: nat) {
    forall i :: 0 <= i < |s| ==> s[i] < bound
  }

  /** The largest symbol of a text. */
  ghost predicate MaxSymbol(s: seq<nat>, sigma: nat) {
    sigma in s && Below(s, sigma + 1)
  }

  ghost function Rows(s: seq<nat>, n: nat): (w: seq<Word>)
    ensures |w| == |s| && forall i :: 0 <= i < |s| ==> w[i] == SymbolWord(s[i], n)
  {
    seq(|s|, i requires 0 <= i < |s| => SymbolWord(s[i], n))
  }

  lemma RowsShape(s: seq<nat>, n: nat)
    requires n > 0
    ensures Deep(Rows(s, n), 0) && AllQuaternary(Rows(s, n)) && Uniform(Rows(s, n), n)
  {}

  /** Counting a symbol is counting its word. */
  lemma {:induction false} RankOfRows(s: seq<nat>, n: nat, c: nat, i: nat)
    requires Below(s, Pow4(n)) && c < Pow4(n) && i <= |s|
    ensures Rank(Rows(s, n), SymbolWord(c, n), i) == Rank<int>(s, c, i)
  {
    if i > 0 {
      RankOfRows(s, n, c, i - 1);
      if SymbolWord(s[i - 1], n) == SymbolWord(c, n) {
        SymbolWordInjective(s[i - 1], c, n);
      }
    }
  }

  /** The two bits that construction extracts at level `l` are digit `l` of the word. */
  lemma TwoBitsIsDigit(x: nat, n: nat, l: nat)
    requires l < n
    ensures TwoBits(x, 2 * (n - 1 - l)) == SymbolWord(x, n)[l]
  {}

  // ---- Number of levels ----

  /** Position of the highest set bit; 0 for 0. */
  function Msb(v: nat): nat {
    if v < 2 then 0 else 1 + Msb(v / 2)
  }

  /** `(msb(sigma) + 1).div_ceil(2)` */
  function LevelsFor(sigma: nat): nat {
    (Msb(sigma) + 2) / 2
  }

  /** The number of levels is the least that holds every symbol up to `sigma`. */
  lemma {:induction false} LevelsForSigma(sigma: nat)
    ensures LevelsFor(sigma) > 0 && sigma < Pow4(LevelsFor(sigma))
    ensures LevelsFor(sigma) > 1 ==> sigma >= Pow4(LevelsFor(sigma) - 1)
    decreases sigma
  {
    if sigma >= 4 {
      LevelsForSigma(sigma / 4);
      assert sigma / 2 / 2 == sigma / 4;
      assert Msb(sigma) == 2 + Msb(sigma / 4);
      var n := LevelsFor(sigma / 4);
      assert LevelsFor(sigma) == n + 1;
      assert Pow4(n + 1) == 4 * Pow4(n);
      assert n > 1 ==> Pow4(n) == 4 * Pow4(n - 1);
    } else {
      assert Pow4(1) == 4;
    }
  }

  /** Two bounds determine the number of levels. */
  lemma LevelsUnique(sigma: nat, n: nat)
    requires n > 0 && sigma < Pow4(n) && (n > 1 ==> sigma >= Pow4(n - 1))
    ensures n == LevelsFor(sigma)
  {
    LevelsForSigma(sigma);
    var m := LevelsFor(sigma);
    if m < n {
      Pow4Monotone(m, n - 1);
    } else if n < m {
      Pow4Monotone(n, m - 1);
    }
  }
}
