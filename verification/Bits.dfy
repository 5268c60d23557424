/** 128-bit words as sequences of bits, lowest bit first. */
module Bits {
  import opened RankSelect

  type Bits128 = b: seq<bool> | |b| == 128 witness seq(128, _ => false)

  function Repeat(b: bool): (r: Bits128)
    ensures forall i :: 0 <= i < 128 ==> r[i] == b
  {
    seq(128, _ => b)
  }

  function Xor(a: Bits128, b: Bits128): (r: Bits128)
    ensures forall i :: 0 <= i < 128 ==> r[i] == (a[i] != b[i])
  {
    seq(128, i requires 0 <= i < 128 => a[i] != b[i])
  }

  function And(a: Bits128, b: Bits128): (r: Bits128)
    ensures forall i :: 0 <= i < 128 ==> r[i] == (a[i] && b[i])
  {
    seq(128, i requires 0 <= i < 128 => a[i] && b[i])
  }

  /** `(1 << offset) - 1`: the bits below `offset`. */
  function LowMask(offset: nat): (r: Bits128)
    ensures forall i :: 0 <= i < 128 ==> r[i] == (i < offset)
  {
    seq(128, i => i < offset)
  }

  /** `MAX << offset`: the bits from `offset` on. */
  function HighMask(offset: nat): (r: Bits128)
    ensures forall i :: 0 <= i < 128 ==> r[i] == (i >= offset)
  {
    seq(128, i => i >= offset)
  }

  function CountOnes(w: seq<bool>): nat {
    Occs(w, true)
  }

  /** The population count of the low bits of a word is a rank. */
  lemma {:induction false} CountBelow(w: Bits128, m: Bits128, offset: nat, i: nat)
    requires offset <= 128 && i <= 128 && m == LowMask(offset)
    ensures Rank(And(w, m), true, i) == Rank(w, true, if i <= offset then i else offset)
  {
    if i > 0 {
      CountBelow(w, m, offset, i - 1);
    }
  }

  lemma {:induction false} CountFrom(w: Bits128, m: Bits128, offset: nat, i: nat)
    requires offset <= i <= 128 && m == HighMask(offset)
    ensures Rank(w, true, offset) <= Rank(w, true, i)
    ensures Rank(And(w, m), true, i) == Rank(w, true, i) - Rank(w, true, offset)
  {
    RankMonotone(w, true, offset, i);
    if i == offset {
      NoneBelow(And(w, m), offset);
    } else {
      CountFrom(w, m, offset, i - 1);
    }
  }

  lemma {:induction false} NoneBelow(w: seq<bool>, i: nat)
    requires i <= |w| && forall k :: 0 <= k < i ==> !w[k]
    ensures Rank(w, true, i) == 0
  {
    if i > 0 {
      NoneBelow(w, i - 1);
    }
  }

  /** Position of the set bit with `k` set bits below it; the width of the word if there is none. */
  method SelectInWord(word: seq<bool>, k: nat) returns (p: nat)
    ensures k < CountOnes(word) ==> IsSelect(word, true, k, p)
    ensures k >= CountOnes(word) ==> p == |word|
  {
    p := 0;
    var seen := 0;
    while p < |word|
      invariant 0 <= p <= |word|
      invariant seen == Rank(word, true, p) && seen <= k
    {
      if word[p] {
        if seen == k {
          RankStrict(word, true, p, |word|);
          return;
        }
        seen := seen + 1;
      }
      p := p + 1;
    }
  }

  /** The 128-bit form: two 64-bit halves, the low one first. */
  method SelectInWord128(word: Bits128, k: nat) returns (p: nat)
    ensures k < CountOnes(word) ==> IsSelect(word, true, k, p)
    ensures k >= CountOnes(word) ==> p == 128
  {
    var first, second := word[..64], word[64..];
    HalvesRank(word);
    var kp := CountOnes(first);
    if kp > k {
      p := SelectInWord(first, k);
      RankPrefix(word, first, true, p);
    } else {
      var q := SelectInWord(second, k - kp);
      p := 64 + q;
      RankPrefix(word, first, true, 64);
      RankSlice(word, true, 64, p);
      RankPrefix(word[64..p], second, true, q);
    }
  }

  lemma HalvesRank(word: Bits128)
    ensures CountOnes(word) == CountOnes(word[..64]) + CountOnes(word[64..])
  {
    RankPrefix(word, word[..64], true, 64);
    RankSlice(word, true, 64, 128);
    assert word[64..128] == word[64..];
  }

  /** `trailing_zeros`: position of the lowest set bit. */
  method TrailingZeros(word: Bits128) returns (p: nat)
    ensures CountOnes(word) > 0 ==> IsSelect(word, true, 0, p)
    ensures CountOnes(word) == 0 ==> p == 128
  {
    p := SelectInWord(word, 0);
  }

  lemma {:induction false} ZeroWord(word: seq<bool>, i: nat)
    requires i <= |word|
    ensures Rank(word, true, i) == 0 <==> forall k :: 0 <= k < i ==> !word[k]
  {
    if i > 0 {
      ZeroWord(word, i - 1);
    }
  }
}
