/**
 The property of the wavelet-matrix code that `get` depends on: read from its
 last digit to its first, every finished code is larger than every code that is
 still open at its depth. A level is sorted by that reading, so finished rows
 always form its end.
 */
module CodeOrder {
  import opened RankSelect
  import opened StablePartition
  import opened Words
  import opened WaveletMatrix
  import opened Arithmetic

  /** The value of a word read from its last digit to its first. */
  ghost function Key(p: Word): int {
    if |p| == 0 then 0 else Key(p[..|p| - 1]) + p[|p| - 1] * Pow4(|p| - 1)
  }

  /** Finished words exceed every longer word at their own depth. */
  ghost predicate FinishedLast(w: seq<Word>) {
    forall i, j :: 0 <= i < |w| && 0 <= j < |w| && |w[i]| < |w[j]| ==> Key(w[i]) > Key(w[j][..|w[i]|])
  }

  /** Rows ordered by the reversed value of their first `l` digits. */
  ghost predicate KeySorted(v: seq<Word>, l: nat) {
    && (forall i :: 0 <= i < |v| ==> |v[i]| >= l)
    && forall i, j :: 0 <= i < j < |v| ==> Key(v[i][..l]) <= Key(v[j][..l])
  }

  lemma {:induction false} KeyBound(p: Word)
    requires Quaternary(p)
    ensures 0 <= Key(p) < Pow4(|p|)
  {
    if |p| > 0 {
      var n := |p| - 1;
      KeyBound(p[..n]);
      TopDigit(Key(p[..n]), p[n], 0, 4, Pow4(n));
      MultipleAtLeast(p[n], Pow4(n));
    }
  }

  /** A digit added at the end is the most significant one of the key. */
  lemma KeyPush(x: Word, l: nat)
    requires l < |x|
    ensures Key(x[..l + 1]) == Key(x[..l]) + x[l] * Pow4(l)
  {
    assert x[..l + 1][..l] == x[..l];
  }

  /** Equal keys of equal length mean equal words. */
  lemma {:induction false} KeyInjective(p: Word, q: Word)
    requires Quaternary(p) && Quaternary(q) && |p| == |q| && Key(p) == Key(q)
    ensures p == q
  {
    if |p| > 0 {
      var n := |p| - 1;
      KeyBound(p[..n]);
      KeyBound(q[..n]);
      TopDigit(Key(p[..n]), p[n], Key(q[..n]), q[n], Pow4(n));
      TopDigit(Key(q[..n]), q[n], Key(p[..n]), p[n], Pow4(n));
      KeyInjective(p[..n], q[..n]);
      assert p == p[..n] + [p[n]] && q == q[..n] + [q[n]];
    }
  }

  lemma TopDigit(a: int, d: int, b: int, e: int, m: nat)
    requires 0 <= a < m && 0 <= b < m
    ensures d < e ==> a + d * m < b + e * m
  {
    if d < e {
      MultipleAtLeast(e - d - 1, m);
      assert e * m == d * m + m + (e - d - 1) * m;
    }
  }

  /** The stable partition of rows sorted by `l` digits is sorted by `l + 1` digits. */
  lemma SortedByNextDigit(v: seq<Word>, l: nat)
    requires Deep(v, l) && AllQuaternary(v) && KeySorted(v, l)
    ensures KeySorted(Sorted(v, l), l + 1)
  {
    var s, k := Sorted(v, l), Digits(v, l);
    SortedElements(v, l);
    forall i, j | 0 <= i < j < |s|
      ensures Key(s[i][..l + 1]) <= Key(s[j][..l + 1])
    {
      OrderedPair(v, l, i, j);
    }
  }

  lemma OrderedPair(v: seq<Word>, l: nat, i: nat, j: nat)
    requires Deep(v, l) && AllQuaternary(v) && KeySorted(v, l)
    requires |Sorted(v, l)| == |v| && i < j < |v|
    requires |Sorted(v, l)[i]| > l && |Sorted(v, l)[j]| > l
    ensures Key(Sorted(v, l)[i][..l + 1]) <= Key(Sorted(v, l)[j][..l + 1])
  {
    var s, k := Sorted(v, l), Digits(v, l);
    var a := Origin(v, l, i);
    var b := Origin(v, l, j);
    MoveOrder(k, a, b);
    KeyPush(s[i], l);
    KeyPush(s[j], l);
    KeyBound(s[i][..l]);
    KeyBound(s[j][..l]);
    if k[a] < k[b] {
      TopDigit(Key(s[i][..l]), k[a], Key(s[j][..l]), k[b], Pow4(l));
    }
  }

  /** Rows keep the order of their digits, and within a digit their own. */
  lemma MoveOrder(k: seq<int>, a: nat, b: nat)
    requires a < |k| && b < |k| && 0 <= k[a] && 0 <= k[b] && Move(k, a) < Move(k, b)
    ensures k[a] < k[b] || (k[a] == k[b] && a < b)
  {
    if k[b] < k[a] {
      RankStrict(k, k[b], b, |k|);
      OccsBelowMonotone(k, k[b], k[a]);
    } else if k[a] == k[b] && b <= a {
      RankMonotone(k, k[a], b, a);
    }
  }

  lemma Origin(v: seq<Word>, l: nat, q: nat) returns (i: nat)
    requires Deep(v, l) && AllQuaternary(v) && q < |Sorted(v, l)|
    ensures i < |v| && 0 <= Digits(v, l)[i] < 4 && Move(Digits(v, l), i) == q && Sorted(v, l)[q] == v[i]
  {
    i := MoveSurjective(Digits(v, l), 4, q);
    MoveStep(v, Digits(v, l), 4, i);
  }

  // ---- Finished rows form a suffix ----

  /** No row of length `l` or less comes before a row that has a digit number `l`. */
  ghost predicate EndedLast(s: seq<Word>, l: nat) {
    forall i, j :: 0 <= i < j < |s| && |s[j]| > l ==> |s[i]| > l
  }

  lemma {:induction false} ContinuingIsInitial(s: seq<Word>, l: nat)
    requires EndedLast(s, l)
    ensures Continuing(s, l) <= s
    ensures forall i :: |Continuing(s, l)| <= i < |s| ==> |s[i]| <= l
  {
    if |s| > 0 {
      var n := |s| - 1;
      if |s[n]| > l {
        ContinuingAll(s, l);
      } else {
        ContinuingIsInitial(s[..n], l);
      }
    }
  }

  /** Dropping the finished rows before or after partitioning is the same. */
  lemma {:induction false} ContinuingBucket(v: seq<Word>, l: nat, d: int)
    requires Deep(v, l)
    ensures Continuing(Bucket(v, Digits(v, l), d), l + 1)
         == Bucket(Continuing(v, l + 1), Digits(Continuing(v, l + 1), l), d)
  {
    if |v| > 0 {
      var n := |v| - 1;
      var v', x := v[..n], v[n];
      ContinuingBucket(v', l, d);
      DigitsPush(v', x, l);
      assert v == v' + [x];
      BucketPush(v', Digits(v', l), x, x[l], d);
      ContinuingPush(v', x, l + 1);
      ContinuingBucketPush(v', x, l, d);
    }
  }

  lemma ContinuingBucketPush(v: seq<Word>, x: Word, l: nat, d: int)
    requires Deep(v, l) && |x| > l
    ensures Continuing(Bucket(v, Digits(v, l), d) + (if x[l] == d then [x] else []), l + 1)
         == Continuing(Bucket(v, Digits(v, l), d), l + 1) + if x[l] == d && |x| > l + 1 then [x] else []
    ensures var c, c' := Continuing(v, l + 1), Continuing(v, l + 1) + (if |x| > l + 1 then [x] else []);
      Bucket(c', Digits(c', l), d) == Bucket(c, Digits(c, l), d) + if x[l] == d && |x| > l + 1 then [x] else []
  {
    var b, c := Bucket(v, Digits(v, l), d), Continuing(v, l + 1);
    if x[l] == d {
      ContinuingPush(b, x, l + 1);
    } else {
      assert b + [] == b;
    }
    if |x| > l + 1 {
      DigitsPush(c, x, l);
      BucketPush(c, Digits(c, l), x, x[l], d);
    } else {
      assert c + [] == c;
    }
  }

  lemma DigitsPush(v: seq<Word>, x: Word, l: nat)
    requires Deep(v, l) && |x| > l
    ensures Deep(v + [x], l) && Digits(v + [x], l) == Digits(v, l) + [x[l]]
  {}

  lemma ContinuingPush(v: seq<Word>, x: Word, l: nat)
    ensures Continuing(v + [x], l) == Continuing(v, l) + if |x| > l then [x] else []
  {
    assert (v + [x])[..|v|] == v;
  }

  lemma {:induction false} ContinuingConcat(v: seq<Word>, u: seq<Word>, l: nat)
    ensures Continuing(v + u, l) == Continuing(v, l) + Continuing(u, l)
  {
    if |u| == 0 {
      assert v + u == v;
    } else {
      var n := |u| - 1;
      var u', x := u[..n], u[n];
      ContinuingConcat(v, u', l);
      assert v + u == (v + u') + [x];
      ContinuingPush(v + u', x, l);
    }
  }

  lemma ContinuingNone(l: nat)
    ensures Continuing([], l) == []
  {}

  lemma {:induction false} ContinuingPartition(v: seq<Word>, l: nat, k: nat)
    requires Deep(v, l)
    ensures Continuing(Partition(v, Digits(v, l), k), l + 1)
         == Partition(Continuing(v, l + 1), Digits(Continuing(v, l + 1), l), k)
  {
    hide Continuing, Bucket;
    if k == 0 {
      ContinuingNone(l + 1);
    } else {
      ContinuingPartition(v, l, k - 1);
      ContinuingBucket(v, l, k - 1);
      ContinuingConcat(Partition(v, Digits(v, l), k - 1), Bucket(v, Digits(v, l), k - 1), l + 1);
    }
  }

  /** Rows sorted by the digits read so far, none of whose finished words is exceeded, have the finished ones last. */
  lemma SortedFollows(v: seq<Word>, l: nat)
    requires Deep(v, l) && AllQuaternary(v) && KeySorted(v, l) && FinishedLast(v)
    ensures Follows(v, NextLevel(v, l + 1), l)
    ensures KeySorted(NextLevel(v, l + 1), l + 1)
  {
    hide Continuing, Partition, Bucket, Digits;
    var s := Sorted(v, l);
    SortedByNextDigit(v, l);
    SortedElements(v, l);
    forall i, j | 0 <= i < j < |s| && |s[j]| > l + 1
      ensures |s[i]| > l + 1
    {
      assert s[i] in v && s[j] in v;
      assert s[i][..l + 1] == s[i] || |s[i]| > l + 1;
    }
    ContinuingIsInitial(s, l + 1);
    ContinuingPartition(v, l, 4);
  }

  lemma FinishedLastElements(w: seq<Word>, v: seq<Word>)
    requires FinishedLast(w) && forall x :: x in v ==> x in w
    ensures FinishedLast(v)
  {
    forall i, j | 0 <= i < |v| && 0 <= j < |v| && |v[i]| < |v[j]|
      ensures Key(v[i]) > Key(v[j][..|v[i]|])
    {
      assert v[i] in w && v[j] in w;
    }
  }

  /** Every level of the matrix is sorted by the reversed value of the digits above it. */
  lemma {:induction false} LevelKeySorted(w: seq<Word>, l: nat)
    requires Deep(w, 0) && AllQuaternary(w) && FinishedLast(w)
    ensures KeySorted(Level(w, l), l)
  {
    hide NextLevel, Continuing, FinishedLast, Sorted;
    LevelZero(w);
    if l == 0 {
      KeySortedRoot(w);
    } else {
      LevelKeySorted(w, l - 1);
      LevelElements(w, l - 1);
      FinishedLastElements(w, Level(w, l - 1));
      SortedFollows(Level(w, l - 1), l - 1);
    }
  }

  lemma KeySortedRoot(w: seq<Word>)
    ensures KeySorted(w, 0)
  {}

  /** Main result: with such a code, rows past the end of the next level are exactly the finished ones. */
  lemma CodeOrderAligns(w: seq<Word>)
    requires Deep(w, 0) && AllQuaternary(w) && FinishedLast(w)
    ensures Aligned(w)
  {
    forall l: nat
      ensures Follows(Level(w, l), Level(w, l + 1), l)
    {
      hide NextLevel, Continuing, FinishedLast, KeySorted, Follows;
      LevelKeySorted(w, l);
      LevelElements(w, l);
      FinishedLastElements(w, Level(w, l));
      SortedFollows(Level(w, l), l);
    }
  }

  /** The same order makes the code prefix-free. */
  lemma FinishedLastPrefixFree(w: seq<Word>)
    requires FinishedLast(w)
    ensures PrefixFree(w)
  {
    forall i, j | 0 <= i < |w| && 0 <= j < |w| && w[i] <= w[j]
      ensures w[i] == w[j]
    {
      assert w[j][..|w[i]|] == w[i];
    }
  }
}
