/**
 The stable partition of a sequence by small integer keys: the specification of
 one level of construction, and the map it induces on positions.
 */
module StablePartition {
  import opened RankSelect

  /** The elements of `s` whose key is `d`, in their original order. */
  ghost function Bucket<T>(s: seq<T>, keys: seq<int>, d: int): (r: seq<T>)
    requires |s| == |keys|
    ensures |r| == Occs(keys, d)
  {
    if |s| == 0 then []
    else
      RankPrefix(keys, keys[..|s| - 1], d, |s| - 1);
      Bucket(s[..|s| - 1], keys[..|s| - 1], d) + if keys[|s| - 1] == d then [s[|s| - 1]] else []
  }

  /** Buckets `0..k` one after the other. */
  ghost function Partition<T>(s: seq<T>, keys: seq<int>, k: nat): (r: seq<T>)
    requires |s| == |keys|
    ensures |r| == OccsBelow(keys, k)
  {
    if k == 0 then [] else Partition(s, keys, k - 1) + Bucket(s, keys, k - 1)
  }

  /** Number of keys smaller than `d`: where bucket `d` starts. */
  ghost function OccsBelow(keys: seq<int>, d: nat): nat {
    if d == 0 then 0 else OccsBelow(keys, d - 1) + Occs(keys, d - 1)
  }

  /** Every key is below `k`. */
  ghost predicate Bounded(keys: seq<int>, k: nat) {
    forall i :: 0 <= i < |keys| ==> 0 <= keys[i] < k
  }

  // ---- Buckets ----

  lemma {:induction false} BucketPrefix<T>(s: seq<T>, keys: seq<int>, d: int, i: nat)
    requires |s| == |keys| && i <= |s|
    ensures Rank(keys, d, i) <= Occs(keys, d)
    ensures Bucket(s[..i], keys[..i], d) == Bucket(s, keys, d)[..Rank(keys, d, i)]
  {
    RankMonotone(keys, d, i, |s|);
    if i == |s| {
      assert s[..i] == s && keys[..i] == keys;
    } else {
      var n := |s| - 1;
      BucketPrefix(s[..n], keys[..n], d, i);
      RankPrefix(keys, keys[..n], d, i);
      RankPrefix(keys, keys[..n], d, n);
      RankMonotone(keys, d, i, n);
      assert s[..n][..i] == s[..i] && keys[..n][..i] == keys[..i];
    }
  }

  /** The buckets as built one element at a time. */
  lemma BucketPush<T>(s: seq<T>, keys: seq<int>, x: T, key: int, d: int)
    requires |s| == |keys|
    ensures Bucket(s + [x], keys + [key], d) == Bucket(s, keys, d) + if key == d then [x] else []
  {
    assert (s + [x])[..|s|] == s && (keys + [key])[..|s|] == keys;
  }

  lemma {:induction false} BucketConcat<T>(s: seq<T>, t: seq<T>, ks: seq<int>, kt: seq<int>, d: int)
    requires |s| == |ks| && |t| == |kt|
    ensures Bucket(s + t, ks + kt, d) == Bucket(s, ks, d) + Bucket(t, kt, d)
  {
    if |t| == 0 {
      assert s + t == s && ks + kt == ks;
    } else {
      var n := |t| - 1;
      var t', kt', x, key := t[..n], kt[..n], t[n], kt[n];
      BucketConcat(s, t', ks, kt', d);
      assert s + t == (s + t') + [x] && ks + kt == (ks + kt') + [key];
      BucketPush(s + t', ks + kt', x, key, d);
      var tail := if key == d then [x] else [];
      assert Bucket(t, kt, d) == Bucket(t', kt', d) + tail;
      assert (Bucket(s, ks, d) + Bucket(t', kt', d)) + tail == Bucket(s, ks, d) + (Bucket(t', kt', d) + tail);
    }
  }

  /** A contiguous range of rows occupies a contiguous range of its bucket. */
  lemma BucketSlice<T>(s: seq<T>, keys: seq<int>, d: int, a: nat, e: nat)
    requires |s| == |keys| && a <= e <= |s|
    ensures Rank(keys, d, a) <= Rank(keys, d, e) <= Occs(keys, d)
    ensures Bucket(s[a..e], keys[a..e], d) == Bucket(s, keys, d)[Rank(keys, d, a)..Rank(keys, d, e)]
  {
    RankMonotone(keys, d, a, e);
    BucketPrefix(s, keys, d, e);
    BucketPrefix(s, keys, d, a);
    BucketSplit(s, keys, d, a, e);
    SplitSlice(Bucket(s, keys, d), Bucket(s[..a], keys[..a], d), Bucket(s[a..e], keys[a..e], d), Rank(keys, d, a), Rank(keys, d, e));
  }

  lemma BucketSplit<T>(s: seq<T>, keys: seq<int>, d: int, a: nat, e: nat)
    requires |s| == |keys| && a <= e <= |s|
    ensures Bucket(s[..a], keys[..a], d) + Bucket(s[a..e], keys[a..e], d) == Bucket(s[..e], keys[..e], d)
  {
    var s1, s2, k1, k2 := s[..a], s[a..e], keys[..a], keys[a..e];
    BucketConcat(s1, s2, k1, k2, d);
    assert s1 + s2 == s[..e];
    assert k1 + k2 == keys[..e];
  }

  lemma SplitSlice<T>(whole: seq<T>, l: seq<T>, r: seq<T>, i: nat, j: nat)
    requires i <= j <= |whole| && l == whole[..i] && l + r == whole[..j]
    ensures r == whole[i..j]
  {
    assert r == (l + r)[i..];
  }

  /** The element at row `i` is at index `rank` in its bucket. */
  lemma BucketAt<T>(s: seq<T>, keys: seq<int>, i: nat)
    requires |s| == |keys| && i < |s|
    ensures Rank(keys, keys[i], i) < Occs(keys, keys[i])
    ensures Bucket(s, keys, keys[i])[Rank(keys, keys[i], i)] == s[i]
  {
    var d := keys[i];
    RankStrict(keys, d, i, |s|);
    BucketPrefix(s, keys, d, i + 1);
    assert s[..i + 1][..i] == s[..i] && keys[..i + 1][..i] == keys[..i];
    RankPrefix(keys, keys[..i + 1], d, i + 1);
    RankPrefix(keys, keys[..i + 1], d, i);
    assert Bucket(s[..i + 1], keys[..i + 1], d) == Bucket(s[..i], keys[..i], d) + [s[i]];
    BucketPrefix(s, keys, d, i);
  }

  // ---- The whole partition ----

  lemma OccsBelowMonotone(keys: seq<int>, d: nat, k: nat)
    requires d < k
    ensures OccsBelow(keys, d) + Occs(keys, d) <= OccsBelow(keys, k)
  {
    if d < k - 1 {
      OccsBelowMonotone(keys, d, k - 1);
    }
  }

  lemma {:induction false} PartitionBucket<T>(s: seq<T>, keys: seq<int>, k: nat, d: nat)
    requires |s| == |keys| && d < k
    ensures OccsBelow(keys, d) + Occs(keys, d) <= OccsBelow(keys, k)
    ensures Partition(s, keys, k)[OccsBelow(keys, d)..OccsBelow(keys, d) + Occs(keys, d)] == Bucket(s, keys, d)
  {
    if d < k - 1 {
      PartitionBucket(s, keys, k - 1, d);
      assert Partition(s, keys, k)[..OccsBelow(keys, k - 1)] == Partition(s, keys, k - 1);
    }
  }

  /**
   The step every query takes: rows `[a, e)` with key `d` are found, in order, at
   `[below(d) + rank(d, a), below(d) + rank(d, e))` of the next level.
   */
  lemma IntervalStep<T>(s: seq<T>, keys: seq<int>, k: nat, d: nat, a: nat, e: nat)
    requires |s| == |keys| && d < k && a <= e <= |s|
    ensures OccsBelow(keys, d) + Rank(keys, d, a) <= OccsBelow(keys, d) + Rank(keys, d, e) <= OccsBelow(keys, k)
    ensures Partition(s, keys, k)[OccsBelow(keys, d) + Rank(keys, d, a)..OccsBelow(keys, d) + Rank(keys, d, e)]
         == Bucket(s[a..e], keys[a..e], d)
  {
    hide Partition, Bucket, OccsBelow, Rank;
    PartitionBucket(s, keys, k, d);
    BucketSlice(s, keys, d, a, e);
    SubSlice(Partition(s, keys, k), OccsBelow(keys, d), Occs(keys, d), Rank(keys, d, a), Rank(keys, d, e));
  }

  lemma SubSlice<T>(p: seq<T>, lo: nat, n: nat, i: nat, j: nat)
    requires lo + n <= |p| && i <= j <= n
    ensures p[lo..lo + n][i..j] == p[lo + i..lo + j]
  {
    var x, y := p[lo..lo + n][i..j], p[lo + i..lo + j];
    forall q | 0 <= q < |x|
      ensures x[q] == y[q]
    {
      assert p[lo..lo + n][i + q] == p[lo + i + q];
    }
  }

  /** The position a row moves to. */
  ghost function Move(keys: seq<int>, i: nat): nat
    requires i < |keys| && 0 <= keys[i]
  {
    OccsBelow(keys, keys[i]) + Rank(keys, keys[i], i)
  }

  lemma MoveStep<T>(s: seq<T>, keys: seq<int>, k: nat, i: nat)
    requires |s| == |keys| && i < |s| && 0 <= keys[i] < k
    ensures Move(keys, i) < OccsBelow(keys, k)
    ensures Partition(s, keys, k)[Move(keys, i)] == s[i]
  {
    hide Partition, Bucket, OccsBelow, Rank;
    PartitionBucket(s, keys, k, keys[i]);
    BucketAt(s, keys, i);
    SliceAt(Partition(s, keys, k), OccsBelow(keys, keys[i]), Occs(keys, keys[i]), Rank(keys, keys[i], i));
  }

  lemma SliceAt<T>(p: seq<T>, lo: nat, n: nat, j: nat)
    requires lo + n <= |p| && j < n
    ensures p[lo..lo + n][j] == p[lo + j]
  {}

  /** Positions of distinct rows stay distinct. */
  lemma MoveInjective(keys: seq<int>, i: nat, j: nat)
    requires i < j < |keys| && 0 <= keys[i] && 0 <= keys[j]
    ensures Move(keys, i) != Move(keys, j)
  {
    var a, b := keys[i], keys[j];
    if a == b {
      RankStrict(keys, a, i, j);
    } else if a < b {
      RankStrict(keys, a, i, |keys|);
      OccsBelowMonotone(keys, a, b);
      assert Move(keys, i) < OccsBelow(keys, b);
    } else {
      RankStrict(keys, b, j, |keys|);
      OccsBelowMonotone(keys, b, a);
      assert Move(keys, j) < OccsBelow(keys, a);
    }
  }

  /** Every position of the partition is the image of a row. */
  lemma {:induction false} MoveSurjective(keys: seq<int>, k: nat, q: nat) returns (i: nat)
    requires q < OccsBelow(keys, k)
    ensures i < |keys| && 0 <= keys[i] < k && Move(keys, i) == q
  {
    if q < OccsBelow(keys, k - 1) {
      i := MoveSurjective(keys, k - 1, q);
    } else {
      i := SelectWitness(keys, k - 1, q - OccsBelow(keys, k - 1), |keys|);
    }
  }

  /** With all keys below `k` the partition is a permutation: nothing is dropped. */
  lemma {:induction false} OccsBelowTotal(keys: seq<int>, k: nat)
    requires Bounded(keys, k)
    ensures OccsBelow(keys, k) == |keys|
  {
    if |keys| == 0 {
      OccsBelowEmpty(k);
    } else {
      var n := |keys| - 1;
      OccsBelowTotal(keys[..n], k);
      OccsBelowPush(keys[..n], keys[n], k);
      assert keys[..n] + [keys[n]] == keys;
    }
  }

  lemma OccsBelowEmpty(k: nat)
    ensures OccsBelow([], k) == 0
  {}

  lemma {:induction false} OccsBelowPush(keys: seq<int>, x: int, k: nat)
    ensures OccsBelow(keys + [x], k) == OccsBelow(keys, k) + if 0 <= x < k then 1 else 0
  {
    if k > 0 {
      OccsBelowPush(keys, x, k - 1);
      RankPrefix(keys + [x], keys, k - 1, |keys|);
    }
  }

  /**
   A sequence that holds `s[i]` at `Move(i)` for every row is the partition: the
   partition is determined by the position map.
   */
  lemma PartitionDetermined<T>(s: seq<T>, keys: seq<int>, k: nat, t: seq<T>)
    requires |s| == |keys| == |t| && Bounded(keys, k)
    requires forall i :: 0 <= i < |s| ==> Move(keys, i) < |t| && t[Move(keys, i)] == s[i]
    ensures t == Partition(s, keys, k)
  {
    OccsBelowTotal(keys, k);
    forall q | 0 <= q < |t|
      ensures t[q] == Partition(s, keys, k)[q]
    {
      var i := MoveSurjective(keys, k, q);
      MoveStep(s, keys, k, i);
    }
  }
}
