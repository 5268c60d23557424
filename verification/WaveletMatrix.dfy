/**
 Why descending a wavelet matrix by ranks works: the node of a prefix is a
 contiguous interval of its level, the child of an interval is found by two
 ranks, and rows whose word has ended are exactly those that fall past the end
 of the next level.
 */
module WaveletMatrix {
  import opened RankSelect
  import opened StablePartition
  import opened Words
  import opened Wrappers

  /** A position of level `l` after following digit `d`. */
  ghost function Child(k: seq<int>, d: nat, i: nat): nat
    requires i <= |k|
  {
    OccsBelow(k, d) + Rank(k, d, i)
  }

  /**
   `n` is the initial part of the four-way partition of `v` by digit `l`, and what
   lies behind it are the rows that ended. `get` recognises a finished word by
   nothing else.
   */
  ghost predicate Follows(v: seq<Word>, n: seq<Word>, l: nat)
    requires Deep(v, l)
  {
    && n <= Sorted(v, l)
    && Deep(n, l + 1)
    && forall i :: |n| <= i < |Sorted(v, l)| ==> |Sorted(v, l)[i]| == l + 1
  }

  /** Every level of the matrix of `w` is followed by the next one. */
  ghost predicate Aligned(w: seq<Word>) {
    forall l: nat :: Follows(Level(w, l), Level(w, l + 1), l)
  }

  ghost predicate PrefixFree(w: seq<Word>) {
    forall i, j :: 0 <= i < |w| && 0 <= j < |w| && w[i] <= w[j] ==> w[i] == w[j]
  }

  /** Interval `[a, e)` of `v` holds, in order, the rows of `x` that begin with `p`. */
  ghost predicate Holds(v: seq<Word>, x: seq<Word>, p: Word, a: nat, e: nat) {
    a <= e <= |v| && v[a..e] == WithPrefix(x, p)
  }

  /** The root interval. */
  lemma HoldsRoot(w: seq<Word>, i: nat)
    requires i <= |w|
    ensures Holds(w, w[..i], [], 0, i)
  {
    WithEmptyPrefix(w[..i]);
  }

  lemma {:induction false} WithEmptyPrefix(v: seq<Word>)
    ensures WithPrefix(v, []) == v
  {
    if |v| > 0 {
      WithEmptyPrefix(v[..|v| - 1]);
    }
  }

  /** One step down: the child interval in the partition of the level. */
  lemma NodeStep(v: seq<Word>, x: seq<Word>, p: Word, d: nat, a: nat, e: nat)
    requires Deep(v, |p|) && AllQuaternary(v) && d < 4
    requires Holds(v, x, p, a, e)
    ensures var k := Digits(v, |p|);
      Child(k, d, a) <= Child(k, d, e) && Holds(Sorted(v, |p|), x, p + [d], Child(k, d, a), Child(k, d, e))
  {
    hide Partition, Bucket, WithPrefix, Rank, OccsBelow;
    var l, k, f := |p|, Digits(v, |p|), WithPrefix(x, p);
    assert Deep(f, l);
    assert k[a..e] == Digits(f, l);
    OccsBelowTotal(k, 4);
    IntervalStep(v, k, 4, d, a, e);
    var a', e' := Child(k, d, a), Child(k, d, e);
    assert Sorted(v, l)[a'..e'] == Bucket(f, Digits(f, l), d);
    PrefixStep(x, p, d);
  }

  /** The child interval is an interval of the next level, if it ends inside it. */
  lemma LandIn(v: seq<Word>, n: seq<Word>, x: seq<Word>, p: Word, d: nat, a: nat, e: nat)
    requires Deep(v, |p|) && AllQuaternary(v) && d < 4 && n <= Sorted(v, |p|)
    requires Holds(v, x, p, a, e)
    requires Child(Digits(v, |p|), d, e) <= |n|
    ensures Holds(n, x, p + [d], Child(Digits(v, |p|), d, a), Child(Digits(v, |p|), d, e))
  {
    NodeStep(v, x, p, d, a, e);
    InitialSlice(n, Sorted(v, |p|), Child(Digits(v, |p|), d, a), Child(Digits(v, |p|), d, e));
  }

  lemma InitialSlice<T>(n: seq<T>, s: seq<T>, a: nat, e: nat)
    requires n <= s && a <= e <= |n|
    ensures n[a..e] == s[a..e]
  {}

  /** It does end inside the next level when it holds a row and every such row goes on. */
  lemma LandsInside(v: seq<Word>, n: seq<Word>, x: seq<Word>, p: Word, d: nat, a: nat, e: nat)
    requires Deep(v, |p|) && AllQuaternary(v) && d < 4 && Follows(v, n, |p|)
    requires Holds(v, x, p, a, e)
    requires |WithPrefix(x, p + [d])| > 0 && Deep(WithPrefix(x, p + [d]), |p| + 1)
    ensures Child(Digits(v, |p|), d, e) <= |n|
  {
    NodeStep(v, x, p, d, a, e);
    var s, f := Sorted(v, |p|), WithPrefix(x, p + [d]);
    var a', e' := Child(Digits(v, |p|), d, a), Child(Digits(v, |p|), d, e);
    assert s[e' - 1] == s[a'..e'][e' - 1 - a'] == f[|f| - 1];
  }

  /** A single row moves to the place of its child; past the next level exactly when its word ends. */
  lemma RowStep(v: seq<Word>, n: seq<Word>, l: nat, i: nat)
    requires Deep(v, l) && AllQuaternary(v) && Follows(v, n, l) && i < |v|
    ensures var k := Digits(v, l); var q := Child(k, v[i][l], i);
      && q < |v|
      && (q < |n| <==> |v[i]| > l + 1)
      && (q < |n| ==> n[q] == v[i])
  {
    var k := Digits(v, l);
    SortedElements(v, l);
    MoveStep(v, k, 4, i);
    assert Sorted(v, l)[Child(k, k[i], i)] == v[i];
  }

  // ---- Ranks and selects, one level up ----

  /**
   Rows of `x` beginning with `p`, seen from the rows that begin with `p` and `d`:
   an occurrence of a word `c` sits at the row the digit-rank names, with as many
   occurrences of `c` before it.
   */
  lemma {:induction false} FilterRank(f: seq<Word>, l: nat, c: Word, i: nat)
    requires Deep(f, l) && |c| > l && i <= |f|
    ensures var k := Digits(f, l); var g := Bucket(f, k, c[l]);
      Rank(k, c[l], i) <= |g| && Rank(g, c, Rank(k, c[l], i)) == Rank(f, c, i)
  {
    var k := Digits(f, l);
    RankMonotone(k, c[l], i, |f|);
    if i > 0 {
      FilterRank(f, l, c, i - 1);
      if k[i - 1] == c[l] {
        BucketAt(f, k, i - 1);
      }
    }
  }

  /** Rows that begin with the whole of `c`, when no other word of `x` does. */
  lemma {:induction false} WithWholePrefix(x: seq<Word>, c: Word)
    requires forall i :: 0 <= i < |x| && c <= x[i] ==> x[i] == c
    ensures |WithPrefix(x, c)| == Occs(x, c)
    ensures forall i :: 0 <= i < |WithPrefix(x, c)| ==> WithPrefix(x, c)[i] == c
  {
    if |x| > 0 {
      WithWholePrefix(x[..|x| - 1], c);
      RankPrefix(x, x[..|x| - 1], c, |x| - 1);
    }
  }

  lemma {:induction false} WithPrefixElements(x: seq<Word>, p: Word)
    ensures forall r :: r in WithPrefix(x, p) <==> r in x && p <= r
  {
    if |x| > 0 {
      WithPrefixElements(x[..|x| - 1], p);
      assert x == x[..|x| - 1] + [x[|x| - 1]];
    }
  }

  /** Every row that shares a proper prefix of one of the words goes on beyond it. */
  lemma NodeDeep(w: seq<Word>, x: seq<Word>, c: Word, l: nat)
    requires PrefixFree(w) && c in w && l < |c|
    requires forall r :: r in x ==> r in w
    ensures Deep(WithPrefix(x, c[..l]), l)
  {
    var f := WithPrefix(x, c[..l]);
    WithPrefixElements(x, c[..l]);
    forall i | 0 <= i < |f|
      ensures |f[i]| > l
    {
      var r := f[i];
      assert r in f && r in w;
      ShorterPrefix(r, c, l);
    }
  }

  lemma ShorterPrefix(r: Word, c: Word, l: nat)
    requires l <= |c| && c[..l] <= r
    ensures |r| <= l ==> r <= c
  {}

  /**
   `r` is where occurrence `k` of `c` stands among the rows of `x` that begin with
   `p`; an index past those rows means that there is no such occurrence.
   */
  ghost predicate Lifted(x: seq<Word>, p: Word, c: Word, k: nat, r: nat) {
    var f := WithPrefix(x, p);
    if r < |f| then f[r] == c && Rank(f, c, r) == k else Occs(x, c) <= k
  }

  /** Among the rows that are the whole word, occurrence `k` stands at index `k`. */
  lemma LiftedLeaf(x: seq<Word>, c: Word, k: nat)
    requires forall i :: 0 <= i < |x| && c <= x[i] ==> x[i] == c
    ensures Lifted(x, c, c, k, k)
  {
    WithWholePrefix(x, c);
    var f := WithPrefix(x, c);
    if k < |f| {
      AllEqualRank(f, c, k);
    }
  }

  /** One step up: `select` on the digits of a level, relative to the start of the node. */
  lemma SelectUp(v: seq<Word>, x: seq<Word>, p: Word, c: Word, b: nat, e: nat, k: nat, r: nat, pos: Option<nat>)
    requires Deep(v, |p|) && AllQuaternary(v) && |p| < |c| && p == c[..|p|] && 0 <= c[|p|] < 4
    requires Holds(v, x, p, b, e) && Lifted(x, p + [c[|p|]], c, k, r)
    requires SelectSpec(Digits(v, |p|), c[|p|], Rank(Digits(v, |p|), c[|p|], b) + r, pos)
    ensures pos.None? ==> Occs(x, c) <= k
    ensures pos.Some? ==> b <= pos.value < |v| && Lifted(x, p, c, k, pos.value - b)
  {
    var d, ks := c[|p|], Digits(v, |p|);
    ChildCount(v, x, p, d, b, e);
    hide WithPrefix;
    RankMonotone(ks, d, e, |v|);
    if pos.Some? {
      SelectBracket(ks, d, Rank(ks, d, b) + r, pos.value, b);
      if pos.value < e {
        RankStrict(ks, d, pos.value, e);
        SelectInside(v, x, p, c, b, e, k, r, pos.value);
      } else {
        SelectBracket(ks, d, Rank(ks, d, b) + r, pos.value, e);
        assert pos.value - b >= |WithPrefix(x, p)|;
      }
    }
  }

  lemma ChildCount(v: seq<Word>, x: seq<Word>, p: Word, d: nat, b: nat, e: nat)
    requires Deep(v, |p|) && AllQuaternary(v) && d < 4 && Holds(v, x, p, b, e)
    ensures |WithPrefix(x, p + [d])| == Rank(Digits(v, |p|), d, e) - Rank(Digits(v, |p|), d, b)
  {
    NodeStep(v, x, p, d, b, e);
  }

  lemma SelectInside(v: seq<Word>, x: seq<Word>, p: Word, c: Word, b: nat, e: nat, k: nat, r: nat, q: nat)
    requires Deep(v, |p|) && |p| < |c| && p == c[..|p|]
    requires Holds(v, x, p, b, e) && Lifted(x, p + [c[|p|]], c, k, r)
    requires b <= q < e && IsSelect(Digits(v, |p|), c[|p|], Rank(Digits(v, |p|), c[|p|], b) + r, q)
    requires r < |WithPrefix(x, p + [c[|p|]])|
    ensures Lifted(x, p, c, k, q - b)
  {
    hide WithPrefix, Rank, Bucket;
    var l, d, f := |p|, c[|p|], WithPrefix(x, p);
    assert Deep(f, l);
    WindowRank(v, f, l, d, b, q);
    assert f[q - b] == v[q];
    PrefixStep(x, p, d);
    FilterAt(f, l, c, q - b);
  }

  lemma WindowRank(v: seq<Word>, f: seq<Word>, l: nat, d: int, b: nat, q: nat)
    requires Deep(v, l) && Deep(f, l) && b <= q <= b + |f| <= |v| && f == v[b..b + |f|]
    ensures Rank(Digits(v, l), d, b) <= Rank(Digits(v, l), d, q)
    ensures Rank(Digits(f, l), d, q - b) == Rank(Digits(v, l), d, q) - Rank(Digits(v, l), d, b)
  {
    RankWindow(Digits(v, l), Digits(f, l), b, d, q - b);
  }

  lemma FilterAt(f: seq<Word>, l: nat, c: Word, i: nat)
    requires Deep(f, l) && |c| > l && i < |f| && f[i][l] == c[l]
    ensures var k := Digits(f, l); var g := Bucket(f, k, c[l]); var j := Rank(k, c[l], i);
      j < |g| && g[j] == f[i] && Rank(g, c, j) == Rank(f, c, i)
  {
    BucketAt(f, Digits(f, l), i);
    FilterRank(f, l, c, i);
  }

  // ---- Words of one common length: the plain tree ----

  ghost predicate Uniform(w: seq<Word>, n: nat) {
    forall i :: 0 <= i < |w| ==> |w[i]| == n
  }

  lemma UniformNext(v: seq<Word>, n: nat, l: nat)
    requires Deep(v, l) && AllQuaternary(v) && Uniform(v, n)
    ensures NextLevel(v, l + 1) == if l + 1 < n then Sorted(v, l) else []
    ensures Uniform(NextLevel(v, l + 1), n)
    ensures l + 1 < n ==> |NextLevel(v, l + 1)| == |v|
  {
    UniformContinuing(v, n, l + 1);
    if |v| > 0 {
      assert l < |v[0]| == n;
    }
    UniformSorted(v, n, l);
    OccsBelowEmpty(4);
  }

  lemma {:induction false} UniformLevel(w: seq<Word>, n: nat, l: nat)
    requires Deep(w, 0) && AllQuaternary(w) && Uniform(w, n)
    ensures Uniform(Level(w, l), n) && AllQuaternary(Level(w, l))
    ensures l < n ==> |Level(w, l)| == |w|
  {
    hide NextLevel, Continuing;
    LevelZero(w);
    LevelElements(w, l);
    if l > 0 {
      UniformLevel(w, n, l - 1);
      UniformNext(Level(w, l - 1), n, l - 1);
    }
  }

  lemma UniformAligned(w: seq<Word>, n: nat, l: nat)
    requires Deep(w, 0) && AllQuaternary(w) && Uniform(w, n)
    ensures Level(w, l + 1) == if l + 1 < n then Sorted(Level(w, l), l) else []
  {
    hide NextLevel;
    UniformLevel(w, n, l);
    UniformNext(Level(w, l), n, l);
  }

  lemma {:induction false} UniformContinuing(v: seq<Word>, n: nat, l: nat)
    requires Uniform(v, n)
    ensures Continuing(v, l) == if l < n then v else []
  {
    if |v| > 0 {
      UniformContinuing(v[..|v| - 1], n, l);
    }
  }

  lemma UniformSorted(v: seq<Word>, n: nat, l: nat)
    requires AllQuaternary(v) && Uniform(v, n) && Deep(v, l)
    ensures Uniform(Sorted(v, l), n) && |Sorted(v, l)| == |v|
  {
    SortedElements(v, l);
    var s := Sorted(v, l);
    forall i | 0 <= i < |s|
      ensures |s[i]| == n
    {
      assert s[i] in v;
    }
  }
}
