/**
 Rows of a wavelet matrix as words of base-4 digits, most significant first.

 Both trees of the library are one structure at this level: a level holds the
 rows whose word goes on, and the next level is the stable four-way partition
 of those that go on further. In the plain tree every word has the same length;
 in the Huffman-shaped one a word is the symbol's prefix code.
 */
module Words {
  import opened RankSelect
  import opened StablePartition

  type Word = seq<int>

  /** Every row has a digit number `l`. */
  ghost predicate Deep(v: seq<Word>, l: nat) {
    forall i :: 0 <= i < |v| ==> |v[i]| > l
  }

  ghost predicate Quaternary(w: Word) {
    forall t :: 0 <= t < |w| ==> 0 <= w[t] < 4
  }

  ghost predicate AllQuaternary(v: seq<Word>) {
    forall i :: 0 <= i < |v| ==> Quaternary(v[i])
  }

  /** Digit `l` of every row: the contents of the quad vector of a level. */
  ghost function Digits(v: seq<Word>, l: nat): (r: seq<int>)
    requires Deep(v, l)
    ensures |r| == |v|
    ensures forall i :: 0 <= i < |v| ==> r[i] == v[i][l]
  {
    seq(|v|, i requires 0 <= i < |v| => v[i][l])
  }

  /** The rows whose word has a digit number `l`, in order. */
  ghost function Continuing(v: seq<Word>, l: nat): (r: seq<Word>)
    ensures Deep(r, l)
  {
    if |v| == 0 then []
    else Continuing(v[..|v| - 1], l) + if |v[|v| - 1]| > l then [v[|v| - 1]] else []
  }

  /** The rows that begin with `p`, in order. */
  ghost function WithPrefix(v: seq<Word>, p: Word): (r: seq<Word>)
    ensures forall i :: 0 <= i < |r| ==> p <= r[i]
  {
    if |v| == 0 then []
    else WithPrefix(v[..|v| - 1], p) + if p <= v[|v| - 1] then [v[|v| - 1]] else []
  }

  /** The stable four-way partition of `v` by digit `l`. */
  ghost function Sorted(v: seq<Word>, l: nat): seq<Word>
    requires Deep(v, l)
  {
    Partition(v, Digits(v, l), 4)
  }

  /** The rows of level `l`, in the order in which the level stores them. */
  ghost function Level(w: seq<Word>, l: nat): (r: seq<Word>)
    ensures Deep(r, l)
  {
    if l == 0 then Continuing(w, 0) else NextLevel(Level(w, l - 1), l)
  }

  ghost function NextLevel(v: seq<Word>, l: nat): (r: seq<Word>)
    requires l > 0
    ensures Deep(r, l)
  {
    var c := Continuing(v, l);
    SortedDeep(c, l - 1, l);
    Sorted(c, l - 1)
  }

  /** The quad sequence of level `l`. */
  ghost function LevelDigits(w: seq<Word>, l: nat): (r: seq<int>)
    ensures |r| == |Level(w, l)|
  {
    Digits(Level(w, l), l)
  }

  // ---- Elements of filtered and partitioned rows ----

  lemma {:induction false} ContinuingElements(v: seq<Word>, l: nat)
    ensures forall x :: x in Continuing(v, l) <==> x in v && |x| > l
  {
    if |v| > 0 {
      ContinuingElements(v[..|v| - 1], l);
      assert v == v[..|v| - 1] + [v[|v| - 1]];
    }
  }

  /** A partition holds nothing that was not there. */
  lemma PartitionSubset<T>(s: seq<T>, keys: seq<int>, k: nat)
    requires |s| == |keys|
    ensures forall x :: x in Partition(s, keys, k) ==> x in s
  {
    var p := Partition(s, keys, k);
    forall x | x in p
      ensures x in s
    {
      var q :| 0 <= q < |p| && p[q] == x;
      var i := MoveSurjective(keys, k, q);
      MoveStep(s, keys, k, i);
    }
  }

  lemma SortedDeep(v: seq<Word>, l: nat, m: nat)
    requires Deep(v, l) && Deep(v, m)
    ensures Deep(Sorted(v, l), m)
  {
    PartitionSubset(v, Digits(v, l), 4);
    var r := Sorted(v, l);
    forall i | 0 <= i < |r|
      ensures |r[i]| > m
    {
      assert r[i] in v;
    }
  }

  lemma {:induction false} PartitionElements<T>(s: seq<T>, keys: seq<int>, k: nat)
    requires |s| == |keys| && Bounded(keys, k)
    ensures forall x :: x in Partition(s, keys, k) <==> x in s
  {
    PartitionSubset(s, keys, k);
    var p := Partition(s, keys, k);
    forall x | x in s
      ensures x in p
    {
      var i :| 0 <= i < |s| && s[i] == x;
      MoveStep(s, keys, k, i);
    }
  }

  lemma SortedElements(v: seq<Word>, l: nat)
    requires Deep(v, l) && AllQuaternary(v)
    ensures Bounded(Digits(v, l), 4)
    ensures |Sorted(v, l)| == |v|
    ensures forall x :: x in Sorted(v, l) <==> x in v
    ensures Deep(Sorted(v, l), l) && AllQuaternary(Sorted(v, l))
  {
    OccsBelowTotal(Digits(v, l), 4);
    PartitionElements(v, Digits(v, l), 4);
    var r := Sorted(v, l);
    forall i | 0 <= i < |r|
      ensures |r[i]| > l && Quaternary(r[i])
    {
      assert r[i] in v;
    }
  }

  lemma {:induction false} LevelElements(w: seq<Word>, l: nat)
    requires AllQuaternary(w)
    ensures forall x :: x in Level(w, l) <==> x in w && |x| > l
    ensures AllQuaternary(Level(w, l))
  {
    hide Continuing, Sorted;
    ContinuingElements(w, 0);
    if l > 0 {
      LevelElements(w, l - 1);
      NextElements(Level(w, l - 1), l);
    }
    ElementsQuaternary(w, Level(w, l));
  }

  lemma NextElements(v: seq<Word>, l: nat)
    requires l > 0 && AllQuaternary(v)
    ensures forall x :: x in NextLevel(v, l) <==> x in v && |x| > l
  {
    hide Continuing, Sorted;
    var c := Continuing(v, l);
    ContinuingElements(v, l);
    ElementsQuaternary(v, c);
    SortedElements(c, l - 1);
  }

  lemma ElementsQuaternary(w: seq<Word>, v: seq<Word>)
    requires AllQuaternary(w) && forall x :: x in v ==> x in w
    ensures AllQuaternary(v)
  {
    forall i | 0 <= i < |v|
      ensures Quaternary(v[i])
    {
      assert v[i] in v;
    }
  }

  /** Level 0 is the text itself. */
  lemma {:induction false} LevelZero(w: seq<Word>)
    requires Deep(w, 0)
    ensures Level(w, 0) == w
  {
    ContinuingAll(w, 0);
  }

  lemma {:induction false} ContinuingAll(v: seq<Word>, l: nat)
    requires Deep(v, l)
    ensures Continuing(v, l) == v
  {
    if |v| > 0 {
      ContinuingAll(v[..|v| - 1], l);
    }
  }

  // ---- Prefix filters ----

  lemma WithPrefixPush(v: seq<Word>, x: Word, p: Word)
    ensures WithPrefix(v + [x], p) == WithPrefix(v, p) + if p <= x then [x] else []
  {
    assert (v + [x])[..|v|] == v;
  }

  lemma {:induction false} WithPrefixConcat(v: seq<Word>, u: seq<Word>, p: Word)
    ensures WithPrefix(v + u, p) == WithPrefix(v, p) + WithPrefix(u, p)
  {
    if |u| == 0 {
      assert v + u == v;
    } else {
      var n := |u| - 1;
      var u', x := u[..n], u[n];
      WithPrefixConcat(v, u', p);
      assert v + u == (v + u') + [x];
      WithPrefixPush(v + u', x, p);
      var tail := if p <= x then [x] else [];
      assert (WithPrefix(v, p) + WithPrefix(u', p)) + tail == WithPrefix(v, p) + (WithPrefix(u', p) + tail);
    }
  }

  /** Taking digit `d` among the rows that begin with `p` leaves those that begin with `p` and `d`. */
  lemma {:induction false} PrefixStep(v: seq<Word>, p: Word, d: int)
    requires Deep(WithPrefix(v, p), |p|)
    ensures Bucket(WithPrefix(v, p), Digits(WithPrefix(v, p), |p|), d) == WithPrefix(v, p + [d])
  {
    if |v| > 0 {
      var n := |v| - 1;
      var v', x := v[..n], v[n];
      var f' := WithPrefix(v', p);
      assert Deep(f', |p|) by {
        forall i | 0 <= i < |f'|
          ensures |f'[i]| > |p|
        {
          assert WithPrefix(v, p)[i] == f'[i];
        }
      }
      PrefixStep(v', p, d);
      assert p <= x ==> |x| > |p| by { assert p <= x ==> WithPrefix(v, p)[|f'|] == x; }
      PrefixStepRow(f', WithPrefix(v', p + [d]), x, p, d);
    }
  }

  lemma PrefixStepRow(f: seq<Word>, g: seq<Word>, x: Word, p: Word, d: int)
    requires Deep(f, |p|) && Bucket(f, Digits(f, |p|), d) == g && (p <= x ==> |x| > |p|)
    ensures var f' := f + (if p <= x then [x] else []);
      Deep(f', |p|) && Bucket(f', Digits(f', |p|), d) == g + if p + [d] <= x then [x] else []
  {
    hide Bucket;
    if p <= x {
      BucketOfRow(f, x, |p|, d);
      PrefixExtends(p, d, x);
    } else {
      assert f + [] == f && g + [] == g;
      PrefixShorter(p, d, x);
    }
  }

  lemma BucketOfRow(f: seq<Word>, x: Word, l: nat, d: int)
    requires Deep(f, l) && |x| > l
    ensures Deep(f + [x], l)
    ensures Bucket(f + [x], Digits(f + [x], l), d) == Bucket(f, Digits(f, l), d) + if x[l] == d then [x] else []
  {
    assert Digits(f + [x], l) == Digits(f, l) + [x[l]];
    BucketPush(f, Digits(f, l), x, x[l], d);
  }

  lemma PrefixExtends(p: Word, d: int, x: Word)
    requires p <= x && |p| < |x|
    ensures p + [d] <= x <==> x[|p|] == d
  {
    assert p + [d] <= x ==> x[|p|] == (p + [d])[|p|];
    if x[|p|] == d {
      assert x[..|p| + 1] == p + [d];
    }
  }

  lemma PrefixShorter(p: Word, d: int, x: Word)
    ensures p + [d] <= x ==> p <= x
  {
    if p + [d] <= x {
      assert forall i :: 0 <= i < |p| ==> p[i] == (p + [d])[i] == x[i];
    }
  }

  /** The number of rows that begin with `p`, counted through any of their own extensions. */
  lemma {:induction false} RankThroughPrefix(v: seq<Word>, p: Word, c: Word)
    requires p <= c
    ensures Occs(WithPrefix(v, p), c) == Occs(v, c)
  {
    if |v| > 0 {
      var n := |v| - 1;
      RankThroughPrefix(v[..n], p, c);
      RankPrefix(v, v[..n], c, n);
      var f := WithPrefix(v[..n], p);
      if p <= v[n] {
        RankPrefix(f + [v[n]], f, c, |f|);
      } else {
        assert v[n] != c;
        assert WithPrefix(v, p) == f;
      }
    }
  }

  /** Rows that begin with the whole word `c` and are no longer than it are occurrences of `c`. */
  lemma {:induction false} AllEqualRank(v: seq<Word>, c: Word, i: nat)
    requires i <= |v| && forall j :: 0 <= j < i ==> v[j] == c
    ensures Rank(v, c, i) == i
  {
    if i > 0 {
      AllEqualRank(v, c, i - 1);
    }
  }
}
