/** A value that may be absent. */
module Wrappers {
  datatype Option<+T> = None | Some(value: T)
}

/**
 The naive specification every packed structure of the library refines:
 counting (`Rank`) and finding (`IsSelect`) the occurrences of a value in a
 plain sequence.
 */
module RankSelect {
  import opened Wrappers

  /** Number of occurrences of `c` in `s[..i]`. */
  function Rank<T(==)>(s: seq<T>, c: T, i: nat): (r: nat)
    requires i <= |s|
    ensures r <= i
  {
    if i == 0 then 0 else Rank(s, c, i - 1) + if s[i - 1] == c then 1 else 0
  }

  /** Number of occurrences of `c` in the whole of `s`. */
  function Occs<T(==)>(s: seq<T>, c: T): nat {
    Rank(s, c, |s|)
  }

  /** `p` is the position of the occurrence of `c` that has exactly `k` others before it. */
  ghost predicate IsSelect<T>(s: seq<T>, c: T, k: nat, p: nat) {
    p < |s| && s[p] == c && Rank(s, c, p) == k
  }

  /** What `select` must answer: the k-th occurrence, or nothing exactly when there is none. */
  ghost predicate SelectSpec<T(!new)>(s: seq<T>, c: T, k: nat, r: Option<nat>) {
    match r
    case Some(p) => IsSelect(s, c, k, p)
    case None => Occs(s, c) <= k
  }

  lemma RankMonotone<T>(s: seq<T>, c: T, i: nat, j: nat)
    requires i <= j <= |s|
    ensures Rank(s, c, i) <= Rank(s, c, j) <= Rank(s, c, i) + (j - i)
  {
    if i < j {
      RankMonotone(s, c, i, j - 1);
    }
  }

  /** An occurrence strictly inside `[i, j)` makes the rank grow. */
  lemma RankStrict<T>(s: seq<T>, c: T, p: nat, j: nat)
    requires p < j <= |s| && s[p] == c
    ensures Rank(s, c, p) < Rank(s, c, j)
  {
    assert Rank(s, c, p + 1) == Rank(s, c, p) + 1;
    RankMonotone(s, c, p + 1, j);
  }

  /** `Rank` looks at nothing beyond the prefix it counts. */
  lemma RankPrefix<T>(s: seq<T>, t: seq<T>, c: T, i: nat)
    requires i <= |s| && i <= |t|
    requires forall k :: 0 <= k < i ==> s[k] == t[k]
    ensures Rank(s, c, i) == Rank(t, c, i)
  {
    if i > 0 {
      RankPrefix(s, t, c, i - 1);
    }
  }

  lemma {:induction false} RankSlice<T>(s: seq<T>, c: T, a: nat, e: nat)
    requires a <= e <= |s|
    ensures Rank(s[a..e], c, e - a) == Rank(s, c, e) - Rank(s, c, a)
  {
    if a < e {
      RankSlice(s, c, a, e - 1);
      RankPrefix(s[a..e], s[a..e - 1], c, e - 1 - a);
    }
  }

  /** Counting in a window counts the difference of two ranks. */
  lemma {:induction false} RankWindow<T>(s: seq<T>, w: seq<T>, from: nat, c: T, i: nat)
    requires i <= |w| && from + i <= |s|
    requires forall k :: 0 <= k < i ==> w[k] == s[from + k]
    ensures Rank(s, c, from) <= Rank(s, c, from + i)
    ensures Rank(w, c, i) == Rank(s, c, from + i) - Rank(s, c, from)
  {
    if i > 0 {
      RankWindow(s, w, from, c, i - 1);
    }
  }

  lemma RankConcat<T>(s: seq<T>, t: seq<T>, c: T, i: nat)
    requires |s| <= i <= |s| + |t|
    ensures Rank(s + t, c, i) == Occs(s, c) + Rank(t, c, i - |s|)
  {
    RankPrefix(s + t, s, c, |s|);
    RankSlice(s + t, c, |s|, i);
    RankPrefix((s + t)[|s|..i], t, c, i - |s|);
  }

  /** The k-th occurrence, if any, is unique. */
  lemma SelectUnique<T>(s: seq<T>, c: T, k: nat, p: nat, q: nat)
    requires IsSelect(s, c, k, p) && IsSelect(s, c, k, q)
    ensures p == q
  {
    if p < q {
      RankStrict(s, c, p, q);
    } else if q < p {
      RankStrict(s, c, q, p);
    }
  }

  /** Occurrence `k` exists exactly when `k` is below the number of occurrences. */
  lemma SelectExists<T>(s: seq<T>, c: T, k: nat)
    ensures k < Occs(s, c) <==> exists p: nat :: IsSelect(s, c, k, p)
  {
    if k < Occs(s, c) {
      var p := SelectWitness(s, c, k, |s|);
    }
    forall p: nat | IsSelect(s, c, k, p)
      ensures k < Occs(s, c)
    {
      RankStrict(s, c, p, |s|);
    }
  }

  lemma {:induction false} SelectWitness<T>(s: seq<T>, c: T, k: nat, i: nat) returns (p: nat)
    requires i <= |s| && k < Rank(s, c, i)
    ensures p < i && IsSelect(s, c, k, p)
  {
    if k < Rank(s, c, i - 1) {
      p := SelectWitness(s, c, k, i - 1);
    } else {
      p := i - 1;
    }
  }

  /** Ranks around the k-th occurrence: it lies in `[a, e)` exactly when `Rank(a) <= k < Rank(e)`. */
  lemma SelectBracket<T>(s: seq<T>, c: T, k: nat, p: nat, a: nat)
    requires IsSelect(s, c, k, p) && a <= |s|
    ensures a <= p <==> Rank(s, c, a) <= k
  {
    if a <= p {
      RankMonotone(s, c, a, p);
    } else {
      RankStrict(s, c, p, a);
    }
  }

  /** `select` and `rank` undo each other. */
  lemma SelectRankInverse<T(!new)>(s: seq<T>, c: T, k: nat, r: Option<nat>)
    requires SelectSpec(s, c, k, r)
    ensures r.Some? ==> r.value < |s| && Rank(s, c, r.value) == k && Rank(s, c, r.value + 1) == k + 1
    ensures forall p: nat :: p < |s| && s[p] == c && k == Rank(s, c, p) ==> r == Some(p)
  {
    forall p: nat | p < |s| && s[p] == c && k == Rank(s, c, p)
      ensures r == Some(p)
    {
      RankStrict(s, c, p, |s|);
      if r.Some? {
        SelectUnique(s, c, k, p, r.value);
      }
    }
  }
}
