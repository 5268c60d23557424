/**
 Paths through any stack of quad sequences, one per level, whatever they hold:
 a row descends until it falls past the end of a level, and the digits it read
 on the way are its word. Levels need not come from construction; a level may
 even hold rows that no path reaches.
 */
module HuffPaths {
  import opened Wrappers
  import opened RankSelect
  import opened StablePartition
  import opened Words
  import opened WaveletMatrix
  import opened LevelSteps

  ghost predicate Levels(ks: seq<seq<int>>) {
    forall l :: 0 <= l < |ks| ==> Bounded(ks[l], 4)
  }

  /** Whether a position is inside level `l`. */
  ghost predicate Inside(ks: seq<seq<int>>, l: nat, i: nat) {
    l < |ks| && i < |ks[l]|
  }

  /** The digits read from position `i` of level `l` down. */
  ghost function PathWord(ks: seq<seq<int>>, l: nat, i: nat): (w: Word)
    requires Levels(ks) && Inside(ks, l, i)
    ensures 0 < |w| <= |ks| - l && Quaternary(w)
    decreases |ks| - l, 0
  {
    [ks[l][i]] + Below(ks, l + 1, Move(ks[l], i))
  }

  /** The rest of a word: nothing, once the path has left the levels. */
  ghost function Below(ks: seq<seq<int>>, l: nat, q: nat): (w: Word)
    requires Levels(ks) && 0 < l <= |ks|
    ensures |w| <= |ks| - l && Quaternary(w)
    ensures |w| > 0 <==> Inside(ks, l, q)
    decreases |ks| - l, 1
  {
    if Inside(ks, l, q) then PathWord(ks, l, q) else []
  }

  /** The words of the first `n` rows of the first level. */
  ghost function PathRows(ks: seq<seq<int>>, n: nat): (w: seq<Word>)
    requires Levels(ks) && |ks| > 0 && n <= |ks[0]|
    ensures |w| == n && forall i :: 0 <= i < n ==> w[i] == PathWord(ks, 0, i)
  {
    seq(n, i requires 0 <= i < n => PathWord(ks, 0, i))
  }

  lemma PathRowsShape(ks: seq<seq<int>>, n: nat)
    requires Levels(ks) && |ks| > 0 && n <= |ks[0]|
    ensures AllQuaternary(PathRows(ks, n)) && Deep(PathRows(ks, n), 0)
  {}

  // ---- The interval of a prefix ----

  /** `[a, e)` of level `|p|` holds, in order, what is left of the rows that begin with `p`. */
  ghost predicate Node(ks: seq<seq<int>>, w: seq<Word>, p: Word, a: nat, e: nat)
    requires Levels(ks)
  {
    && |p| < |ks| && a <= e <= |ks[|p|]|
    && |WithPrefix(w, p)| == e - a
    && forall i :: a <= i < e ==> WithPrefix(w, p)[i - a][|p|..] == PathWord(ks, |p|, i)
  }

  /** Level `|p|` as rows of words of which `[a, e)` are the rows that begin with `p`. */
  ghost function NodeView(ks: seq<seq<int>>, w: seq<Word>, p: Word, a: nat, e: nat): (v: seq<Word>)
    requires Levels(ks) && Node(ks, w, p, a, e)
    ensures |v| == |ks[|p|]| && forall i :: 0 <= i < |v| ==> v[i] == if a <= i < e then WithPrefix(w, p)[i - a] else p + [ks[|p|][i]]
  {
    seq(|ks[|p|]|, i requires 0 <= i < |ks[|p|]| => if a <= i < e then WithPrefix(w, p)[i - a] else p + [ks[|p|][i]])
  }

  lemma NodeViewHolds(ks: seq<seq<int>>, w: seq<Word>, p: Word, a: nat, e: nat)
    requires Levels(ks) && Node(ks, w, p, a, e) && AllQuaternary(w) && Quaternary(p)
    ensures var v := NodeView(ks, w, p, a, e);
      Deep(v, |p|) && AllQuaternary(v) && Digits(v, |p|) == ks[|p|] && Holds(v, w, p, a, e)
  {
    var v, l, f := NodeView(ks, w, p, a, e), |p|, WithPrefix(w, p);
    WithPrefixElements(w, p);
    ElementsQuaternary(w, f);
    forall i | 0 <= i < |v|
      ensures |v[i]| > l && Quaternary(v[i]) && v[i][l] == ks[l][i]
    {
      if a <= i < e {
        assert f[i - a][l..] == PathWord(ks, l, i);
        assert v[i][l] == f[i - a][l..][0];
      }
    }
    assert v[a..e] == f;
  }

  lemma RootNode(ks: seq<seq<int>>, n: nat)
    requires Levels(ks) && |ks| > 0 && n <= |ks[0]|
    ensures Node(ks, PathRows(ks, n), [], 0, n)
  {
    WithEmptyPrefix(PathRows(ks, n));
  }

  /** One step down: what is left of the rows of the child interval. */
  lemma ChildRow(ks: seq<seq<int>>, w: seq<Word>, p: Word, d: nat, a: nat, e: nat, q: nat)
    requires Levels(ks) && Node(ks, w, p, a, e) && AllQuaternary(w) && Quaternary(p) && d < 4
    requires Child(ks[|p|], d, a) <= q < Child(ks[|p|], d, e)
    ensures var f := WithPrefix(w, p + [d]); var j := q - Child(ks[|p|], d, a);
      j < |f| && f[j][|p| + 1..] == Below(ks, |p| + 1, q)
  {
    hide PathWord, Below, Rank, OccsBelow, Sorted;
    var k, l, v := ks[|p|], |p|, NodeView(ks, w, p, a, e);
    NodeViewHolds(ks, w, p, a, e);
    NodeStep(v, w, p, d, a, e);
    var i := RowOfChild(k, d, a, e, q);
    MovedRow(v, l, i);
    SliceRow(Sorted(v, l), WithPrefix(w, p + [d]), Child(k, d, a), Child(k, d, e), q);
    PathStep(ks, l, i);
    assert v[i][l..] == PathWord(ks, l, i);
    assert v[i][l + 1..] == v[i][l..][1..];
  }

  lemma PathStep(ks: seq<seq<int>>, l: nat, i: nat)
    requires Levels(ks) && Inside(ks, l, i)
    ensures PathWord(ks, l, i)[0] == ks[l][i] && PathWord(ks, l, i)[1..] == Below(ks, l + 1, Move(ks[l], i))
  {}

  lemma SliceRow<T>(s: seq<T>, f: seq<T>, a: nat, e: nat, q: nat)
    requires a <= q < e <= |s| && s[a..e] == f
    ensures q - a < |f| && f[q - a] == s[q]
  {}

  lemma MovedRow(v: seq<Word>, l: nat, i: nat)
    requires Deep(v, l) && AllQuaternary(v) && i < |v|
    ensures Move(Digits(v, l), i) < |Sorted(v, l)| && Sorted(v, l)[Move(Digits(v, l), i)] == v[i]
  {
    SortedElements(v, l);
    MoveStep(v, Digits(v, l), 4, i);
  }

  /** The row of `[a, e)` that stands at `q` of the child interval. */
  lemma RowOfChild(k: seq<int>, d: nat, a: nat, e: nat, q: nat) returns (i: nat)
    requires a <= e <= |k| && Child(k, d, a) <= q < Child(k, d, e)
    ensures a <= i < e && k[i] == d && Move(k, i) == q
  {
    var j := q - OccsBelow(k, d);
    i := SelectWitness(k, d, j, e);
    SelectBracket(k, d, j, i, a);
  }

  lemma ChildInterval(ks: seq<seq<int>>, w: seq<Word>, p: Word, d: nat, a: nat, e: nat)
    requires Levels(ks) && Node(ks, w, p, a, e) && AllQuaternary(w) && Quaternary(p) && d < 4
    ensures var k := ks[|p|];
      Child(k, d, a) <= Child(k, d, e) <= |k| && |WithPrefix(w, p + [d])| == Child(k, d, e) - Child(k, d, a)
  {
    NodeViewHolds(ks, w, p, a, e);
    hide Node, NodeView, Sorted, Child, WithPrefix;
    var v := NodeView(ks, w, p, a, e);
    NodeStep(v, w, p, d, a, e);
    SortedElements(v, |p|);
  }

  /** A child interval inside the next level is the interval of the longer prefix. */
  lemma ChildNode(ks: seq<seq<int>>, w: seq<Word>, p: Word, d: nat, a: nat, e: nat)
    requires Levels(ks) && Node(ks, w, p, a, e) && AllQuaternary(w) && Quaternary(p) && d < 4
    requires |p| + 1 < |ks| && Child(ks[|p|], d, e) <= |ks[|p| + 1]|
    ensures Node(ks, w, p + [d], Child(ks[|p|], d, a), Child(ks[|p|], d, e))
  {
    ChildInterval(ks, w, p, d, a, e);
    var a', e', m := Child(ks[|p|], d, a), Child(ks[|p|], d, e), |p| + 1;
    forall q | a' <= q < e'
      ensures WithPrefix(w, p + [d])[q - a'][m..] == PathWord(ks, m, q)
    {
      ChildRow(ks, w, p, d, a, e, q);
    }
  }

  /** A row of a child interval ends with the digit exactly when it stands past the next level. */
  lemma ChildEnds(ks: seq<seq<int>>, w: seq<Word>, p: Word, d: nat, a: nat, e: nat, j: nat)
    requires Levels(ks) && Node(ks, w, p, a, e) && AllQuaternary(w) && Quaternary(p) && d < 4
    requires j < |WithPrefix(w, p + [d])|
    ensures WithPrefix(w, p + [d])[j] == p + [d] <==> !Inside(ks, |p| + 1, Child(ks[|p|], d, a) + j)
  {
    ChildInterval(ks, w, p, d, a, e);
    var f, q := WithPrefix(w, p + [d]), Child(ks[|p|], d, a) + j;
    ChildRow(ks, w, p, d, a, e, q);
    assert p + [d] <= f[j];
    assert |f[j][|p| + 1..]| == |f[j]| - (|p| + 1);
  }

  // ---- The interval of a code ----

  /** Where position `i` of the first level is after the first `l` digits of `c`. */
  ghost function PathPos(ks: seq<seq<int>>, c: Word, i: nat, l: nat): nat
    requires l <= |c| && l <= |ks| && Quaternary(c)
  {
    if l == 0 then i
    else
      var q := PathPos(ks, c, i, l - 1);
      if q <= |ks[l - 1]| then Child(ks[l - 1], c[l - 1], q) else q
  }

  /** No interval of a code leaves its level. */
  ghost predicate Fits(ks: seq<seq<int>>, c: Word, n: nat)
    requires Quaternary(c)
  {
    |c| <= |ks| && forall l :: 0 <= l < |c| ==> PathPos(ks, c, n, l) <= |ks[l]|
  }

  /** Positions keep their order along a path. */
  lemma {:induction false} PathPosMonotone(ks: seq<seq<int>>, c: Word, i: nat, j: nat, l: nat)
    requires Quaternary(c) && l <= |c| && i <= j && Fits(ks, c, j)
    ensures PathPos(ks, c, i, l) <= PathPos(ks, c, j, l)
    ensures l < |c| ==> PathPos(ks, c, i, l) <= |ks[l]|
  {
    hide Rank, OccsBelow;
    if l > 0 {
      PathPosMonotone(ks, c, i, j, l - 1);
      RankMonotone(ks[l - 1], c[l - 1], PathPos(ks, c, i, l - 1), PathPos(ks, c, j, l - 1));
    }
  }

  /** The interval of a prefix of a code, and how much of it the first `i` rows fill. */
  lemma {:induction false} CodeNode(ks: seq<seq<int>>, n: nat, c: Word, i: nat, l: nat)
    requires Levels(ks) && |ks| > 0 && n <= |ks[0]| && Quaternary(c) && Fits(ks, c, n) && i <= n && l < |c|
    ensures var w := PathRows(ks, n); var a := PathPos(ks, c, 0, l);
      && Node(ks, w, c[..l], a, PathPos(ks, c, n, l))
      && a <= PathPos(ks, c, i, l) <= PathPos(ks, c, n, l)
      && PathPos(ks, c, i, l) - a == |WithPrefix(w[..i], c[..l])|
  {
    hide Node, WithPrefix, Fits, Rank, OccsBelow;
    var w := PathRows(ks, n);
    PathRowsShape(ks, n);
    if l == 0 {
      RootNode(ks, n);
      WithEmptyPrefix(w[..i]);
      assert c[..0] == [];
    } else {
      CodeNode(ks, n, c, i, l - 1);
      PathPosMonotone(ks, c, n, n, l);
      CodePart(ks, n, c, i, l - 1);
      assert c[..l - 1] + [c[l - 1]] == c[..l];
      StaysInside(ks, c, n, l);
      ChildNode(ks, w, c[..l - 1], c[l - 1], PathPos(ks, c, 0, l - 1), PathPos(ks, c, n, l - 1));
    }
  }

  lemma StaysInside(ks: seq<seq<int>>, c: Word, n: nat, l: nat)
    requires Quaternary(c) && Fits(ks, c, n) && 0 < l <= |c|
    ensures PathPos(ks, c, 0, l - 1) <= |ks[l - 1]| && PathPos(ks, c, n, l - 1) <= |ks[l - 1]|
    ensures PathPos(ks, c, n, l) == Child(ks[l - 1], c[l - 1], PathPos(ks, c, n, l - 1))
    ensures PathPos(ks, c, 0, l) == Child(ks[l - 1], c[l - 1], PathPos(ks, c, 0, l - 1))
    ensures |c| <= |ks| && (l < |c| ==> PathPos(ks, c, n, l) <= |ks[l]|)
    ensures Quaternary(c[..l - 1])
  {
    PathPosMonotone(ks, c, 0, n, l - 1);
    hide Rank, OccsBelow, Child;
  }

  /** Counting the rows that begin with one more digit. */
  lemma CodePart(ks: seq<seq<int>>, n: nat, c: Word, i: nat, l: nat)
    requires Levels(ks) && |ks| > 0 && n <= |ks[0]| && Quaternary(c) && Fits(ks, c, n) && i <= n && l < |c|
    requires Node(ks, PathRows(ks, n), c[..l], PathPos(ks, c, 0, l), PathPos(ks, c, n, l))
    requires PathPos(ks, c, 0, l) <= PathPos(ks, c, i, l) <= PathPos(ks, c, n, l)
    requires PathPos(ks, c, i, l) - PathPos(ks, c, 0, l) == |WithPrefix(PathRows(ks, n)[..i], c[..l])|
    ensures var w := PathRows(ks, n); var a := PathPos(ks, c, 0, l + 1);
      && a <= PathPos(ks, c, i, l + 1) <= PathPos(ks, c, n, l + 1)
      && PathPos(ks, c, i, l + 1) - a == |WithPrefix(w[..i], c[..l + 1])|
  {
    hide Sorted, Rank, OccsBelow, WithPrefix, Fits;
    var w, p, a, e, f := PathRows(ks, n), c[..l], PathPos(ks, c, 0, l), PathPos(ks, c, i, l), PathPos(ks, c, n, l);
    PathRowsShape(ks, n);
    NodeViewHolds(ks, w, p, a, f);
    var v := NodeView(ks, w, p, a, f);
    PartHolds(v, w, p, a, e, f, i);
    assert c[..l] + [c[l]] == c[..l + 1];
    ChildCount(v, w[..i], p, c[l], a, e);
    RankMonotone(ks[l], c[l], a, e);
    RankMonotone(ks[l], c[l], e, f);
  }

  /** An initial part of the text fills an initial part of every interval. */
  lemma PartHolds(v: seq<Word>, w: seq<Word>, p: Word, a: nat, e: nat, f: nat, i: nat)
    requires Holds(v, w, p, a, f) && i <= |w| && e == a + |WithPrefix(w[..i], p)|
    ensures e <= f && Holds(v, w[..i], p, a, e)
  {
    hide WithPrefix;
    WithPrefixConcat(w[..i], w[i..], p);
    assert w[..i] + w[i..] == w;
    var x := WithPrefix(w[..i], p);
    assert v[a..f] == x + WithPrefix(w[i..], p);
    assert v[a..e] == v[a..f][..|x|];
  }

  /** At the last digit the interval counts the rows that begin with the code. */
  lemma CodeCount(ks: seq<seq<int>>, n: nat, c: Word, i: nat)
    requires Levels(ks) && |ks| > 0 && n <= |ks[0]| && Quaternary(c) && Fits(ks, c, n) && i <= n && |c| > 0
    ensures PathPos(ks, c, 0, |c|) <= PathPos(ks, c, i, |c|)
    ensures PathPos(ks, c, i, |c|) - PathPos(ks, c, 0, |c|) == |WithPrefix(PathRows(ks, n)[..i], c)|
  {
    hide Node, WithPrefix, Fits, PathPos;
    CodeNode(ks, n, c, i, |c| - 1);
    CodePart(ks, n, c, i, |c| - 1);
    assert c[..|c|] == c;
  }

  // ---- The way up ----

  /** What `select` on a level answers. */
  ghost function SelectOf(k: seq<int>, d: int, j: nat): (r: Option<nat>)
    ensures SelectSpec(k, d, j, r)
  {
    SelectExists(k, d, j);
    if j < Occs(k, d) then
      var p: nat :| IsSelect(k, d, j, p);
      Some(p)
    else None
  }

  lemma SelectOfUnique(k: seq<int>, d: int, j: nat, r: Option<nat>)
    requires SelectSpec(k, d, j, r)
    ensures r == SelectOf(k, d, j)
  {
    SelectExists(k, d, j);
    if r.Some? {
      RankStrict(k, d, r.value, |k|);
      SelectUnique(k, d, j, r.value, SelectOf(k, d, j).value);
    }
  }

  /** Index `r` below the first `l` digits of a code, climbed back to the first level along the starts of its intervals. */
  ghost function Climb(ks: seq<seq<int>>, c: Word, l: nat, r: nat): Option<nat>
    requires Quaternary(c) && Fits(ks, c, 0) && l <= |c|
  {
    if l == 0 then Some(r)
    else
      var k, d, b := ks[l - 1], c[l - 1], PathPos(ks, c, 0, l - 1);
      match SelectOf(k, d, Rank(k, d, b) + r)
      case None => None
      case Some(p) =>
        SelectBracket(k, d, Rank(k, d, b) + r, p, b);
        Climb(ks, c, l - 1, p - b)
  }

  /** The path from position `p` of the first level reads the first `l` digits of `c`. */
  ghost predicate Begins(ks: seq<seq<int>>, c: Word, p: nat, l: nat)
    requires Quaternary(c) && l <= |c| <= |ks|
  {
    forall j :: 0 <= j < l ==> PathPos(ks, c, p, j) < |ks[j]| && ks[j][PathPos(ks, c, p, j)] == c[j]
  }

  lemma FitsLess(ks: seq<seq<int>>, c: Word, n: nat)
    requires Quaternary(c) && Fits(ks, c, n)
    ensures Fits(ks, c, 0)
  {
    forall l | 0 <= l < |c|
      ensures PathPos(ks, c, 0, l) <= |ks[l]|
    {
      PathPosMonotone(ks, c, 0, n, l);
    }
  }

  /** One level of the climb: it goes on from the occurrence that the level finds. */
  lemma ClimbUp(ks: seq<seq<int>>, c: Word, l: nat, r: nat, up: nat)
    requires Quaternary(c) && Fits(ks, c, 0) && l < |c| && PathPos(ks, c, 0, l) <= |ks[l]|
    requires IsSelect(ks[l], c[l], Rank(ks[l], c[l], PathPos(ks, c, 0, l)) + r, up)
    ensures PathPos(ks, c, 0, l) <= up
    ensures Climb(ks, c, l + 1, r) == Climb(ks, c, l, up - PathPos(ks, c, 0, l))
  {
    hide SelectOf, Rank, PathPos, IsSelect;
    var j := Rank(ks[l], c[l], PathPos(ks, c, 0, l)) + r;
    SelectBracket(ks[l], c[l], j, up, PathPos(ks, c, 0, l));
    SelectOfUnique(ks[l], c[l], j, Some(up));
  }

  /** A level answers with the occurrence that the climb goes on from. */
  lemma ClimbGoesOn(ks: seq<seq<int>>, c: Word, l: nat, r: nat, up: Option<nat>)
    requires Quaternary(c) && Fits(ks, c, 0) && l < |c| && PathPos(ks, c, 0, l) <= |ks[l]| && up.Some?
    requires SelectSpec(ks[l], c[l], Rank(ks[l], c[l], PathPos(ks, c, 0, l)) + r, up)
    ensures PathPos(ks, c, 0, l) <= up.value
    ensures Climb(ks, c, l + 1, r) == Climb(ks, c, l, up.value - PathPos(ks, c, 0, l))
  {
    hide Climb, PathPos, IsSelect, Rank, Fits;
    ClimbUp(ks, c, l, r, up.value);
  }

  /** Or with nothing. */
  lemma ClimbEnds(ks: seq<seq<int>>, c: Word, l: nat, r: nat, up: Option<nat>)
    requires Quaternary(c) && Fits(ks, c, 0) && l < |c| && PathPos(ks, c, 0, l) <= |ks[l]| && up.None?
    requires SelectSpec(ks[l], c[l], Rank(ks[l], c[l], PathPos(ks, c, 0, l)) + r, up)
    ensures Climb(ks, c, l + 1, r) == None
  {
    hide PathPos, IsSelect, Rank;
    SelectOfUnique(ks[l], c[l], Rank(ks[l], c[l], PathPos(ks, c, 0, l)) + r, up);
  }

  /** The occurrence that the climb goes on from. */
  lemma ClimbFrom(ks: seq<seq<int>>, c: Word, l: nat, r: nat) returns (up: nat)
    requires Quaternary(c) && Fits(ks, c, 0) && l < |c| && PathPos(ks, c, 0, l) <= |ks[l]|
    requires Climb(ks, c, l + 1, r).Some?
    ensures IsSelect(ks[l], c[l], Rank(ks[l], c[l], PathPos(ks, c, 0, l)) + r, up)
    ensures PathPos(ks, c, 0, l) <= up && Climb(ks, c, l, up - PathPos(ks, c, 0, l)) == Climb(ks, c, l + 1, r)
  {
    hide Rank, PathPos, IsSelect;
    up := SelectOf(ks[l], c[l], Rank(ks[l], c[l], PathPos(ks, c, 0, l)) + r).value;
    ClimbUp(ks, c, l, r, up);
  }

  /** One level of a descent that reads `c`. */
  lemma BeginsOneLevel(ks: seq<seq<int>>, c: Word, p: nat, l: nat)
    requires Quaternary(c) && l < |c| <= |ks|
    ensures var q := PathPos(ks, c, p, l);
      && (Begins(ks, c, p, l + 1) <==> Begins(ks, c, p, l) && q < |ks[l]| && ks[l][q] == c[l])
      && (q < |ks[l]| && ks[l][q] == c[l] ==> PathPos(ks, c, p, l + 1) == Move(ks[l], q))
      && (q <= |ks[l]| ==> PathPos(ks, c, p, l + 1) == OccsBelow(ks[l], c[l]) + Rank(ks[l], c[l], q))
  {
    hide PathPos, Move;
    PathPosNext(ks, c, p, l);
  }

  lemma PathPosNext(ks: seq<seq<int>>, c: Word, p: nat, l: nat)
    requires Quaternary(c) && l < |c| <= |ks|
    ensures var q := PathPos(ks, c, p, l);
      && (q < |ks[l]| && ks[l][q] == c[l] ==> PathPos(ks, c, p, l + 1) == Move(ks[l], q))
      && (q <= |ks[l]| ==> PathPos(ks, c, p, l + 1) == Child(ks[l], c[l], q))
  {
    hide Rank, OccsBelow;
  }

  lemma ClimbStart(ks: seq<seq<int>>, c: Word, p: nat)
    requires Quaternary(c) && Fits(ks, c, 0)
    ensures Climb(ks, c, 0, p) == Some(p) && PathPos(ks, c, p, 0) == p && PathPos(ks, c, 0, 0) == 0 && Begins(ks, c, p, 0)
  {}

  lemma FitsThere(ks: seq<seq<int>>, c: Word, l: nat)
    requires Quaternary(c) && Fits(ks, c, 0) && l < |c|
    ensures l < |ks| && |c| <= |ks| && PathPos(ks, c, 0, l) <= |ks[l]|
  {}

  /** A row at the occurrence that the climb goes on from stands, one level down, where the climb came from. */
  lemma DownAgain(ks: seq<seq<int>>, c: Word, p: nat, l: nat, r: nat)
    requires Quaternary(c) && l < |c| <= |ks| && PathPos(ks, c, 0, l) <= |ks[l]| && Begins(ks, c, p, l)
    requires IsSelect(ks[l], c[l], Rank(ks[l], c[l], PathPos(ks, c, 0, l)) + r, PathPos(ks, c, p, l))
    ensures Begins(ks, c, p, l + 1) && PathPos(ks, c, p, l + 1) == PathPos(ks, c, 0, l + 1) + r
  {
    hide Rank, OccsBelow, Begins, PathPos, Move;
    BeginsOneLevel(ks, c, p, l);
    BeginsOneLevel(ks, c, 0, l);
  }

  /** Where the climb arrives, a descent comes back to where it started. */
  lemma {:induction false} ClimbBegins(ks: seq<seq<int>>, c: Word, l: nat, r: nat, p: nat)
    requires Quaternary(c) && Fits(ks, c, 0) && l <= |c| && Climb(ks, c, l, r) == Some(p)
    ensures Begins(ks, c, p, l) && PathPos(ks, c, p, l) == PathPos(ks, c, 0, l) + r
  {
    hide Rank, Climb, Begins, PathPos, IsSelect, Fits;
    ClimbStart(ks, c, r);
    if l > 0 {
      var m := l - 1;
      assert m + 1 == l;
      FitsThere(ks, c, m);
      var up := ClimbFrom(ks, c, m, r);
      ClimbBegins(ks, c, m, up - PathPos(ks, c, 0, m), p);
      assert PathPos(ks, c, p, m) == up;
      DownAgain(ks, c, p, m, r);
    }
  }

  /** One level of a descent, undone by the climb. */
  lemma UpAgain(ks: seq<seq<int>>, c: Word, p: nat, l: nat)
    requires Quaternary(c) && Fits(ks, c, 0) && l < |c| <= |ks| && PathPos(ks, c, 0, l) <= |ks[l]| && Begins(ks, c, p, l + 1)
    requires PathPos(ks, c, 0, l) <= PathPos(ks, c, p, l)
    ensures PathPos(ks, c, 0, l + 1) <= PathPos(ks, c, p, l + 1)
    ensures Climb(ks, c, l + 1, PathPos(ks, c, p, l + 1) - PathPos(ks, c, 0, l + 1)) == Climb(ks, c, l, PathPos(ks, c, p, l) - PathPos(ks, c, 0, l))
  {
    hide Rank, OccsBelow, Climb, Begins, PathPos, Fits, Move;
    BeginsOneLevel(ks, c, p, l);
    BeginsOneLevel(ks, c, 0, l);
    var k, d, b, q := ks[l], c[l], PathPos(ks, c, 0, l), PathPos(ks, c, p, l);
    RankMonotone(k, d, b, q);
    ClimbUp(ks, c, l, Rank(k, d, q) - Rank(k, d, b), q);
  }

  /** And a row whose path reads the digits is found by the climb from the end of its path. */
  lemma {:induction false} BeginsClimb(ks: seq<seq<int>>, c: Word, p: nat, l: nat)
    requires Quaternary(c) && Fits(ks, c, 0) && l <= |c| <= |ks| && Begins(ks, c, p, l)
    ensures PathPos(ks, c, 0, l) <= PathPos(ks, c, p, l)
    ensures Climb(ks, c, l, PathPos(ks, c, p, l) - PathPos(ks, c, 0, l)) == Some(p)
  {
    hide Rank, OccsBelow, Climb, Begins, PathPos, Fits, Move;
    ClimbStart(ks, c, p);
    BeginsLess(ks, c, p, l);
    if l > 0 {
      var m := l - 1;
      assert m + 1 == l;
      FitsThere(ks, c, m);
      BeginsClimb(ks, c, p, m);
      UpAgain(ks, c, p, m);
    }
  }

  lemma BeginsLess(ks: seq<seq<int>>, c: Word, p: nat, l: nat)
    requires Quaternary(c) && l <= |c| <= |ks| && Begins(ks, c, p, l)
    ensures l > 0 ==> Begins(ks, c, p, l - 1)
  {}

  /** A smaller index climbs no higher. */
  lemma {:induction false} ClimbMonotone(ks: seq<seq<int>>, c: Word, l: nat, r: nat, m: nat)
    requires Quaternary(c) && Fits(ks, c, 0) && l <= |c| && r <= m && Climb(ks, c, l, m).Some?
    ensures Climb(ks, c, l, r).Some? && Climb(ks, c, l, r).value <= Climb(ks, c, l, m).value
  {
    hide Rank, Climb, PathPos, IsSelect, Fits;
    ClimbStart(ks, c, r);
    ClimbStart(ks, c, m);
    if l > 0 {
      var j := l - 1;
      assert j + 1 == l;
      FitsThere(ks, c, j);
      var k, d, b := ks[j], c[j], PathPos(ks, c, 0, j);
      var hi := ClimbFrom(ks, c, j, m);
      var lo := EarlierSelect(k, d, Rank(k, d, b) + r, Rank(k, d, b) + m, hi);
      ClimbUp(ks, c, j, r, lo);
      ClimbMonotone(ks, c, j, lo - b, hi - b);
    }
  }

  /** An earlier occurrence exists with a later one, and lies no further. */
  lemma EarlierSelect(k: seq<int>, d: int, i: nat, j: nat, hi: nat) returns (lo: nat)
    requires i <= j && IsSelect(k, d, j, hi)
    ensures IsSelect(k, d, i, lo) && lo <= hi
  {
    if i == j {
      lo := hi;
    } else {
      lo := SelectWitness(k, d, i, hi);
    }
  }

  /** What is left of a path that reads the first digits of `c`. */
  lemma {:induction false} BeginsWord(ks: seq<seq<int>>, c: Word, p: nat, l: nat)
    requires Levels(ks) && Quaternary(c) && 0 < l <= |c| <= |ks| && p < |ks[0]| && Begins(ks, c, p, l)
    ensures c[..l] <= PathWord(ks, 0, p) && PathWord(ks, 0, p)[l..] == Below(ks, l, PathPos(ks, c, p, l))
  {
    PathStart(ks, c, p);
    hide Rank, OccsBelow, Below, PathWord, Begins, PathPos, Move;
    var m := l - 1;
    assert m + 1 == l;
    BeginsOneLevel(ks, c, p, m);
    if m == 0 {
      PathStep(ks, 0, p);
      assert c[..1] == [c[0]];
    } else {
      BeginsWord(ks, c, p, m);
      NextDigit(ks, PathWord(ks, 0, p), c, m, PathPos(ks, c, p, m));
    }
  }

  lemma PathStart(ks: seq<seq<int>>, c: Word, p: nat)
    requires Quaternary(c)
    ensures PathPos(ks, c, p, 0) == p && (|c| <= |ks| ==> Begins(ks, c, p, 0))
  {}

  lemma NextDigit(ks: seq<seq<int>>, w: Word, c: Word, l: nat, q: nat)
    requires Levels(ks) && 0 < l < |c| && Inside(ks, l, q) && ks[l][q] == c[l] && c[..l] <= w && w[l..] == Below(ks, l, q)
    ensures c[..l + 1] <= w && w[l + 1..] == Below(ks, l + 1, Move(ks[l], q))
  {
    assert w[l..] == PathWord(ks, l, q);
    PathStep(ks, l, q);
    assert w[l] == w[l..][0] == c[l];
    assert w[l + 1..] == w[l..][1..];
    assert c[..l + 1] == c[..l] + [c[l]];
  }

  /** A path reads a word exactly when the word of its row begins with it. */
  lemma {:induction false} WordBegins(ks: seq<seq<int>>, c: Word, p: nat, l: nat)
    requires Levels(ks) && Quaternary(c) && l <= |c| <= |ks| && 0 < |ks| && p < |ks[0]| && c[..l] <= PathWord(ks, 0, p)
    ensures Begins(ks, c, p, l)
  {
    PathStart(ks, c, p);
    hide Rank, OccsBelow, Below, PathWord, Begins, PathPos, Move;
    if l > 0 {
      var w := PathWord(ks, 0, p);
      assert c[..l - 1] <= w by { assert c[..l][..l - 1] == c[..l - 1]; }
      WordBegins(ks, c, p, l - 1);
      assert w[l - 1] == c[..l][l - 1] == c[l - 1];
      var m := l - 1;
      assert m + 1 == l;
      BeginsOneLevel(ks, c, p, m);
      if m == 0 {
        PathStep(ks, 0, p);
      } else {
        BeginsWord(ks, c, p, m);
        DigitBelow(ks, w, m, PathPos(ks, c, p, m));
      }
    }
  }

  lemma DigitBelow(ks: seq<seq<int>>, w: Word, l: nat, q: nat)
    requires Levels(ks) && 0 < l <= |ks| && l < |w| && w[l..] == Below(ks, l, q)
    ensures Inside(ks, l, q) && ks[l][q] == w[l]
  {
    assert |w[l..]| > 0 && w[l..][0] == w[l];
  }

  /** No row of the first level begins with the word. */
  ghost predicate NoRowBegins(ks: seq<seq<int>>, c: Word)
    requires Levels(ks) && 0 < |ks|
  {
    forall i :: 0 <= i < |ks[0]| ==> !(c <= PathWord(ks, 0, i))
  }

  /** The climb finds nothing from the first index exactly when no row begins with the code. */
  lemma ClimbFindsNothing(ks: seq<seq<int>>, c: Word)
    requires Levels(ks) && Quaternary(c) && Fits(ks, c, 0) && 0 < |c|
    ensures Climb(ks, c, |c|, 0) == None <==> NoRowBegins(ks, c)
  {
    hide Climb, Begins, PathPos, PathWord;
    assert c[..|c|] == c;
    if p: nat :| p < |ks[0]| && c <= PathWord(ks, 0, p) {
      WordBegins(ks, c, p, |c|);
      BeginsClimb(ks, c, p, |c|);
      ClimbMonotone(ks, c, |c|, 0, PathPos(ks, c, p, |c|) - PathPos(ks, c, 0, |c|));
    }
    var first := Climb(ks, c, |c|, 0);
    if first.Some? {
      ClimbBegins(ks, c, |c|, 0, first.value);
      BeginsInside(ks, c, first.value);
      BeginsWord(ks, c, first.value, |c|);
    }
  }

  lemma BeginsInside(ks: seq<seq<int>>, c: Word, p: nat)
    requires Quaternary(c) && 0 < |c| <= |ks| && Begins(ks, c, p, |c|)
    ensures p < |ks[0]|
  {
    PathStart(ks, c, p);
  }
}
