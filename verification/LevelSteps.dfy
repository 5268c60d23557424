/** One level of a query: along a row, along the interval of a prefix, and back up. */
module LevelSteps {
  import opened Wrappers
  import opened RankSelect
  import opened StablePartition
  import opened Arithmetic
  import opened Words
  import opened WaveletMatrix
  import opened CraftCodes
  import opened RSQVectors

  /** Digit `l` of the rows `v`, in their order. */
  ghost predicate Stores(q: RSQVector, v: seq<Word>, l: nat)
    requires Deep(v, l)
  {
    q.Valid() && q.Contents() == Digits(v, l)
  }

  /** One level of a descent along a row: its digit, and where the row stands in the partition. */
  method FollowRow(q: RSQVector, ghost v: seq<Word>, level: nat, i: nat) returns (symbol: nat, next: nat)
    requires Deep(v, level) && AllQuaternary(v) && Stores(q, v, level) && i < |v|
    ensures symbol < 4 && symbol == v[i][level]
    ensures next < |Sorted(v, level)| && Sorted(v, level)[next] == v[i]
  {
    hide RSQVector.Valid, RSQVector.Contents, Sorted, Child;
    RowMoves(v, level, i);
    symbol := q.GetUnchecked(i);
    next := q.ChildOf(symbol, i);
  }

  method ReadRow(q: RSQVector, ghost v: seq<Word>, level: nat, i: nat) returns (symbol: nat)
    requires Deep(v, level) && Stores(q, v, level) && i < |v|
    ensures symbol < 4 && symbol == v[i][level]
  {
    hide RSQVector.Valid, RSQVector.Contents;
    symbol := q.GetUnchecked(i);
  }

  /** One level of a descent along a word: the interval of its next prefix. */
  method FollowInterval(q: RSQVector, ghost v: seq<Word>, ghost x: seq<Word>, ghost c: Word, level: nat, digit: nat, a: nat, e: nat)
    returns (a': nat, e': nat)
    requires Deep(v, level) && AllQuaternary(v) && Stores(q, v, level)
    requires level < |c| && digit == c[level] < 4 && Holds(v, x, c[..level], a, e)
    ensures a' == Child(Digits(v, level), digit, a) && e' == Child(Digits(v, level), digit, e)
    ensures Holds(Sorted(v, level), x, c[..level + 1], a', e')
  {
    hide RSQVector.Valid, RSQVector.Contents, Sorted, Child, WithPrefix;
    Descend(v, x, c, level, a, e);
    a' := q.ChildOf(digit, a);
    e' := q.ChildOf(digit, e);
  }

  /** The intervals of all prefixes of `c`, with the digit ranks at their starts. */
  ghost predicate Path(w: seq<Word>, c: Word, level: nat, pathOff: seq<nat>, rankPathOff: seq<nat>, ends: seq<nat>)
    requires level <= |c| && level <= |pathOff| && level <= |rankPathOff| && level == |ends|
  {
    forall l :: 0 <= l < level ==> PathAt(Level(w, l), w, c, l, pathOff[l], rankPathOff[l], ends[l])
  }

  ghost predicate PathAt(v: seq<Word>, w: seq<Word>, c: Word, l: nat, b: nat, rankB: nat, e: nat)
    requires l < |c| && Deep(v, l)
  {
    Holds(v, w, c[..l], b, e) && rankB == Rank(Digits(v, l), c[l], b)
  }

  method FollowPath(q: RSQVector, ghost v: seq<Word>, ghost w: seq<Word>, ghost c: Word, level: nat, digit: nat, b: nat, ghost e: nat)
    returns (next: nat, rankB: nat, ghost nextEnd: nat)
    requires Deep(v, level) && AllQuaternary(v) && Stores(q, v, level)
    requires level < |c| && digit == c[level] < 4 && Holds(v, w, c[..level], b, e)
    ensures PathAt(v, w, c, level, b, rankB, e)
    ensures next == Child(Digits(v, level), digit, b) && nextEnd == Child(Digits(v, level), digit, e)
    ensures Holds(Sorted(v, level), w, c[..level + 1], next, nextEnd)
  {
    hide RSQVector.Valid, RSQVector.Contents, Sorted, WithPrefix, Rank;
    Descend(v, w, c, level, b, e);
    var rank := q.RankOf(digit, b);
    rankB := rank.value;
    next := rankB + q.OccsSmallerUnchecked(digit);
    nextEnd := Child(Digits(v, level), digit, e);
  }

  /** One level of the way up; what falls outside the node is reported as absent at the latest by the root. */
  method ClimbPath(q: RSQVector, ghost v: seq<Word>, ghost w: seq<Word>, ghost c: Word, ghost k: nat, level: nat, digit: nat,
                      b: nat, rankB: nat, ghost e: nat, result: nat) returns (r: Option<nat>)
    requires Deep(v, level) && AllQuaternary(v) && Stores(q, v, level)
    requires level < |c| && digit == c[level] < 4 && PathAt(v, w, c, level, b, rankB, e)
    requires Lifted(w, c[..level + 1], c, k, result)
    ensures r.None? ==> Occs(w, c) <= k
    ensures r.Some? ==> r.value + b < |v| && Lifted(w, c[..level], c, k, r.value)
  {
    hide RSQVector.Valid, RSQVector.Contents, WithPrefix, Rank, Lifted;
    assert c[..level] + [c[level]] == c[..level + 1];
    var pos := q.Select(digit, rankB + result);
    SelectUp(v, w, c[..level], c, b, e, k, result, pos);
    match pos
    case None => r := None;
    case Some(p) => r := Some(p - b);
  }

  lemma RootInterval(w: seq<Word>, i: nat, c: Word)
    requires Deep(w, 0) && i <= |w|
    ensures Holds(Level(w, 0), w[..i], c[..0], 0, i)
  {
    LevelZero(w);
    hide Level;
    HoldsRoot(w, i);
  }

  /** Interval of a longer prefix at the next level. */
  lemma Descend(v: seq<Word>, x: seq<Word>, c: Word, l: nat, a: nat, e: nat)
    requires Deep(v, l) && AllQuaternary(v) && l < |c| && 0 <= c[l] < 4
    requires Holds(v, x, c[..l], a, e)
    ensures var k := Digits(v, l);
      && a <= e <= |v| && Child(k, c[l], a) <= Child(k, c[l], e)
      && Holds(Sorted(v, l), x, c[..l + 1], Child(k, c[l], a), Child(k, c[l], e))
  {
    assert c[..l] + [c[l]] == c[..l + 1];
    hide Child, Sorted, WithPrefix;
    NodeStep(v, x, c[..l], c[l], a, e);
  }

  lemma RootRow(w: seq<Word>, i: nat)
    requires Deep(w, 0) && i < |w|
    ensures i < |Level(w, 0)| && Level(w, 0)[i] == w[i]
    ensures Value(w[i][..0]) == 0
  {
    LevelZero(w);
  }

  lemma RowMoves(v: seq<Word>, l: nat, i: nat)
    requires Deep(v, l) && AllQuaternary(v) && i < |v|
    ensures var k := Digits(v, l);
      && k[i] == v[i][l] && 0 <= k[i] < 4
      && Child(k, k[i], i) < |Sorted(v, l)| && Sorted(v, l)[Child(k, k[i], i)] == v[i]
  {
    SortedElements(v, l);
    MoveStep(v, Digits(v, l), 4, i);
  }

  lemma ValuePush(w: Word, l: nat)
    requires l < |w| && Quaternary(w)
    ensures 0 <= Value(w[..l]) && Value(w[..l + 1]) == 4 * Value(w[..l]) + w[l]
  {
    ValueBound(w[..l]);
    assert w[..l + 1][..l] == w[..l];
  }

  /** `(result << 2) | digit` */
  function ShiftIn(result: nat, digit: nat): (r: nat)
    requires digit < 4
    ensures r == 4 * result + digit
  {
    OrCommutes(4 * result, digit);
    assert Pow4(1) == 4;
    OrIsSum(digit, result, 1);
    BitOr(4 * result, digit)
  }
}
