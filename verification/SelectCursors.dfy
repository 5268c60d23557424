/**
 The cursor over the positions of one symbol: the first position by `select`,
 every later one by moving the stored position of each level forward.
 */
module SelectCursors {
  import opened Wrappers
  import opened RankSelect
  import opened StablePartition
  import opened Arithmetic
  import opened Words
  import opened WaveletMatrix
  import opened CraftCodes
  import opened RSQVectors
  import opened PartitionInto
  import opened SymbolWords
  import opened LevelSteps
  import opened QuadWavelet
  import opened SelectAfters

  /** The stored position of a level is the select of its stored input. */
  ghost predicate Settled(v: seq<Word>, c: Word, l: nat, rankB: nat, input: nat, position: nat)
    requires Deep(v, l) && l < |c|
  {
    IsSelect(Digits(v, l), c[l], rankB + input, position)
  }

  /** Levels `from..to` are settled, and every position is handed on to the level above. */
  ghost predicate Chain(w: seq<Word>, c: Word, from: nat, to: nat, pathOff: seq<nat>, rankPathOff: seq<nat>, positions: seq<nat>, inputs: seq<nat>)
    requires from <= to <= |c| && to <= |pathOff| && to <= |rankPathOff| && to <= |positions| && to <= |inputs|
  {
    && (forall l :: from <= l < to ==> Settled(Level(w, l), c, l, rankPathOff[l], inputs[l], positions[l]))
    && forall l :: from < l < to ==> positions[l] == pathOff[l] + inputs[l - 1]
  }

  /** One level of the way up: by sampled select at first, by moving on later. */
  method Advance(q: RSQVector, ghost v: seq<Word>, ghost w: seq<Word>, ghost c: Word, ghost k: nat, level: nat, digit: nat,
                 b: nat, rankB: nat, ghost e: nat, result: nat, initialized: bool, input: nat, position: nat) returns (next: nat)
    requires Deep(v, level) && AllQuaternary(v) && Stores(q, v, level)
    requires level < |c| && digit == c[level] < 4 && PathAt(v, w, c, level, b, rankB, e)
    requires Lifted(w, c[..level + 1], c, k, result) && k < Occs(w, c)
    requires initialized ==> Settled(v, c, level, rankB, input, position) && input < result
    ensures Settled(v, c, level, rankB, result, next) && b <= next < |v|
    ensures Lifted(w, c[..level], c, k, next - b)
    ensures initialized ==> position < next
  {
    hide RSQVector.Valid, RSQVector.Contents, WithPrefix, Rank, Lifted;
    assert c[..level] + [c[level]] == c[..level + 1];
    var pos: Option<nat>;
    if initialized {
      var advance := result - input;
      pos := AfterOnLevel(q, v, level, digit, position, advance);
    } else {
      pos := q.Select(digit, rankB + result);
    }
    SelectUp(v, w, c[..level], c, b, e, k, result, pos);
    next := pos.value;
  }

  method AfterOnLevel(q: RSQVector, ghost v: seq<Word>, level: nat, digit: nat, position: nat, advance: nat) returns (r: Option<nat>)
    requires Deep(v, level) && Stores(q, v, level) && digit < 4 && advance > 0
    requires position < |v| && Digits(v, level)[position] == digit
    ensures SelectSpec(Digits(v, level), digit, Rank(Digits(v, level), digit, position) + advance, r)
    ensures r.Some? ==> r.value > position
  {
    hide Rank, IsSelect;
    r := SelectAfter(q.qv, digit, position, advance);
    AfterOccurrence(Digits(v, level), digit, position, advance, r);
  }

  class QwtSelectCursor {
    const view: QWaveletTree
    const symbol: nat
    const pathOffsets: seq<nat>
    const rankPathOffsets: seq<nat>
    const levelPositions: array<nat>
    const levelInputs: array<nat>
    var nextOccurrence: nat
    const occurrences: nat
    var initialized: bool
    ghost const s: seq<nat>
    ghost const ends: seq<nat>

    /** What never changes. */
    ghost predicate Fixed()
    {
      && view.Indexes(s) && symbol <= view.sigma
      && |pathOffsets| == |rankPathOffsets| == MAX_QUAD_LEVELS && |ends| == view.nLevels <= MAX_QUAD_LEVELS
      && levelPositions != levelInputs && levelPositions.Length == levelInputs.Length == MAX_QUAD_LEVELS
      && pathOffsets[0] == 0
      && Path(Rows(s, view.nLevels), SymbolWord(symbol, view.nLevels), view.nLevels, pathOffsets, rankPathOffsets, ends)
      && occurrences == Occs<int>(s, symbol)
    }

    ghost predicate Valid()
      reads this, levelPositions, levelInputs
    {
      && Fixed() && nextOccurrence <= occurrences
      && (initialized ==>
            && 0 < nextOccurrence && levelInputs[view.nLevels - 1] == nextOccurrence - 1
            && Chain(Rows(s, view.nLevels), SymbolWord(symbol, view.nLevels), 0, view.nLevels,
                     pathOffsets, rankPathOffsets, levelPositions[..], levelInputs[..]))
    }

    constructor (view: QWaveletTree, symbol: nat, pathOff: seq<nat>, rankPathOff: seq<nat>, occurrences: nat,
                 ghost s: seq<nat>, ghost ends: seq<nat>)
      requires view.Indexes(s) && symbol <= view.sigma
      requires |pathOff| == |rankPathOff| == MAX_QUAD_LEVELS && |ends| == view.nLevels <= MAX_QUAD_LEVELS && pathOff[0] == 0
      requires Path(Rows(s, view.nLevels), SymbolWord(symbol, view.nLevels), view.nLevels, pathOff, rankPathOff, ends)
      requires occurrences == Occs<int>(s, symbol)
      ensures Valid() && fresh(levelPositions) && fresh(levelInputs)
      ensures this.view == view && this.symbol == symbol && this.s == s && nextOccurrence == 0 && this.occurrences == occurrences
    {
      hide QWaveletTree.Indexes, Path;
      this.view := view;
      this.symbol := symbol;
      this.pathOffsets := pathOff;
      this.rankPathOffsets := rankPathOff;
      this.levelPositions := new nat[MAX_QUAD_LEVELS](_ => 0);
      this.levelInputs := new nat[MAX_QUAD_LEVELS](_ => 0);
      this.nextOccurrence := 0;
      this.occurrences := occurrences;
      this.initialized := false;
      this.s := s;
      this.ends := ends;
    }

    /** The position of the next occurrence. */
    method Next() returns (r: Option<nat>)
      requires Valid()
      modifies this, levelPositions, levelInputs
      ensures Valid()
      ensures r.None? <==> old(nextOccurrence) == Occs<int>(s, symbol)
      ensures r.None? ==> nextOccurrence == old(nextOccurrence)
      ensures r.Some? ==> nextOccurrence == old(nextOccurrence) + 1 && IsSelect<int>(s, symbol, old(nextOccurrence), r.value)
    {
      hide QWaveletTree.Indexes, Path, SymbolWord, Chain, Rank, IsSelect, Level, Lifted, TwoBits, Occs;
      if nextOccurrence >= occurrences {
        return None;
      }
      view.Shape(s);
      var result := Climb();
      initialized := true;
      nextOccurrence := nextOccurrence + 1;
      RootLifted(s, view.nLevels, symbol, nextOccurrence - 1, result);
      return Some(result);
    }

    /** All levels from the last to the first; stored inputs and positions move to this occurrence. */
    method Climb() returns (result: nat)
      requires Valid() && nextOccurrence < occurrences
      modifies levelPositions, levelInputs
      ensures result < |s| && view.nLevels > 0
      ensures Lifted(Rows(s, view.nLevels), SymbolWord(symbol, view.nLevels)[..0], SymbolWord(symbol, view.nLevels), nextOccurrence, result)
      ensures levelInputs[view.nLevels - 1] == nextOccurrence
      ensures Chain(Rows(s, view.nLevels), SymbolWord(symbol, view.nLevels), 0, view.nLevels,
                    pathOffsets, rankPathOffsets, levelPositions[..], levelInputs[..])
    {
      hide QWaveletTree.Indexes, Path, SymbolWord, Chain, Rank, IsSelect, Level, Lifted, TwoBits, PathAt, Stores, Settled, Sorted;
      view.Shape(s);
      ghost var w, c, n := Rows(s, view.nLevels), SymbolWord(symbol, view.nLevels), view.nLevels;
      ghost var oldPositions, oldInputs := levelPositions[..], levelInputs[..];
      OccsOfRows(s, n, symbol);
      LeafOfSymbol(s, n, symbol, nextOccurrence);
      result := nextOccurrence;
      var shift, level := 0, view.nLevels;
      ChainNone(w, c, n, pathOffsets, rankPathOffsets, levelPositions[..], levelInputs[..]);
      while level > 0
        invariant 0 <= level <= n && shift == 2 * (n - level)
        invariant Lifted(w, c[..level], c, nextOccurrence, result)
        invariant levelPositions[..level] == oldPositions[..level] && levelInputs[..level] == oldInputs[..level]
        invariant Chain(w, c, level, n, pathOffsets, rankPathOffsets, levelPositions[..], levelInputs[..])
        invariant level < n ==> levelInputs[n - 1] == nextOccurrence && levelPositions[level] == pathOffsets[level] + result
        invariant level == n ==> result == nextOccurrence
        invariant initialized && level > 0 ==> oldInputs[level - 1] < result
        invariant level == 0 ==> result < |s|
      {
        level := level - 1;
        view.AtLevel(s, level);
        TwoBitsIsDigit(symbol, n, level);
        PathEntry(w, c, n, level, pathOffsets, rankPathOffsets, ends);
        if initialized {
          ChainEntry(w, c, n, level, pathOffsets, rankPathOffsets, oldPositions, oldInputs);
        }
        assert levelInputs[..level + 1][level] == levelInputs[level] && levelPositions[..level + 1][level] == levelPositions[level];
        assert oldInputs[..level + 1][level] == oldInputs[level] && oldPositions[..level + 1][level] == oldPositions[level];
        var position := Advance(view.qvs[level], Level(w, level), w, c, nextOccurrence, level, TwoBits(symbol, shift),
                                pathOffsets[level], rankPathOffsets[level], ends[level], result,
                                initialized, levelInputs[level], levelPositions[level]);
        ghost var p, i := levelPositions[..], levelInputs[..];
        levelInputs[level] := result;
        levelPositions[level] := position;
        assert levelPositions[..] == p[level := position] && levelInputs[..] == i[level := result];
        ChainGrow(w, c, n, level, pathOffsets, rankPathOffsets, p, i, position, result);
        assert levelPositions[..level] == p[..level] == p[..level + 1][..level];
        assert levelInputs[..level] == i[..level] == i[..level + 1][..level];
        assert oldPositions[..level + 1][..level] == oldPositions[..level] && oldInputs[..level + 1][..level] == oldInputs[..level];
        result := position - pathOffsets[level];
        shift := shift + 2;
      }
    }
  }

  lemma PathEntry(w: seq<Word>, c: Word, n: nat, l: nat, pathOff: seq<nat>, rankPathOff: seq<nat>, ends: seq<nat>)
    requires l < n <= |c| && n <= |pathOff| && n <= |rankPathOff| && n == |ends| && Path(w, c, n, pathOff, rankPathOff, ends)
    ensures PathAt(Level(w, l), w, c, l, pathOff[l], rankPathOff[l], ends[l])
  {}

  lemma ChainNone(w: seq<Word>, c: Word, n: nat, pathOff: seq<nat>, rankPathOff: seq<nat>, positions: seq<nat>, inputs: seq<nat>)
    requires n <= |c| && n <= |pathOff| && n <= |rankPathOff| && n <= |positions| && n <= |inputs|
    ensures Chain(w, c, n, n, pathOff, rankPathOff, positions, inputs)
  {}

  lemma ChainEntry(w: seq<Word>, c: Word, n: nat, l: nat, pathOff: seq<nat>, rankPathOff: seq<nat>, positions: seq<nat>, inputs: seq<nat>)
    requires l < n <= |c| && n <= |pathOff| && n <= |rankPathOff| && n <= |positions| && n <= |inputs|
    requires Chain(w, c, 0, n, pathOff, rankPathOff, positions, inputs)
    ensures Settled(Level(w, l), c, l, rankPathOff[l], inputs[l], positions[l])
    ensures l > 0 ==> positions[l] == pathOff[l] + inputs[l - 1]
  {}

  lemma ChainGrow(w: seq<Word>, c: Word, n: nat, l: nat, pathOff: seq<nat>, rankPathOff: seq<nat>, positions: seq<nat>, inputs: seq<nat>,
                  position: nat, input: nat)
    requires l < n <= |c| && n <= |pathOff| && n <= |rankPathOff| && n <= |positions| && n <= |inputs|
    requires Chain(w, c, l + 1, n, pathOff, rankPathOff, positions, inputs)
    requires Settled(Level(w, l), c, l, rankPathOff[l], input, position)
    requires l + 1 < n ==> positions[l + 1] == pathOff[l + 1] + input
    ensures Chain(w, c, l, n, pathOff, rankPathOff, positions[l := position], inputs[l := input])
  {
    hide Settled, Level;
    var nextPositions, nextInputs := positions[l := position], inputs[l := input];
    forall m | l <= m < n
      ensures Settled(Level(w, m), c, m, rankPathOff[m], nextInputs[m], nextPositions[m])
    {
      if m > l {
        assert nextInputs[m] == inputs[m] && nextPositions[m] == positions[m];
      }
    }
    forall m | l < m < n
      ensures nextPositions[m] == pathOff[m] + nextInputs[m - 1]
    {
      assert nextPositions[m] == positions[m];
    }
  }

  /** The intervals of the symbol on every level, and how often it occurs. */
  method CursorPath(view: QWaveletTree, ghost s: seq<nat>, symbol: nat)
    returns (pathOff: array<nat>, rankPathOff: array<nat>, begin: nat, end: nat, ghost ends: seq<nat>)
    requires view.Indexes(s) && symbol <= view.sigma
    ensures fresh(pathOff) && fresh(rankPathOff) && pathOff.Length == rankPathOff.Length == MAX_QUAD_LEVELS
    ensures |ends| == view.nLevels <= MAX_QUAD_LEVELS && pathOff[0] == 0
    ensures Path(Rows(s, view.nLevels), SymbolWord(symbol, view.nLevels), view.nLevels, pathOff[..], rankPathOff[..], ends)
    ensures begin <= end && end - begin == Occs<int>(s, symbol)
  {
    hide QWaveletTree.Indexes, Level, Sorted, SymbolWord, Rank, Holds, TwoBits, Stores, Child, PathAt, Path, Occs;
    view.Shape(s);
    ghost var w, c, n := Rows(s, view.nLevels), SymbolWord(symbol, view.nLevels), view.nLevels;
    pathOff, rankPathOff := new nat[MAX_QUAD_LEVELS](_ => 0), new nat[MAX_QUAD_LEVELS](_ => 0);
    begin, end, ends := 0, view.n, [];
    var shift, level := 2 * (view.nLevels - 1), 0;
    RootInterval(w, |s|, c);
    assert w[..|s|] == w;
    EmptyPath(w, c, pathOff[..], rankPathOff[..]);
    while level < view.nLevels
      invariant 0 <= level <= n && |ends| == level && shift == 2 * (n - 1 - level)
      invariant level < n ==> Holds(Level(w, level), w, c[..level], begin, end)
      invariant level == n ==> begin <= end && end - begin == |WithPrefix(w, c)|
      invariant level == 0 ==> begin == 0
      invariant level > 0 ==> pathOff[0] == 0
      invariant Path(w, c, level, pathOff[..], rankPathOff[..], ends)
    {
      ghost var before, ranksBefore := pathOff[..], rankPathOff[..];
      view.AtLevel(s, level);
      TwoBitsIsDigit(symbol, n, level);
      var b', rankB, e' := CursorStep(view.qvs[level], Level(w, level), w, c, level, TwoBits(symbol, shift), begin, end);
      pathOff[level] := begin;
      rankPathOff[level] := rankB;
      assert pathOff[..] == before[level := begin] && rankPathOff[..] == ranksBefore[level := rankB];
      PathGrow(w, c, level, before, ranksBefore, ends, begin, rankB, end);
      ends := ends + [end];
      assert c[..|c|] == c;
      begin, end := b', e';
      shift := shift - 2;
      level := level + 1;
    }
    OccurrencesInRows(s, n, symbol);
  }

  method CursorStep(q: RSQVector, ghost v: seq<Word>, ghost w: seq<Word>, ghost c: Word, level: nat, digit: nat, begin: nat, end: nat)
    returns (next: nat, beginRank: nat, nextEnd: nat)
    requires Deep(v, level) && AllQuaternary(v) && Stores(q, v, level)
    requires level < |c| && digit == c[level] < 4 && Holds(v, w, c[..level], begin, end)
    ensures PathAt(v, w, c, level, begin, beginRank, end)
    ensures Holds(Sorted(v, level), w, c[..level + 1], next, nextEnd)
    ensures next <= nextEnd && nextEnd - next == |WithPrefix(w, c[..level + 1])|
  {
    hide RSQVector.Valid, RSQVector.Contents, Sorted, Rank, WithPrefix;
    Descend(v, w, c, level, begin, end);
    beginRank := q.RankUnchecked(digit, begin);
    var endRank := q.RankUnchecked(digit, end);
    var offset := q.OccsSmallerUnchecked(digit);
    next, nextEnd := beginRank + offset, endRank + offset;
  }

  lemma EmptyPath(w: seq<Word>, c: Word, pathOff: seq<nat>, rankPathOff: seq<nat>)
    ensures Path(w, c, 0, pathOff, rankPathOff, [])
  {}

  lemma PathGrow(w: seq<Word>, c: Word, l: nat, pathOff: seq<nat>, rankPathOff: seq<nat>, ends: seq<nat>, b: nat, rankB: nat, e: nat)
    requires l < |c| && l < |pathOff| && l < |rankPathOff| && l == |ends| && Path(w, c, l, pathOff, rankPathOff, ends)
    requires PathAt(Level(w, l), w, c, l, b, rankB, e)
    ensures Path(w, c, l + 1, pathOff[l := b], rankPathOff[l := rankB], ends + [e])
  {
    hide PathAt, Level;
  }

  lemma OccurrencesInRows(s: seq<nat>, n: nat, symbol: nat)
    requires n > 0 && Below(s, Pow4(n)) && symbol < Pow4(n)
    ensures |WithPrefix(Rows(s, n), SymbolWord(symbol, n))| == Occs<int>(s, symbol)
  {
    assert Rows(s, n)[..|s|] == Rows(s, n);
    CountBelow(s, n, symbol, |s|);
  }

  /** `select_cursor`: nothing for an empty tree or a symbol outside the alphabet. */
  method SelectCursor(view: QWaveletTree, ghost s: seq<nat>, symbol: nat) returns (r: Option<QwtSelectCursor>)
    requires view.Represents(s)
    ensures r.None? <==> |s| == 0 || symbol > view.sigma
    ensures r.Some? ==> fresh(r.value) && fresh(r.value.levelPositions) && fresh(r.value.levelInputs)
    ensures r.Some? ==> r.value.Valid() && r.value.s == s && r.value.symbol == symbol && r.value.nextOccurrence == 0
  {
    hide QWaveletTree.Indexes, Path, Occs;
    view.NoLevels(s);
    LevelLimit(view, s);
    if view.nLevels == 0 || symbol > view.sigma || view.nLevels > MAX_QUAD_LEVELS {
      return None;
    }
    var pathOff, rankPathOff, begin, end, ends := CursorPath(view, s, symbol);
    assert pathOff[..][0] == 0;
    var cursor := new QwtSelectCursor(view, symbol, pathOff[..], rankPathOff[..], end - begin, s, ends);
    return Some(cursor);
  }

  lemma LevelLimit(view: QWaveletTree, s: seq<nat>)
    requires view.Represents(s)
    ensures view.nLevels <= MAX_QUAD_LEVELS
  {}

  /** The positions `from, from + 1, ...` of the occurrences of a symbol. */
  ghost predicate Positions<T>(t: seq<T>, c: T, from: nat, positions: seq<nat>) {
    forall k :: 0 <= k < |positions| ==> IsSelect(t, c, from + k, positions[k])
  }

  /** All positions of the symbol, in ascending order. */
  ghost predicate AllPositions<T>(t: seq<T>, c: T, positions: seq<nat>) {
    && (forall i, j :: 0 <= i < j < |positions| ==> positions[i] < positions[j])
    && (forall k :: 0 <= k < |positions| ==> positions[k] < |t| && t[positions[k]] == c)
    && forall p: nat :: p < |t| && t[p] == c ==> p in positions
  }

  lemma PositionsAreAll<T>(t: seq<T>, c: T, positions: seq<nat>)
    requires Positions(t, c, 0, positions) && |positions| == Occs(t, c)
    ensures AllPositions(t, c, positions)
  {
    hide Rank;
    forall i, j | 0 <= i < j < |positions|
      ensures positions[i] < positions[j]
    {
      SelectBracket(t, c, j, positions[j], positions[i]);
    }
    forall p: nat | p < |t| && t[p] == c
      ensures p in positions
    {
      RankStrict(t, c, p, |t|);
      SelectUnique(t, c, Rank(t, c, p), p, positions[Rank(t, c, p)]);
    }
  }

  /** Draining a new cursor yields exactly the ascending positions of its symbol. */
  method Drain(cursor: QwtSelectCursor) returns (positions: seq<nat>)
    requires cursor.Valid() && cursor.nextOccurrence == 0
    modifies cursor, cursor.levelPositions, cursor.levelInputs
    ensures AllPositions<int>(cursor.s, cursor.symbol, positions)
  {
    hide Rank, IsSelect, Occs, AllPositions;
    positions := [];
    var r := cursor.Next();
    while r.Some?
      invariant cursor.Valid()
      invariant cursor.nextOccurrence == |positions| + if r.Some? then 1 else 0
      invariant Positions<int>(cursor.s, cursor.symbol, 0, positions)
      invariant r.Some? ==> IsSelect<int>(cursor.s, cursor.symbol, |positions|, r.value)
      invariant r.None? ==> |positions| == Occs<int>(cursor.s, cursor.symbol)
      decreases Occs<int>(cursor.s, cursor.symbol) - cursor.nextOccurrence, if r.Some? then 1 else 0
    {
      positions := positions + [r.value];
      CursorBound(cursor);
      r := cursor.Next();
      CursorBound(cursor);
    }
    PositionsAreAll<int>(cursor.s, cursor.symbol, positions);
  }

  lemma CursorBound(cursor: QwtSelectCursor)
    requires cursor.Valid()
    ensures cursor.nextOccurrence <= Occs<int>(cursor.s, cursor.symbol)
  {}
}
