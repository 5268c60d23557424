/**
 Assembling a plain tree from levels read back: the scan over all positions, and
 the view's single walk along the largest digits, accept the same stacks, and
 what they accept is the tree of the text it decodes to.
 */
module PlainParts {
  import opened Wrappers
  import opened RankSelect
  import opened StablePartition
  import opened Arithmetic
  import opened Words
  import opened WaveletMatrix
  import opened CraftCodes
  import opened RSQVectors
  import opened SymbolWords
  import opened LevelSteps
  import opened QuadWavelet
  import opened LevelStacks

  /** What both checks accept. `typeLevels` is half the width of the symbol type, rounded up. */
  ghost predicate Acceptable(n: nat, nLevels: nat, sigma: nat, qvs: seq<RSQVector>, typeLevels: nat)
    requires AllLevelsValid(qvs)
  {
    && nLevels <= MAX_QUAD_LEVELS && nLevels <= typeLevels
    && if n == 0 then nLevels == 0 && sigma == 0
       else
         && nLevels > 0 && |qvs| == nLevels && nLevels == LevelsFor(sigma)
         && Stack(ContentsOf(qvs), n)
         && MaxSymbol(DecodedText(ContentsOf(qvs), n), sigma)
  }

  /** The text of an accepted stack. */
  ghost function TextOf(n: nat, qvs: seq<RSQVector>): seq<nat>
    requires AllLevelsValid(qvs) && (n > 0 ==> Stack(ContentsOf(qvs), n))
  {
    if n == 0 then [] else DecodedText(ContentsOf(qvs), n)
  }

  /** An accepted stack is a tree of its own text: all queries on it are exact. */
  lemma AcceptedRepresents(n: nat, nLevels: nat, sigma: nat, qvs: seq<RSQVector>, typeLevels: nat)
    requires AllLevelsValid(qvs) && Acceptable(n, nLevels, sigma, qvs, typeLevels)
    ensures QWaveletTree(n, nLevels, sigma, qvs).Represents(TextOf(n, qvs))
  {
    hide Level, DecodedText, DecodedRows, RSQVector.Valid, RSQVector.Contents, Stack, LevelAt;
    if n > 0 {
      var ks := ContentsOf(qvs);
      var s := DecodedText(ks, n);
      DecodedTextRows(ks, n);
      LevelsForSigma(sigma);
      RowsShape(s, nLevels);
      forall l | 0 <= l < |qvs|
        ensures Stores(qvs[l], Level(Rows(s, nLevels), l), l)
      {
        StackIsMatrix(ks, n, l);
      }
    }
  }

  /** Following a row through the levels of a tree gives its symbol back. */
  lemma {:induction false} TraceIndexed(t: QWaveletTree, s: seq<nat>, i: nat, l: nat)
    requires t.Indexes(s) && AllLevelsValid(t.qvs) && Stack(ContentsOf(t.qvs), t.n) && i < t.n && l < t.nLevels
    ensures var v := Level(Rows(s, t.nLevels), l);
      |v| == t.n && v[Trace(ContentsOf(t.qvs), t.n, i, l)] == SymbolWord(s[i], t.nLevels)
  {
    hide Level, Sorted, SymbolWord, RSQVector.Valid, RSQVector.Contents, Move;
    t.AtLevel(s, l);
    if l == 0 {
      LevelZero(Rows(s, t.nLevels));
    } else {
      TraceIndexed(t, s, i, l - 1);
      t.AtLevel(s, l - 1);
      SortedAt(Level(Rows(s, t.nLevels), l - 1), l - 1, ContentsOf(t.qvs)[l - 1]);
    }
  }

  /** The levels of a tree decode to its text. */
  lemma IndexedDecodes(t: QWaveletTree, s: seq<nat>)
    requires t.Indexes(s)
    ensures AllLevelsValid(t.qvs) && Stack(ContentsOf(t.qvs), t.n) && |t.qvs| == t.nLevels && t.n == |s|
    ensures DecodedText(ContentsOf(t.qvs), t.n) == s
  {
    hide Level, RSQVector.Valid, RSQVector.Contents, SymbolWord, Trace, Value, Pow4;
    IndexedStack(t, s);
    var ks, n := ContentsOf(t.qvs), t.n;
    forall i | 0 <= i < n
      ensures DecodedSymbol(ks, n, i) == s[i]
    {
      var c := SymbolWord(s[i], t.nLevels);
      forall l | 0 <= l < t.nLevels
        ensures Decoded(ks, n, i)[l] == c[l]
      {
        TraceIndexed(t, s, i, l);
        t.AtLevel(s, l);
      }
      assert Decoded(ks, n, i) == c;
      ValueOfSymbol(s[i], t.nLevels);
    }
  }

  lemma IndexedStack(t: QWaveletTree, s: seq<nat>)
    requires t.Indexes(s)
    ensures AllLevelsValid(t.qvs) && Stack(ContentsOf(t.qvs), t.n) && |t.qvs| == t.nLevels && t.n == |s| > 0
    ensures Below(s, Pow4(t.nLevels))
  {
    hide Level, RSQVector.Valid;
    forall l | 0 <= l < |t.qvs|
      ensures t.qvs[l].Valid() && |t.qvs[l].Contents()| == t.n && Bounded(t.qvs[l].Contents(), 4)
    {
      t.AtLevel(s, l);
    }
  }

  /** A tree as construction leaves it is accepted. */
  lemma BuiltIsAcceptable(t: QWaveletTree, s: seq<nat>, typeLevels: nat)
    requires t.Indexes(s) && MaxSymbol(s, t.sigma) && t.nLevels == LevelsFor(t.sigma) <= typeLevels
    ensures AllLevelsValid(t.qvs) && Acceptable(t.n, t.nLevels, t.sigma, t.qvs, typeLevels)
  {
    hide RSQVector.Valid, RSQVector.Contents, Level;
    t.Shape(s);
    IndexedDecodes(t, s);
  }

  /** Symbol for symbol the same tree. */
  ghost predicate SameTree(a: QWaveletTree, b: QWaveletTree)
    requires AllLevelsValid(a.qvs) && AllLevelsValid(b.qvs)
  {
    a.n == b.n && a.nLevels == b.nLevels && a.sigma == b.sigma && ContentsOf(a.qvs) == ContentsOf(b.qvs)
  }

  lemma SameLevel(a: QWaveletTree, b: QWaveletTree, s: seq<nat>, l: nat)
    requires a.Indexes(s) && b.Indexes(s) && a.nLevels == b.nLevels && l < a.nLevels
    ensures l < |a.qvs| && l < |b.qvs| && a.qvs[l].Valid() && b.qvs[l].Valid() && a.qvs[l].Contents() == b.qvs[l].Contents()
  {
    hide RSQVector.Valid, RSQVector.Contents, Level;
    a.AtLevel(s, l);
    b.AtLevel(s, l);
  }

  /** Two trees of one text with the same number of levels are the same, symbol for symbol. */
  lemma SameText(a: QWaveletTree, b: QWaveletTree, s: seq<nat>)
    requires a.Indexes(s) && b.Indexes(s) && a.nLevels == b.nLevels && a.sigma == b.sigma
    ensures AllLevelsValid(a.qvs) && AllLevelsValid(b.qvs) && SameTree(a, b)
  {
    hide RSQVector.Valid, RSQVector.Contents;
    IndexedStack(a, s);
    IndexedStack(b, s);
    hide QWaveletTree.Indexes;
    forall l | 0 <= l < a.nLevels
      ensures a.qvs[l].Contents() == b.qvs[l].Contents()
    {
      SameLevel(a, b, s, l);
    }
  }

  /** Any accepted stack is the tree that construction makes of its decoded text. */
  lemma AcceptedIsBuilt(n: nat, nLevels: nat, sigma: nat, qvs: seq<RSQVector>, typeLevels: nat, s: seq<nat>, built: QWaveletTree)
    requires n > 0 && AllLevelsValid(qvs) && Acceptable(n, nLevels, sigma, qvs, typeLevels) && s == TextOf(n, qvs)
    requires built.Indexes(s) && MaxSymbol(s, built.sigma) && built.nLevels == LevelsFor(built.sigma)
    ensures AllLevelsValid(built.qvs) && SameTree(QWaveletTree(n, nLevels, sigma, qvs), built)
  {
    AcceptedRepresents(n, nLevels, sigma, qvs, typeLevels);
    hide QWaveletTree.Indexes, RSQVector.Valid, DecodedText, Stack, LevelsFor;
    MaxIsOne(s, sigma, built.sigma);
    SameText(QWaveletTree(n, nLevels, sigma, qvs), built, s);
  }

  // ---- The scan ----

  /** One level of the descent from a position. */
  method DecodeStep(qvs: seq<RSQVector>, n: nat, ghost index: nat, level: nat, current: nat) returns (symbol: nat, next: nat)
    requires AllLevelsValid(qvs) && Stack(ContentsOf(qvs), n) && index < n && level < |qvs|
    requires current == Trace(ContentsOf(qvs), n, index, level)
    ensures symbol < 4 && symbol == Decoded(ContentsOf(qvs), n, index)[level]
    ensures next == Trace(ContentsOf(qvs), n, index, level + 1)
  {
    hide RSQVector.Valid, RSQVector.Contents, Rank, OccsBelow, Stack;
    LevelLength(qvs, n, level);
    symbol := qvs[level].GetUnchecked(current);
    next := qvs[level].ChildOf(symbol, current);
  }

  /** Descends from one position, as `from_parts` does for every position. */
  method DecodeRow(qvs: seq<RSQVector>, n: nat, index: nat) returns (value: nat)
    requires AllLevelsValid(qvs) && Stack(ContentsOf(qvs), n) && index < n
    ensures value == DecodedText(ContentsOf(qvs), n)[index]
  {
    hide RSQVector.Valid, RSQVector.Contents, Value, ShiftIn, Stack, Trace, Decoded;
    ghost var ks := ContentsOf(qvs);
    ghost var w := Decoded(ks, n, index);
    value := 0;
    var current, level := index, 0;
    EmptyValue(w);
    TraceStart(ks, n, index);
    while level < |qvs|
      invariant 0 <= level <= |qvs|
      invariant current == Trace(ks, n, index, level)
      invariant value == Value(w[..level])
    {
      ValuePush(w, level);
      var symbol, next := DecodeStep(qvs, n, index, level, current);
      value := ShiftIn(value, symbol);
      current := next;
      level := level + 1;
    }
    assert w[..|qvs|] == w;
  }

  lemma TraceStart(ks: seq<seq<int>>, n: nat, i: nat)
    requires Stack(ks, n) && i < n
    ensures Trace(ks, n, i, 0) == i
  {}

  lemma EmptyValue(w: Word)
    ensures Value(w[..0]) == 0
  {}

  lemma LevelLength(qvs: seq<RSQVector>, n: nat, l: nat)
    requires AllLevelsValid(qvs) && Stack(ContentsOf(qvs), n) && l < |qvs|
    ensures qvs[l].Len() == n == |qvs[l].Contents()|
  {
    hide RSQVector.Valid;
    assert |ContentsOf(qvs)[l]| == n;
  }

  /** Length of a level, as the sum of its four symbol counts. */
  method LevelLengthByCounts(q: RSQVector) returns (len: nat)
    requires q.Valid()
    ensures len == |q.Contents()|
  {
    hide RSQVector.Valid, Rank;
    OccsBelowTotal(q.Contents(), 4);
    len := q.OccsUnchecked(0) + q.OccsUnchecked(1) + q.OccsUnchecked(2) + q.OccsUnchecked(3);
    FourCounts(q.Contents());
  }

  lemma FourCounts(k: seq<int>)
    ensures OccsBelow(k, 4) == Occs(k, 0) + Occs(k, 1) + Occs(k, 2) + Occs(k, 3)
  {
    assert OccsBelow(k, 0) == 0;
    assert OccsBelow(k, 1) == Occs(k, 0);
    assert OccsBelow(k, 2) == OccsBelow(k, 1) + Occs(k, 1);
    assert OccsBelow(k, 3) == OccsBelow(k, 2) + Occs(k, 2);
  }

  /** Are all levels `n` symbols long? */
  method SameLengths(qvs: seq<RSQVector>, n: nat) returns (ok: bool)
    requires AllLevelsValid(qvs)
    ensures ok <==> Stack(ContentsOf(qvs), n)
  {
    hide RSQVector.Valid;
    var l := 0;
    while l < |qvs|
      invariant 0 <= l <= |qvs|
      invariant forall m :: 0 <= m < l ==> |ContentsOf(qvs)[m]| == n
    {
      var levelLen := LevelLengthByCounts(qvs[l]);
      if levelLen != n {
        assert |ContentsOf(qvs)[l]| != n;
        return false;
      }
      l := l + 1;
    }
    return true;
  }

  /** `m` is the largest of the first `i` symbols; 0 for none. */
  ghost predicate MaxUpTo(s: seq<nat>, i: nat, m: nat)
    requires i <= |s|
  {
    if i == 0 then m == 0 else MaxSymbol(s[..i], m)
  }

  lemma MaxNext(s: seq<nat>, i: nat, m: nat)
    requires i < |s| && MaxUpTo(s, i, m)
    ensures MaxUpTo(s, i + 1, if s[i] > m then s[i] else m)
  {
    assert s[..i + 1] == s[..i] + [s[i]];
  }

  /** The largest decoded symbol, from all positions. */
  method ScanSigma(qvs: seq<RSQVector>, n: nat) returns (sigma: nat)
    requires AllLevelsValid(qvs) && Stack(ContentsOf(qvs), n) && n > 0
    ensures MaxSymbol(DecodedText(ContentsOf(qvs), n), sigma)
  {
    hide *;
    ghost var s := DecodedText(ContentsOf(qvs), n);
    sigma := 0;
    var index := 0;
    MaxNone(s);
    while index < n
      invariant 0 <= index <= n && MaxUpTo(s, index, sigma)
    {
      MaxNext(s, index, sigma);
      var value := DecodeRow(qvs, n, index);
      sigma := if value > sigma then value else sigma;
      index := index + 1;
    }
    MaxAll(s, sigma);
  }

  lemma MaxNone(s: seq<nat>)
    ensures MaxUpTo(s, 0, 0)
  {}

  lemma MaxAll(s: seq<nat>, m: nat)
    requires |s| > 0 && MaxUpTo(s, |s|, m)
    ensures MaxSymbol(s, m)
  {
    assert s[..|s|] == s;
  }

  lemma MaxIsOne(s: seq<nat>, a: nat, b: nat)
    requires MaxSymbol(s, a) && MaxSymbol(s, b)
    ensures a == b
  {}

  /** Checks shared by both ways of opening a tree that is not empty. */
  method OwnedFromParts(n: nat, nLevels: nat, sigma: nat, qvs: seq<RSQVector>, typeLevels: nat) returns (r: Option<QWaveletTree>)
    requires AllLevelsValid(qvs)
    ensures r.Some? <==> Acceptable(n, nLevels, sigma, qvs, typeLevels)
    ensures r.Some? ==> r.value == QWaveletTree(n, nLevels, sigma, qvs) && r.value.Represents(TextOf(n, qvs))
  {
    hide RSQVector.Valid, Stack, MaxSymbol, LevelsFor, DecodedText, QWaveletTree.Represents;
    if nLevels > MAX_QUAD_LEVELS || nLevels > typeLevels {
      return None;
    }
    if n == 0 {
      if nLevels != 0 || sigma != 0 {
        return None;
      }
    } else if nLevels == 0 || |qvs| != nLevels {
      return None;
    }
    if n > 0 {
      if nLevels != LevelsFor(sigma) {
        return None;
      }
      var same := SameLengths(qvs, n);
      if !same {
        return None;
      }
      var actualSigma := ScanSigma(qvs, n);
      if actualSigma != sigma {
        OtherMax(DecodedText(ContentsOf(qvs), n), actualSigma, sigma);
        return None;
      }
    }
    AcceptedRepresents(n, nLevels, sigma, qvs, typeLevels);
    return Some(QWaveletTree(n, nLevels, sigma, qvs));
  }

  lemma OtherMax(s: seq<nat>, a: nat, b: nat)
    requires MaxSymbol(s, a) && a != b
    ensures !MaxSymbol(s, b)
  {}
}
