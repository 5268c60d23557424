/**
 The plain quad wavelet tree: one quad vector per two bits of the symbols, most
 significant first, each level the stable partition of the one above.
 */
module QuadWavelet {
  import opened Wrappers
  import opened RankSelect
  import opened StablePartition
  import opened Arithmetic
  import opened Words
  import opened WaveletMatrix
  import opened CraftCodes
  import opened QuadVector
  import opened RankSupport
  import opened BuildSupport
  import opened RSQVectors
  import opened PartitionInto
  import opened SymbolWords
  import opened LevelSteps

  const MAX_QUAD_LEVELS: nat := 64

  datatype QWaveletTree = QWaveletTree(n: nat, nLevels: nat, sigma: nat, qvs: seq<RSQVector>) {
    /** The tree built from a text that is not empty. */
    ghost predicate Indexes(s: seq<nat>) {
      && n == |s| > 0
      && nLevels > 0 && |qvs| == nLevels <= MAX_QUAD_LEVELS
      && Below(s, sigma + 1) && sigma < Pow4(nLevels)
      && LevelsHold(Rows(s, nLevels))
    }

    /** The tree of an empty text: no level in use. */
    ghost predicate IsEmpty() {
      n == 0 && nLevels == 0 && sigma == 0
    }

    ghost predicate Represents(s: seq<nat>) {
      if |s| == 0 then IsEmpty() else Indexes(s)
    }

    /** Level `l` stores digit `l` of the rows in the order of that level. */
    ghost predicate LevelsHold(w: seq<Word>) {
      && Deep(w, 0) && AllQuaternary(w)
      && forall l :: 0 <= l < |qvs| ==> Stores(qvs[l], Level(w, l), l)
    }

    lemma Shape(s: seq<nat>)
      requires Indexes(s)
      ensures n == |s| > 0 && 0 < nLevels == |qvs| <= MAX_QUAD_LEVELS
      ensures sigma < Pow4(nLevels)
      ensures Deep(Rows(s, nLevels), 0) && AllQuaternary(Rows(s, nLevels))
      ensures Below(s, Pow4(nLevels)) && forall i :: 0 <= i < |s| ==> s[i] <= sigma
    {}

    /** What a query needs to know about one level. */
    lemma AtLevel(s: seq<nat>, l: nat)
      requires Indexes(s) && l < nLevels
      ensures var v := Level(Rows(s, nLevels), l);
        && Stores(qvs[l], v, l) && qvs[l].Valid() && qvs[l].Contents() == Digits(v, l) && |v| == n && AllQuaternary(v)
        && (l + 1 < nLevels ==> Level(Rows(s, nLevels), l + 1) == Sorted(v, l))
    {
      hide Level, Sorted;
      var w := Rows(s, nLevels);
      RowsShape(s, nLevels);
      UniformLevel(w, nLevels, l);
      UniformAligned(w, nLevels, l);
    }

    /** The last level: the number of rows in the interval of the whole word. */
    method LastRank(ghost s: seq<nat>, ghost v: seq<Word>, ghost i: nat, symbol: nat, digit: nat, a: nat, e: nat) returns (r: nat)
      requires nLevels > 0 && nLevels == |qvs| && Deep(v, nLevels - 1) && AllQuaternary(v) && Stores(qvs[nLevels - 1], v, nLevels - 1)
      requires Below(s, Pow4(nLevels)) && symbol < Pow4(nLevels) && i <= |s|
      requires digit == SymbolWord(symbol, nLevels)[nLevels - 1]
      requires Holds(v, Rows(s, nLevels)[..i], SymbolWord(symbol, nLevels)[..nLevels - 1], a, e)
      ensures r == Rank<int>(s, symbol, i)
    {
      hide RSQVector.Valid, RSQVector.Contents, WithPrefix, Rank, SymbolWord;
      Bottom(v, s, nLevels, symbol, i, a, e);
      var last := qvs[nLevels - 1].RankUnchecked(digit, e);
      var first := qvs[nLevels - 1].RankUnchecked(digit, a);
      r := last - first;
    }

    /** Symbol at position `i`, one digit per level. */
    method GetUnchecked(ghost s: seq<nat>, i: nat) returns (r: nat)
      requires Indexes(s) && i < n
      ensures r == s[i]
    {
      hide Indexes, Level, Sorted, SymbolWord, Value, ShiftIn, Stores;
      Shape(s);
      ghost var w, c := Rows(s, nLevels), SymbolWord(s[i], nLevels);
      var result: nat, curI: nat, level: nat := 0, i, 0;
      RootRow(w, i);
      while level < nLevels - 1
        invariant 0 <= level < nLevels
        invariant curI < |Level(w, level)| && Level(w, level)[curI] == c
        invariant result == Value(c[..level])
      {
        AtLevel(s, level);
        ValuePush(c, level);
        var symbol, next := FollowRow(qvs[level], Level(w, level), level, curI);
        result := ShiftIn(result, symbol);
        curI := next;
        level := level + 1;
      }
      AtLevel(s, level);
      ValuePush(c, level);
      var last := ReadRow(qvs[level], Level(w, level), level, curI);
      r := ShiftIn(result, last);
      WordBack(s, nLevels, i);
    }

    method Get(ghost s: seq<nat>, i: nat) returns (r: Option<nat>)
      requires Represents(s)
      ensures r == if i < |s| then Some(s[i]) else None
    {
      if i >= n {
        return None;
      }
      var symbol := GetUnchecked(s, i);
      return Some(symbol);
    }

    /** Occurrences of `symbol` before position `i`, for a symbol of the alphabet. */
    method RankUnchecked(ghost s: seq<nat>, symbol: nat, i: nat) returns (r: nat)
      requires Indexes(s) && symbol <= sigma && i <= n
      ensures r == Rank<int>(s, symbol, i)
    {
      hide Indexes, Level, Sorted, SymbolWord, Rank, Holds, TwoBits, Stores, Child;
      Shape(s);
      ghost var w, c := Rows(s, nLevels), SymbolWord(symbol, nLevels);
      var shift := 2 * (nLevels - 1);
      var curI: nat, curP: nat, level: nat := i, 0, 0;
      RootInterval(w, i, c);
      while level < nLevels - 1
        invariant 0 <= level < nLevels && shift == 2 * (nLevels - 1 - level)
        invariant Holds(Level(w, level), w[..i], c[..level], curP, curI)
      {
        AtLevel(s, level);
        TwoBitsIsDigit(symbol, nLevels, level);
        curP, curI := FollowInterval(qvs[level], Level(w, level), w[..i], c, level, TwoBits(symbol, shift), curP, curI);
        shift := shift - 2;
        level := level + 1;
      }
      AtLevel(s, level);
      TwoBitsIsDigit(symbol, nLevels, level);
      r := LastRank(s, Level(w, level), i, symbol, TwoBits(symbol, shift), curP, curI);
    }

    /** Both queries in one descent. */
    method GetAndRank(ghost s: seq<nat>, i: nat) returns (r: Option<(nat, nat)>)
      requires Represents(s)
      ensures r == if i < |s| then Some((s[i], Rank<int>(s, s[i], i + 1))) else None
    {
      if i >= n || nLevels == 0 {
        return None;
      }
      var symbol, rank := GetAndRankUnchecked(s, i);
      return Some((symbol, rank));
    }

    /** One level: the digit of the row, and the rows before it with the same digits so far. */
    method GetAndRankStep(ghost s: seq<nat>, ghost i: nat, level: nat, ghost c: Word, result: nat, curP: nat, curI: nat)
      returns (result': nat, curP': nat, curI': nat)
      requires Indexes(s) && i < n && level + 1 < nLevels && c == SymbolWord(s[i], nLevels)
      requires curI < |Level(Rows(s, nLevels), level)| && Level(Rows(s, nLevels), level)[curI] == c
      requires Holds(Level(Rows(s, nLevels), level), Rows(s, nLevels)[..i], c[..level], curP, curI)
      requires result == Value(c[..level])
      ensures curI' < |Level(Rows(s, nLevels), level + 1)| && Level(Rows(s, nLevels), level + 1)[curI'] == c
      ensures Holds(Level(Rows(s, nLevels), level + 1), Rows(s, nLevels)[..i], c[..level + 1], curP', curI')
      ensures result' == Value(c[..level + 1])
    {
      hide Indexes, Level, Sorted, SymbolWord, Value, ShiftIn, Stores, Rank, Holds, Child, Rows;
      Shape(s);
      ghost var w := Rows(s, nLevels);
      AtLevel(s, level);
      ValuePush(c, level);
      var digit := ReadRow(qvs[level], Level(w, level), level, curI);
      RowMoves(Level(w, level), level, curI);
      result' := ShiftIn(result, digit);
      curP', curI' := FollowInterval(qvs[level], Level(w, level), w[..i], c, level, digit, curP, curI);
    }

    /** Symbol at position `i` and its occurrences up to and including it, in one descent. */
    method GetAndRankUnchecked(ghost s: seq<nat>, i: nat) returns (symbol: nat, rankInclusive: nat)
      requires Indexes(s) && i < n
      ensures symbol == s[i] && rankInclusive == Rank<int>(s, symbol, i + 1)
    {
      hide Indexes, Level, Sorted, SymbolWord, Value, ShiftIn, Stores, Rank, Holds, Child;
      Shape(s);
      ghost var w, c := Rows(s, nLevels), SymbolWord(s[i], nLevels);
      var result: nat, curI: nat, curP: nat, level: nat := 0, i, 0, 0;
      RootRow(w, i);
      RootInterval(w, i, c);
      while level < nLevels - 1
        invariant 0 <= level < nLevels
        invariant curI < |Level(w, level)| && Level(w, level)[curI] == c
        invariant Holds(Level(w, level), w[..i], c[..level], curP, curI)
        invariant result == Value(c[..level])
      {
        result, curP, curI := GetAndRankStep(s, i, level, c, result, curP, curI);
        level := level + 1;
      }
      AtLevel(s, level);
      ValuePush(c, level);
      var last := ReadRow(qvs[level], Level(w, level), level, curI);
      symbol := ShiftIn(result, last);
      WordBack(s, nLevels, i);
      var before := LastRank(s, Level(w, level), i, symbol, last, curP, curI);
      RankHere(s, i);
      rankInclusive := before + 1;
    }

    /** The way down from the start of the text. */
    method SelectDown(ghost s: seq<nat>, symbol: nat, pathOff: array<nat>, rankPathOff: array<nat>) returns (ghost ends: seq<nat>)
      requires Indexes(s) && symbol <= sigma
      requires pathOff != rankPathOff && pathOff.Length == rankPathOff.Length == MAX_QUAD_LEVELS
      modifies pathOff, rankPathOff
      ensures |ends| == nLevels <= MAX_QUAD_LEVELS
      ensures pathOff[0] == 0
      ensures Path(Rows(s, nLevels), SymbolWord(symbol, nLevels), nLevels, pathOff[..], rankPathOff[..], ends)
    {
      hide Indexes, Level, Sorted, SymbolWord, Rank, Holds, TwoBits, Stores, Child, PathAt;
      Shape(s);
      ghost var w, c := Rows(s, nLevels), SymbolWord(symbol, nLevels);
      ghost var e := n;
      var b: nat, level: nat := 0, 0;
      var shift := 2 * (nLevels - 1);
      ends := [];
      RootInterval(w, n, c);
      assert w[..n] == w;
      while level < nLevels
        invariant 0 <= level <= nLevels && |ends| == level && shift == 2 * (nLevels - 1 - level)
        invariant level < nLevels ==> Holds(Level(w, level), w, c[..level], b, e)
        invariant level == 0 ==> b == 0
        invariant level > 0 ==> pathOff[0] == 0
        invariant Path(w, c, level, pathOff[..], rankPathOff[..], ends)
      {
        pathOff[level] := b;
        AtLevel(s, level);
        TwoBitsIsDigit(symbol, nLevels, level);
        var next, rankB, nextEnd := FollowPath(qvs[level], Level(w, level), w, c, level, TwoBits(symbol, shift), b, e);
        rankPathOff[level] := rankB;
        ends := ends + [e];
        b, e := next, nextEnd;
        shift := shift - 2;
        level := level + 1;
      }
    }

    /** The way up along the remembered path. */
    method SelectAlong(ghost s: seq<nat>, symbol: nat, i: nat, pathOff: seq<nat>, rankPathOff: seq<nat>, ghost ends: seq<nat>)
      returns (r: Option<nat>)
      requires Indexes(s) && symbol <= sigma
      requires |pathOff| >= nLevels && |rankPathOff| >= nLevels && |ends| == nLevels
      requires Path(Rows(s, nLevels), SymbolWord(symbol, nLevels), nLevels, pathOff, rankPathOff, ends)
      requires pathOff[0] == 0
      ensures r.None? ==> Occs(Rows(s, nLevels), SymbolWord(symbol, nLevels)) <= i
      ensures r.Some? ==> r.value < n
      ensures r.Some? ==> Lifted(Rows(s, nLevels), SymbolWord(symbol, nLevels)[..0], SymbolWord(symbol, nLevels), i, r.value)
    {
      hide Indexes, Level, Sorted, SymbolWord, Rank, Holds, TwoBits, Stores, Lifted, PathAt;
      Shape(s);
      ghost var w, c := Rows(s, nLevels), SymbolWord(symbol, nLevels);
      var shift, result: nat, level := 0, i, nLevels;
      LeafOfSymbol(s, nLevels, symbol, i);
      while level > 0
        invariant 0 <= level <= nLevels && shift == 2 * (nLevels - level)
        invariant Lifted(w, c[..level], c, i, result)
        invariant level == 0 ==> result < n
      {
        level := level - 1;
        AtLevel(s, level);
        TwoBitsIsDigit(symbol, nLevels, level);
        var up := ClimbPath(qvs[level], Level(w, level), w, c, i, level, TwoBits(symbol, shift),
                               pathOff[level], rankPathOff[level], ends[level], result);
        if up.None? {
          return None;
        }
        result := up.value;
        shift := shift + 2;
      }
      return Some(result);
    }

    /**
     Position of occurrence `i` of `symbol`. On an empty tree the unsigned
     `n_levels - 1` wraps to the largest word, twice which is -2 in 64 signed bits:
     no level is visited and every occurrence of symbol 0 is claimed to exist.
     */
    method Select(ghost s: seq<nat>, symbol: nat, i: nat) returns (r: Option<nat>)
      requires Represents(s)
      ensures SelectSpec<int>(s, symbol, i, r) <==> !(|s| == 0 && symbol == 0)
      ensures |s| == 0 && symbol == 0 ==> r == Some(i)
    {
      hide Indexes, SymbolWord, Rank, Path, Lifted, IsSelect;
      if symbol > sigma {
        NoSymbolAbove(s, symbol);
        return None;
      }
      if nLevels == 0 {
        NoLevels(s);
        NothingSelected(s, symbol, i, i);
        return Some(i);
      }
      NoLevels(s);
      r := SelectInTree(s, symbol, i);
    }

    lemma NoLevels(s: seq<nat>)
      requires Represents(s)
      ensures n == |s|
      ensures nLevels == 0 <==> |s| == 0
    {}

    lemma NoSymbolAbove(s: seq<nat>, symbol: nat)
      requires Represents(s) && symbol > sigma
      ensures Occs<int>(s, symbol) == 0
    {
      NoSuchSymbol(s, symbol);
    }

    method SelectInTree(ghost s: seq<nat>, symbol: nat, i: nat) returns (r: Option<nat>)
      requires Indexes(s) && symbol <= sigma
      ensures SelectSpec<int>(s, symbol, i, r)
    {
      hide Indexes, SymbolWord, Rank, Path, Lifted, IsSelect;
      Shape(s);
      if nLevels > MAX_QUAD_LEVELS {
        assert false;
      }
      var pathOff, rankPathOff := new nat[MAX_QUAD_LEVELS](_ => 0), new nat[MAX_QUAD_LEVELS](_ => 0);
      ghost var ends := SelectDown(s, symbol, pathOff, rankPathOff);
      r := SelectAlong(s, symbol, i, pathOff[..], rankPathOff[..], ends);
      if r.Some? {
        RootLifted(s, nLevels, symbol, i, r.value);
      } else {
        OccsOfRows(s, nLevels, symbol);
      }
    }

    method RankOf(ghost s: seq<nat>, symbol: nat, i: nat) returns (r: Option<nat>)
      requires Represents(s)
      ensures r == if i > |s| || symbol > sigma then None else Some(Rank<int>(s, symbol, i))
    {
      if i > n || symbol > sigma {
        return None;
      }
      if nLevels == 0 {
        return Some(0);
      }
      var rank := RankUnchecked(s, symbol, i);
      return Some(rank);
    }
  }

  lemma NothingSelected(s: seq<nat>, symbol: nat, i: nat, p: nat)
    requires |s| == 0
    ensures !IsSelect<int>(s, symbol, i, p)
  {}

  lemma {:induction false} NoSuchSymbol(s: seq<nat>, symbol: nat)
    requires Below(s, symbol)
    ensures Occs<int>(s, symbol) == 0
  {
    NoRank(s, symbol, |s|);
  }

  lemma {:induction false} NoRank(s: seq<nat>, symbol: nat, i: nat)
    requires Below(s, symbol) && i <= |s|
    ensures Rank<int>(s, symbol, i) == 0
  {
    if i > 0 {
      NoRank(s, symbol, i - 1);
    }
  }

  lemma LeafOfSymbol(s: seq<nat>, n: nat, symbol: nat, k: nat)
    requires n > 0
    ensures Lifted(Rows(s, n), SymbolWord(symbol, n)[..n], SymbolWord(symbol, n), k, k)
  {
    var w, c := Rows(s, n), SymbolWord(symbol, n);
    hide SymbolWord;
    assert c[..n] == c;
    SameLengthPrefix(w, c, n);
    LiftedLeaf(w, c, k);
  }

  lemma OccsOfRows(s: seq<nat>, n: nat, symbol: nat)
    requires Below(s, Pow4(n)) && symbol < Pow4(n)
    ensures Occs(Rows(s, n), SymbolWord(symbol, n)) == Occs<int>(s, symbol)
  {
    RankOfRows(s, n, symbol, |s|);
  }

  lemma RootLifted(s: seq<nat>, n: nat, symbol: nat, k: nat, r: nat)
    requires Below(s, Pow4(n)) && symbol < Pow4(n) && r < |s|
    requires Lifted(Rows(s, n), SymbolWord(symbol, n)[..0], SymbolWord(symbol, n), k, r)
    ensures IsSelect<int>(s, symbol, k, r)
  {
    WithEmptyPrefix(Rows(s, n));
    SymbolWordInjectiveAt(s, n, symbol, r);
    RankOfRows(s, n, symbol, r);
  }

  lemma SymbolWordInjectiveAt(s: seq<nat>, n: nat, symbol: nat, r: nat)
    requires Below(s, Pow4(n)) && symbol < Pow4(n) && r < |s|
    ensures Rows(s, n)[r] == SymbolWord(symbol, n) ==> s[r] == symbol
  {
    if Rows(s, n)[r] == SymbolWord(symbol, n) {
      SymbolWordInjective(s[r], symbol, n);
    }
  }

  lemma RankHere(s: seq<nat>, i: nat)
    requires i < |s|
    ensures Rank<int>(s, s[i], i + 1) == Rank<int>(s, s[i], i) + 1
  {}

  /** At the last level the interval of a word counts its occurrences. */
  lemma Bottom(v: seq<Word>, s: seq<nat>, n: nat, symbol: nat, i: nat, a: nat, e: nat)
    requires n > 0 && Deep(v, n - 1) && AllQuaternary(v)
    requires Below(s, Pow4(n)) && symbol < Pow4(n) && i <= |s|
    requires Holds(v, Rows(s, n)[..i], SymbolWord(symbol, n)[..n - 1], a, e)
    ensures var d := SymbolWord(symbol, n)[n - 1]; var k := Digits(v, n - 1);
      && a <= e <= |v| && Rank(k, d, a) <= Rank(k, d, e)
      && Rank(k, d, e) - Rank(k, d, a) == Rank<int>(s, symbol, i)
  {
    var c := SymbolWord(symbol, n);
    assert c[..n - 1] + [c[n - 1]] == c;
    hide SymbolWord, WithPrefix;
    RankMonotone(Digits(v, n - 1), c[n - 1], a, e);
    ChildCount(v, Rows(s, n)[..i], c[..n - 1], c[n - 1], a, e);
    CountBelow(s, n, symbol, i);
  }

  /** Rows of a prefix of the text that begin with a whole word are the occurrences of its symbol. */
  lemma CountBelow(s: seq<nat>, n: nat, symbol: nat, i: nat)
    requires Below(s, Pow4(n)) && symbol < Pow4(n) && i <= |s|
    ensures |WithPrefix(Rows(s, n)[..i], SymbolWord(symbol, n))| == Rank<int>(s, symbol, i)
  {
    var w, c := Rows(s, n), SymbolWord(symbol, n);
    SameLengthPrefix(w[..i], c, n);
    WithWholePrefix(w[..i], c);
    RankPrefix(w[..i], w, c, i);
    RankOfRows(s, n, symbol, i);
  }

  lemma SameLengthPrefix(w: seq<Word>, c: Word, n: nat)
    requires Uniform(w, n) && |c| == n
    ensures forall i :: 0 <= i < |w| && c <= w[i] ==> w[i] == c
  {}

  lemma WordBack(s: seq<nat>, n: nat, i: nat)
    requires i < |s| && s[i] < Pow4(n)
    ensures Value(SymbolWord(s[i], n)[..n]) == s[i]
  {
    ValueOfSymbol(s[i], n);
    assert SymbolWord(s[i], n)[..n] == SymbolWord(s[i], n);
  }
}
