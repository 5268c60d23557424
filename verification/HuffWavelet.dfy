/**
 The Huffman-shaped quad wavelet tree: rows are prefix codes of different
 lengths, and a level holds only the rows whose code goes on.
 */
module HuffWavelet {
  import opened Wrappers
  import opened RankSelect
  import opened StablePartition
  import opened Arithmetic
  import opened Words
  import opened WaveletMatrix
  import opened CraftCodes
  import opened RSQVectors
  import opened PartitionInto
  import opened LevelSteps
  import opened CodeTables
  import opened DecodeTables
  import opened QuadWavelet
  import opened HuffPaths

  datatype HuffQWaveletTree = HuffQWaveletTree(n: nat, nLevels: nat, codesEncode: seq<PrefixCode>, codesDecode: seq<seq<Entry>>,
                                               qvs: seq<RSQVector>, lens: seq<nat>) {
    ghost predicate Shaped() {
      && 0 < nLevels == |qvs| == |lens| && nLevels <= MAX_QUAD_LEVELS
      && AllLevelsValid(qvs)
      && (forall l :: 0 <= l < nLevels ==> lens[l] == |qvs[l].Contents()|)
      && lens[0] == n
    }

    /** The quad sequences of the levels. */
    ghost function Ks(): (ks: seq<seq<int>>)
      requires AllLevelsValid(qvs)
      ensures |ks| == |qvs| && Levels(ks)
      ensures forall l :: 0 <= l < |ks| ==> ks[l] == qvs[l].Contents()
    {
      ContentsOf(qvs)
    }

    function HasCode(symbol: nat): bool {
      symbol < |codesEncode| && codesEncode[symbol].len != 0
    }

    /** The path of every row spells the code of its symbol, and the tables say which symbol that is. */
    ghost predicate Carries(s: seq<nat>)
      requires Shaped()
    {
      && |s| == n && Labels(s, codesEncode) && Decodes(codesDecode, codesEncode)
      && CodeRows(s, codesEncode) == PathRows(Ks(), n)
      && forall x: nat :: HasCode(x) ==> Fits(Ks(), CodeWord(codesEncode[x]), n) && NoneBeyond(PathRows(Ks(), n), CodeWord(codesEncode[x]))
    }

    /** All that queries rely on; levels may hold more than the text. */
    ghost predicate Serves(s: seq<nat>) {
      if |s| == 0 then n == 0 && nLevels == 0 && forall x: nat :: !HasCode(x)
      else Shaped() && Carries(s)
    }

    /** The code of every symbol leads down inside the levels. */
    ghost predicate Walks() {
      forall x: nat :: HasCode(x) ==>
        && |qvs| == nLevels <= MAX_QUAD_LEVELS && AllLevelsValid(qvs)
        && GoodCode(codesEncode[x]) && Fits(Ks(), CodeWord(codesEncode[x]), n)
    }

    /** As `Serves`, except that an empty text may come with levels and codes. */
    ghost predicate Opens(s: seq<nat>) {
      if |s| == 0 then n == 0 && Walks() else Shaped() && Carries(s)
    }

    lemma ServesOpens(s: seq<nat>)
      requires Serves(s)
      ensures Opens(s)
    {}

    lemma Way(s: seq<nat>, symbol: nat)
      requires Opens(s) && HasCode(symbol)
      ensures n == |s| && |qvs| == nLevels <= MAX_QUAD_LEVELS && AllLevelsValid(qvs)
      ensures symbol < |codesEncode| && codesEncode[symbol].len > 0 && GoodCode(codesEncode[symbol])
      ensures Fits(Ks(), CodeWord(codesEncode[symbol]), n) && 0 < |CodeWord(codesEncode[symbol])| <= nLevels
    {}

    lemma WayLevel(l: nat)
      requires AllLevelsValid(qvs) && l < |qvs|
      ensures qvs[l].Valid() && qvs[l].Contents() == Ks()[l]
    {}

    lemma Shape(s: seq<nat>)
      requires Serves(s) && n > 0
      ensures n == |s| && Shaped() && Carries(s)
      ensures CodesCover(s, codesEncode) && Labels(s, codesEncode) && |Ks()[0]| == n
    {}

    lemma OneLevel(l: nat)
      requires Shaped() && l < nLevels
      ensures |qvs| == |lens| == nLevels && lens[l] == |Ks()[l]| && qvs[l].Valid() && qvs[l].Contents() == Ks()[l]
    {}

    /** Code of a symbol that has one. */
    lemma CodeOf(s: seq<nat>, symbol: nat)
      requires Serves(s) && HasCode(symbol)
      ensures n > 0 && Shaped() && Carries(s) && GoodCode(codesEncode[symbol])
      ensures var c := CodeWord(codesEncode[symbol]);
        0 < |c| <= nLevels && Fits(Ks(), c, n) && NoneBeyond(PathRows(Ks(), n), c)
    {}

    lemma RowCode(s: seq<nat>, i: nat)
      requires Serves(s) && i < |s|
      ensures HasCode(s[i]) && Shaped() && CodeWord(codesEncode[s[i]]) == PathWord(Ks(), 0, i)
    {
      Shape(s);
      assert CodeRows(s, codesEncode)[i] == PathRows(Ks(), n)[i];
    }

    // ---- Symbol at a position ----

    /** Digits are read until the row has left the levels. */
    method GetUnchecked(ghost s: seq<nat>, i: nat) returns (r: nat)
      requires Serves(s) && i < n
      ensures i < |s| && r == s[i]
    {
      hide Serves, Carries, CodeWord, Value, ShiftIn32, PathWord, Below, RSQVector.Valid, RSQVector.Contents, Labels, Decodes, GoodCode, Child, Shaped, Levels, Fits, NoneBeyond;
      Shape(s);
      RowCode(s, i);
      ghost var ks, c := Ks(), CodeWord(codesEncode[s[i]]);
      CodeOf(s, s[i]);
      var result: nat, curI: nat, level: nat, shift: nat := 0, i, 0, 0;
      assert Value(c[..0]) == 0 by { NothingRead(c); }
      while level < nLevels
        invariant 0 <= level <= nLevels && level <= |c| && shift == 2 * level
        invariant result == Value(c[..level])
        invariant if level < |c| then Inside(ks, level, curI) && PathWord(ks, level, curI) == c[level..]
                  else !Inside(ks, level, curI)
      {
        OneLevel(level);
        if curI >= lens[level] {
          break;
        }
        ValuePush(c, level);
        ShortCode(codesEncode[s[i]], level);
        var symbol, next := ReadAndMove(qvs[level], ks, level, curI, c);
        result := ShiftIn32(result, symbol);
        curI := next;
        level := level + 1;
        shift := shift + 2;
      }
      assert level == |c|;
      r := Translate(s, shift, result, s[i]);
    }

    /** The symbol whose code has been read. */
    method Translate(ghost s: seq<nat>, len: nat, content: nat, ghost x: nat) returns (r: nat)
      requires Serves(s) && HasCode(x)
      requires len == 2 * |CodeWord(codesEncode[x])| && content == Value(CodeWord(codesEncode[x])[..len / 2])
      ensures r == x
    {
      hide Fits, NoneBeyond;
      var code := codesEncode[x];
      CodeOf(s, x);
      Shape(s);
      WordValue(code);
      assert CodeWord(code)[..len / 2] == CodeWord(code);
      var found := Decode(codesDecode, codesEncode, len, content, x);
      r := found.value;
    }

    method Get(ghost s: seq<nat>, i: nat) returns (r: Option<nat>)
      requires Opens(s)
      ensures r == if i < |s| then Some(s[i]) else None
    {
      hide Shaped, Carries, Walks;
      TextLength(s);
      if i >= n {
        return None;
      }
      var symbol := GetUnchecked(s, i);
      return Some(symbol);
    }

    // ---- Occurrences before a position ----

    method RankUnchecked(ghost s: seq<nat>, symbol: nat, i: nat) returns (r: nat)
      requires Opens(s) && HasCode(symbol) && i <= n
      ensures n == |s| && r == Rank<int>(s, symbol, i)
    {
      hide *;
      Way(s, symbol);
      var curI: nat, curP: nat := i, 0;
      var code := codesEncode[symbol];
      ghost var ks, c := Ks(), CodeWord(code);
      var shift, repr, level: nat := code.len - 2, code.content, 0;
      ShiftStart(code);
      PathStarts(ks, c, i);
      while shift >= 0
        invariant 0 <= level <= |c| && shift == 2 * (|c| - 1 - level)
        invariant curP == PathPos(ks, c, 0, level) && curI == PathPos(ks, c, i, level)
        decreases shift + 2
      {
        CodeDigit(code, level);
        CodeStep(ks, c, i, n, level);
        WayLevel(level);
        var twoBits := TwoBits(repr, shift);
        curP := qvs[level].ChildOf(twoBits, curP);
        curI := qvs[level].ChildOf(twoBits, curI);
        level := level + 1;
        shift := shift - 2;
      }
      LeafCount(s, symbol, i);
      r := curI - curP;
    }

    /** The last interval of a code counts its symbol. */
    lemma LeafCount(s: seq<nat>, symbol: nat, i: nat)
      requires Opens(s) && HasCode(symbol) && i <= n
      ensures n == |s| && AllLevelsValid(qvs)
      ensures var c := CodeWord(codesEncode[symbol]);
        && |c| <= |Ks()| && PathPos(Ks(), c, 0, |c|) <= PathPos(Ks(), c, i, |c|)
        && PathPos(Ks(), c, i, |c|) - PathPos(Ks(), c, 0, |c|) == Rank<int>(s, symbol, i)
    {
      hide Rank, PathPos, CodeWord, GoodCode, Labels, Walks, Carries, WithPrefix, Fits;
      Way(s, symbol);
      if n > 0 {
        assert Serves(s);
        Shape(s);
        CodeOf(s, symbol);
        var w, c := PathRows(Ks(), n), CodeWord(codesEncode[symbol]);
        CodeCount(Ks(), n, c, i);
        WithWholePrefix(w[..i], c);
        RankPrefix(w[..i], w, c, i);
        RowsOfText(s);
        RankOfCodeRows(s, codesEncode, symbol, i);
      }
    }

    lemma RowsOfText(s: seq<nat>)
      requires Serves(s) && n > 0
      ensures Shaped() && CodesCover(s, codesEncode) && Labels(s, codesEncode) && CodeRows(s, codesEncode) == PathRows(Ks(), n)
    {}

    /** Only symbols with a code have a rank. */
    method RankOf(ghost s: seq<nat>, symbol: nat, i: nat) returns (r: Option<nat>)
      requires Opens(s)
      ensures r == if i > |s| || !HasCode(symbol) then None else Some(Rank<int>(s, symbol, i))
    {
      hide Walks, Carries, Shaped;
      if i > n || symbol >= |codesEncode| || codesEncode[symbol].len == 0 {
        TextLength(s);
        return None;
      }
      var rank := RankUnchecked(s, symbol, i);
      return Some(rank);
    }

    lemma TextLength(s: seq<nat>)
      requires Opens(s)
      ensures n == |s|
    {}

    // ---- Position of an occurrence ----

    /** The way down from the start of the text. */
    method SelectDown(ghost s: seq<nat>, symbol: nat, pathOff: array<nat>, rankPathOff: array<nat>) returns (level: nat)
      requires Opens(s) && HasCode(symbol)
      requires pathOff != rankPathOff && pathOff.Length == rankPathOff.Length == MAX_QUAD_LEVELS
      modifies pathOff, rankPathOff
      ensures AllLevelsValid(qvs) && 0 < level == |CodeWord(codesEncode[symbol])| <= nLevels == |qvs| <= MAX_QUAD_LEVELS
      ensures WayDown(Ks(), CodeWord(codesEncode[symbol]), level, pathOff[..], rankPathOff[..])
    {
      hide Opens, CodeWord, Rank, TwoBits, Fits, PathPos, NoneBeyond, RSQVector.Valid, RSQVector.Contents, Labels, GoodCode;
      Way(s, symbol);
      var code := codesEncode[symbol];
      ghost var ks, c := Ks(), CodeWord(code);
      var shift, repr, b: nat := code.len - 2, code.content, 0;
      level := 0;
      ShiftStart(code);
      PathStarts(ks, c, 0);
      while shift >= 0
        invariant 0 <= level <= |c| && shift == 2 * (|c| - 1 - level)
        invariant b == PathPos(ks, c, 0, level)
        invariant WayDown(ks, c, level, pathOff[..], rankPathOff[..])
        decreases shift + 2
      {
        pathOff[level] := b;
        CodeDigit(code, level);
        CodeStep(ks, c, 0, n, level);
        WayLevel(level);
        var twoBits := TwoBits(repr, shift);
        var rankB := qvs[level].RankOf(twoBits, b);
        b := rankB.value + qvs[level].OccsSmallerUnchecked(twoBits);
        rankPathOff[level] := rankB.value;
        level := level + 1;
        shift := shift - 2;
      }
    }

    /** Where the climb from index `i` below the code of `symbol` arrives. */
    ghost function Climbed(s: seq<nat>, symbol: nat, i: nat): Option<nat>
      requires Opens(s)
    {
      if HasCode(symbol) then
        Way(s, symbol);
        FitsLess(Ks(), CodeWord(codesEncode[symbol]), n);
        Climb(Ks(), CodeWord(codesEncode[symbol]), |CodeWord(codesEncode[symbol])|, i)
      else None
    }

    /** The way up along the remembered path. */
    method SelectAlong(ghost s: seq<nat>, symbol: nat, i: nat, depth: nat, pathOff: seq<nat>, rankPathOff: seq<nat>) returns (r: Option<nat>)
      requires Opens(s) && HasCode(symbol) && AllLevelsValid(qvs)
      requires 0 < depth == |CodeWord(codesEncode[symbol])| <= nLevels == |qvs| && |pathOff| >= depth && |rankPathOff| >= depth
      requires WayDown(Ks(), CodeWord(codesEncode[symbol]), depth, pathOff, rankPathOff)
      ensures r == Climbed(s, symbol, i)
    {
      hide *;
      Way(s, symbol);
      var code := codesEncode[symbol];
      var repr := code.content;
      ghost var ks, c := Ks(), CodeWord(code);
      FitsLess(ks, c, n);
      ClimbedIs(s, symbol, i);
      var shift, result: nat, level := 0, i, depth;
      while level > 0
        invariant 0 <= level <= depth && shift == 2 * (depth - level)
        invariant Climb(ks, c, level, result) == Climb(ks, c, |c|, i)
      {
        level := level - 1;
        CodeDigit(code, level);
        WayLevel(level);
        PathRemembered(ks, c, depth, pathOff, rankPathOff, level);
        var up := qvs[level].Select(TwoBits(repr, shift), rankPathOff[level] + result);
        if up.None? {
          ClimbEnds(ks, c, level, result, up);
          return None;
        }
        ClimbGoesOn(ks, c, level, result, up);
        result := up.value - pathOff[level];
        shift := shift + 2;
      }
      ClimbStart(ks, c, result);
      return Some(result);
    }

    lemma ClimbedIs(s: seq<nat>, symbol: nat, i: nat)
      requires Opens(s) && HasCode(symbol) && AllLevelsValid(qvs)
      requires var c := CodeWord(codesEncode[symbol]); Quaternary(c) && Fits(Ks(), c, 0)
      ensures Climbed(s, symbol, i) == Climb(Ks(), CodeWord(codesEncode[symbol]), |CodeWord(codesEncode[symbol])|, i)
    {}

    /** Position of occurrence `i` of `symbol`: where the climb arrives, which is that position on every tree that serves its text. */
    method Select(ghost s: seq<nat>, symbol: nat, i: nat) returns (r: Option<nat>)
      requires Opens(s)
      ensures r == Climbed(s, symbol, i)
      ensures Serves(s) ==> SelectSpec<int>(s, symbol, i, r)
    {
      hide CodeWord, Rank, IsSelect, Carries, WayDown, Labels, Opens, Shaped, Climb, Fits;
      if symbol >= |codesEncode| || codesEncode[symbol].len == 0 {
        if Serves(s) {
          CodelessNever(s, symbol);
        }
        return None;
      }
      Way(s, symbol);
      if nLevels > MAX_QUAD_LEVELS {
        assert false;
      }
      var pathOff, rankPathOff := new nat[MAX_QUAD_LEVELS](_ => 0), new nat[MAX_QUAD_LEVELS](_ => 0);
      var level := SelectDown(s, symbol, pathOff, rankPathOff);
      r := SelectAlong(s, symbol, i, level, pathOff[..], rankPathOff[..]);
      if Serves(s) {
        ClimbSelects(s, symbol, i);
      }
    }

    lemma CodelessNever(s: seq<nat>, symbol: nat)
      requires Serves(s) && !HasCode(symbol)
      ensures Occs<int>(s, symbol) == 0
    {
      forall i | 0 <= i < |s|
        ensures s[i] != symbol
      {
        RowCode(s, i);
      }
      NeverOccurs(s, symbol, |s|);
    }

    /** Among the rows of a text the climb finds the occurrences of its symbol. */
    lemma ClimbSelects(s: seq<nat>, symbol: nat, i: nat)
      requires Serves(s) && HasCode(symbol) && Opens(s)
      ensures SelectSpec<int>(s, symbol, i, Climbed(s, symbol, i))
    {
      hide Rank, PathPos, CodeWord, GoodCode, Labels, Walks, Carries, Fits, Climb, Begins, PathWord, Opens, Serves, IsSelect;
      Way(s, symbol);
      CodeOf(s, symbol);
      FitsLess(Ks(), CodeWord(codesEncode[symbol]), n);
      var up := Climbed(s, symbol, i);
      if up.Some? {
        ArrivesAtOccurrence(s, symbol, i, up.value);
      } else if i < Occs<int>(s, symbol) {
        SelectExists<int>(s, symbol, i);
        var p: nat :| IsSelect<int>(s, symbol, i, p);
        OccurrenceIsReached(s, symbol, i, p);
      }
    }

    lemma ArrivesAtOccurrence(s: seq<nat>, symbol: nat, i: nat, p: nat)
      requires Serves(s) && HasCode(symbol) && Opens(s) && Climbed(s, symbol, i) == Some(p)
      ensures IsSelect<int>(s, symbol, i, p)
    {
      hide Rank, PathPos, CodeWord, GoodCode, Labels, Walks, Carries, Fits, Climb, Begins, PathWord, Opens, Serves;
      Way(s, symbol);
      CodeOf(s, symbol);
      Shape(s);
      var ks, c := Ks(), CodeWord(codesEncode[symbol]);
      FitsLess(ks, c, n);
      ClimbBegins(ks, c, |c|, i, p);
      BeginsInside(ks, c, p);
      BeginsWord(ks, c, p, |c|);
      assert c[..|c|] == c;
      assert PathRows(ks, n)[p] == c;
      RowCode(s, p);
      SameWord(s, codesEncode, symbol, s[p]);
      LeafCount(s, symbol, p);
    }

    lemma OccurrenceIsReached(s: seq<nat>, symbol: nat, i: nat, p: nat)
      requires Serves(s) && HasCode(symbol) && Opens(s) && IsSelect<int>(s, symbol, i, p)
      ensures Climbed(s, symbol, i) == Some(p)
    {
      hide Rank, PathPos, CodeWord, GoodCode, Labels, Walks, Carries, Fits, Climb, Begins, PathWord, Opens, Serves;
      Way(s, symbol);
      CodeOf(s, symbol);
      Shape(s);
      var ks, c := Ks(), CodeWord(codesEncode[symbol]);
      FitsLess(ks, c, n);
      RowCode(s, p);
      assert c[..|c|] == c;
      WordBegins(ks, c, p, |c|);
      BeginsClimb(ks, c, p, |c|);
      LeafCount(s, symbol, p);
    }

    // ---- An empty text ----

    /** No row of the first level spells a code. */
    ghost predicate NoStrayRow() {
      forall x: nat :: HasCode(x) ==> AllLevelsValid(qvs) && |qvs| > 0 && NoRowBegins(Ks(), CodeWord(codesEncode[x]))
    }

    /**
     About an empty text `select` finds nothing, as it must, exactly when no row of the first level
     begins with a code, and exactly when it finds no first occurrence of a symbol with a code.
     */
    lemma EmptyTextSelect()
      requires Opens([])
      ensures (forall x: nat, k: nat :: SelectSpec<int>([], x, k, Climbed([], x, k))) <==> NoStrayRow()
      ensures NoStrayRow() <==> forall x: nat :: HasCode(x) ==> Climbed([], x, 0) == None
    {
      hide CodeWord, GoodCode, Walks, Fits, Climb, PathWord, Opens, Labels, Carries, NoRowBegins, Climbed;
      forall x: nat, k: nat
        ensures SelectSpec<int>([], x, k, Climbed([], x, k)) <==> Climbed([], x, k) == None
      {}
      forall x: nat | HasCode(x)
        ensures AllLevelsValid(qvs) && |qvs| > 0
        ensures Climbed([], x, 0) == None <==> NoRowBegins(Ks(), CodeWord(codesEncode[x]))
      {
        EmptyTextCode(x);
      }
      forall x: nat, k: nat | Climbed([], x, k) != None
        ensures HasCode(x) && Climbed([], x, 0) != None
      {
        if HasCode(x) {
          EmptyTextFirst(x, k);
        } else {
          Codeless([], x, k);
        }
      }
    }

    lemma Codeless(s: seq<nat>, x: nat, k: nat)
      requires Opens(s) && !HasCode(x)
      ensures Climbed(s, x, k) == None
    {}

    lemma EmptyTextCode(x: nat)
      requires Opens([]) && HasCode(x)
      ensures AllLevelsValid(qvs) && |qvs| > 0
      ensures Climbed([], x, 0) == None <==> NoRowBegins(Ks(), CodeWord(codesEncode[x]))
    {
      hide CodeWord, GoodCode, Walks, Fits, Climb, PathWord, Opens, Labels, Carries, NoRowBegins;
      Way([], x);
      FitsLess(Ks(), CodeWord(codesEncode[x]), n);
      ClimbFindsNothing(Ks(), CodeWord(codesEncode[x]));
    }

    lemma EmptyTextFirst(x: nat, k: nat)
      requires Opens([]) && HasCode(x) && Climbed([], x, k) != None
      ensures Climbed([], x, 0) != None
    {
      hide CodeWord, GoodCode, Walks, Fits, Climb, Opens, Labels, Carries;
      Way([], x);
      FitsLess(Ks(), CodeWord(codesEncode[x]), n);
      ClimbMonotone(Ks(), CodeWord(codesEncode[x]), |CodeWord(codesEncode[x])|, 0, k);
    }

    // ---- Trees that construction makes ----

    /** Every level holds exactly the rows that reach it. */
    ghost predicate Indexes(s: seq<nat>) {
      && n == |s| > 0
      && |qvs| == |lens| == nLevels <= MAX_QUAD_LEVELS
      && Encodes(s, codesEncode)
      && Decodes(codesDecode, codesEncode) && |codesDecode| == 2 * nLevels + 1 && codesDecode[0] == []
      && LevelsHold(CodeRows(s, codesEncode))
    }

    ghost predicate LevelsHold(w: seq<Word>) {
      && Aligned(w) && PrefixFree(w)
      && (forall i :: 0 <= i < |w| ==> |w[i]| <= |qvs|)
      && |lens| == |qvs|
      && forall l :: 0 <= l < |qvs| ==> Stores(qvs[l], Level(w, l), l) && lens[l] == |Level(w, l)|
    }

    /** What construction makes of an empty text. */
    ghost predicate IsEmpty() {
      n == 0 && nLevels == 0 && codesEncode == [] && codesDecode == [] && |qvs| == 1 && lens == [0]
    }

    ghost predicate Represents(s: seq<nat>) {
      if |s| == 0 then IsEmpty() else Indexes(s)
    }

    lemma AtLevel(s: seq<nat>, l: nat)
      requires Indexes(s) && l < nLevels
      ensures CodesCover(s, codesEncode)
      ensures var v := Level(CodeRows(s, codesEncode), l);
        && l < |lens| && lens[l] == |v| && l < |qvs| && Stores(qvs[l], v, l) && AllQuaternary(v)
    {
      hide Level, Aligned, PrefixFree, Labels;
      CodeRowsShape(s, codesEncode);
      LevelElements(CodeRows(s, codesEncode), l);
    }

    /** Queries on a tree from construction answer about its text, and exactly the symbols that occur have a code. */
    lemma RepresentsServes(s: seq<nat>)
      requires Represents(s)
      ensures Serves(s) && Opens(s) && forall x: nat :: HasCode(x) <==> x in s
    {
      hide Level, Aligned, PrefixFree, Labels, Decodes, CodeWord, Fits, PathWord, Below;
      if |s| > 0 {
        BuiltShape(s);
        BuiltRows(s);
        forall x: nat | HasCode(x)
          ensures Fits(Ks(), CodeWord(codesEncode[x]), n) && NoneBeyond(PathRows(Ks(), n), CodeWord(codesEncode[x]))
        {
          BuiltCode(s, x);
        }
      }
      ServesOpens(s);
    }

    lemma BuiltShape(s: seq<nat>)
      requires Indexes(s)
      ensures Shaped() && CodesCover(s, codesEncode) && forall l :: 0 <= l < nLevels ==> Ks()[l] == LevelDigits(CodeRows(s, codesEncode), l)
      ensures Deep(CodeRows(s, codesEncode), 0) && AllQuaternary(CodeRows(s, codesEncode))
    {
      hide Level, Aligned, PrefixFree, Labels, Decodes, CodeWord, RSQVector.Valid, RSQVector.Contents;
      CodeRowsShape(s, codesEncode);
      LevelZero(CodeRows(s, codesEncode));
      Covered(s, codesEncode, s[0]);
      var w := CodeRows(s, codesEncode);
      assert 0 < |w[0]| <= |qvs|;
    }

    /** What is left of a row at its place on a level. */
    lemma {:induction false} BuiltRow(s: seq<nat>, l: nat, i: nat)
      requires Indexes(s) && Shaped() && l < nLevels && i < lens[l]
      ensures i < |Level(CodeRows(s, codesEncode), l)| && PathWord(Ks(), l, i) == Level(CodeRows(s, codesEncode), l)[i][l..]
      decreases nLevels - l
    {
      hide Level, PrefixFree, Labels, Decodes, CodeWord, RSQVector.Valid, RSQVector.Contents, PathWord, Below, Sorted;
      hide LevelDigits, Aligned, Stores, Rank, OccsBelow;
      AtLevel(s, l);
      var v := Level(CodeRows(s, codesEncode), l);
      var q := BuiltStep(s, l, i);
      PathStep(Ks(), l, i);
      if l + 1 < nLevels && q < lens[l + 1] {
        BuiltRow(s, l + 1, q);
        BelowInside(Ks(), l + 1, q);
        assert v[i][l..] == [v[i][l]] + v[i][l + 1..];
      } else {
        BelowOutside(Ks(), l + 1, q);
        assert v[i][l..] == [v[i][l]];
      }
      assert PathWord(Ks(), l, i) == [PathWord(Ks(), l, i)[0]] + PathWord(Ks(), l, i)[1..];
    }

    /** A row moves to its place on the next level, unless it ends here. */
    lemma BuiltStep(s: seq<nat>, l: nat, i: nat) returns (q: nat)
      requires Indexes(s) && Shaped() && l < nLevels && i < lens[l]
      ensures i < |Level(CodeRows(s, codesEncode), l)|
      ensures var v := Level(CodeRows(s, codesEncode), l);
        && Ks()[l][i] == v[i][l] && q == Move(Ks()[l], i)
        && if l + 1 < nLevels && q < lens[l + 1] then q < |Level(CodeRows(s, codesEncode), l + 1)| && Level(CodeRows(s, codesEncode), l + 1)[q] == v[i]
           else |v[i]| == l + 1
    {
      hide Level, PrefixFree, Labels, Decodes, CodeWord, RSQVector.Valid, RSQVector.Contents, PathWord, Below, Sorted, Rank, OccsBelow;
      AtLevel(s, l);
      BuiltShape(s);
      var w := CodeRows(s, codesEncode);
      var v, next := Level(w, l), Level(w, l + 1);
      LevelElements(w, l);
      assert Follows(v, next, l);
      RowStep(v, next, l, i);
      q := Move(Ks()[l], i);
      assert v[i] in v && v[i] in w;
      assert |v[i]| <= nLevels;
      if l + 1 < nLevels {
        AtLevel(s, l + 1);
      }
    }

    lemma BuiltRows(s: seq<nat>)
      requires Indexes(s) && Shaped()
      ensures CodeRows(s, codesEncode) == PathRows(Ks(), n)
    {
      hide Level, Aligned, PrefixFree, Labels, Decodes, CodeWord, RSQVector.Valid, RSQVector.Contents, PathWord;
      BuiltShape(s);
      var w := CodeRows(s, codesEncode);
      LevelZero(w);
      forall i | 0 <= i < n
        ensures w[i] == PathWord(Ks(), 0, i)
      {
        BuiltRow(s, 0, i);
        assert w[i][0..] == w[i];
      }
    }

    lemma BuiltCode(s: seq<nat>, x: nat)
      requires Indexes(s) && Shaped() && HasCode(x) && CodeRows(s, codesEncode) == PathRows(Ks(), n)
      ensures var c := CodeWord(codesEncode[x]); Fits(Ks(), c, n) && NoneBeyond(PathRows(Ks(), n), c)
    {
      hide Level, Aligned, Decodes, CodeWord, RSQVector.Valid, RSQVector.Contents, PathWord, PathPos, Holds, PrefixFree, NoneBeyond;
      var w, c := CodeRows(s, codesEncode), CodeWord(codesEncode[x]);
      assert x in s;
      WordInRows(s, codesEncode, x);
      var k :| 0 <= k < |w| && w[k] == c;
      assert |c| <= nLevels;
      FreeOfLonger(w, c);
      forall l | 0 <= l < |c|
        ensures PathPos(Ks(), c, n, l) <= |Ks()[l]|
      {
        BuiltInterval(s, c, l);
      }
    }

    lemma {:induction false} BuiltInterval(s: seq<nat>, c: Word, l: nat)
      requires Indexes(s) && Shaped() && c in CodeRows(s, codesEncode) && l < |c| <= nLevels && Quaternary(c)
      ensures PathPos(Ks(), c, n, l) <= |Ks()[l]|
      ensures Holds(Level(CodeRows(s, codesEncode), l), CodeRows(s, codesEncode), c[..l], PathPos(Ks(), c, 0, l), PathPos(Ks(), c, n, l))
    {
      hide Level, Labels, Decodes, CodeWord, RSQVector.Valid, RSQVector.Contents, PathWord, Aligned, PrefixFree, WithPrefix, Rank, OccsBelow, Child;
      BuiltShape(s);
      var w := CodeRows(s, codesEncode);
      AtLevel(s, l);
      if l == 0 {
        RootInterval(w, n, c);
        assert w[..n] == w;
      } else {
        AtLevel(s, l - 1);
        BuiltInterval(s, c, l - 1);
        WholeInsideNext(w, c, l - 1, PathPos(Ks(), c, 0, l - 1), PathPos(Ks(), c, n, l - 1));
      }
    }
  }

  /** No row of `w` goes on beyond the word `c`. */
  ghost predicate NoneBeyond(w: seq<Word>, c: Word) {
    forall i :: 0 <= i < |w| && c <= w[i] ==> w[i] == c
  }

  lemma FreeOfLonger(w: seq<Word>, c: Word)
    requires PrefixFree(w) && c in w
    ensures NoneBeyond(w, c)
  {
    OnlyWhole(w, c, |w|);
  }

  /** The starts of all intervals of a code, with the digit ranks there. */
  ghost predicate WayDown(ks: seq<seq<int>>, c: Word, level: nat, pathOff: seq<nat>, rankPathOff: seq<nat>)
    requires Quaternary(c) && level <= |c| <= |ks| && level <= |pathOff| && level <= |rankPathOff|
  {
    forall l :: 0 <= l < level ==>
      && pathOff[l] == PathPos(ks, c, 0, l) && pathOff[l] <= |ks[l]|
      && rankPathOff[l] == Rank(ks[l], c[l], pathOff[l])
  }

  lemma NothingRead(c: Word)
    ensures Value(c[..0]) == 0
  {}

  lemma PathStarts(ks: seq<seq<int>>, c: Word, i: nat)
    requires Quaternary(c)
    ensures PathPos(ks, c, 0, 0) == 0 && PathPos(ks, c, i, 0) == i
  {}

  lemma BelowOutside(ks: seq<seq<int>>, l: nat, q: nat)
    requires Levels(ks) && 0 < l <= |ks| && !Inside(ks, l, q)
    ensures Below(ks, l, q) == []
  {}

  lemma BelowInside(ks: seq<seq<int>>, l: nat, q: nat)
    requires Levels(ks) && 0 < l && Inside(ks, l, q)
    ensures Below(ks, l, q) == PathWord(ks, l, q)
  {}

  /** One level of the path of a row. */
  lemma RowDescends(ks: seq<seq<int>>, l: nat, i: nat, c: Word)
    requires Levels(ks) && Inside(ks, l, i) && l < |c| && PathWord(ks, l, i) == c[l..]
    ensures ks[l][i] == c[l] && 0 <= c[l] < 4
    ensures var q := Child(ks[l], c[l], i);
      if l + 1 < |c| then Inside(ks, l + 1, q) && PathWord(ks, l + 1, q) == c[l + 1..] else !Inside(ks, l + 1, q)
  {
    hide Rank, OccsBelow;
    PathStep(ks, l, i);
    assert c[l..][1..] == c[l + 1..];
    assert c[l..][0] == c[l];
  }

  method ReadAndMove(q: RSQVector, ghost ks: seq<seq<int>>, l: nat, i: nat, ghost c: Word) returns (symbol: nat, next: nat)
    requires Levels(ks) && Inside(ks, l, i) && l < |c| && PathWord(ks, l, i) == c[l..]
    requires q.Valid() && q.Contents() == ks[l]
    ensures symbol == c[l] && symbol < 4
    ensures if l + 1 < |c| then Inside(ks, l + 1, next) && PathWord(ks, l + 1, next) == c[l + 1..] else !Inside(ks, l + 1, next)
  {
    hide PathWord, RSQVector.Valid, RSQVector.Contents, Child;
    RowDescends(ks, l, i, c);
    symbol := q.GetUnchecked(i);
    next := q.ChildOf(symbol, i);
  }

  /** One level of the intervals of a code. */
  lemma CodeStep(ks: seq<seq<int>>, c: Word, i: nat, n: nat, l: nat)
    requires Quaternary(c) && Fits(ks, c, n) && i <= n && l < |c|
    ensures |c| <= |ks| && PathPos(ks, c, 0, l) <= |ks[l]| && PathPos(ks, c, i, l) <= |ks[l]|
    ensures PathPos(ks, c, 0, l + 1) == Child(ks[l], c[l], PathPos(ks, c, 0, l))
    ensures PathPos(ks, c, i, l + 1) == Child(ks[l], c[l], PathPos(ks, c, i, l))
  {
    hide Child;
    PathPosMonotone(ks, c, 0, n, l);
    PathPosMonotone(ks, c, i, n, l);
  }

  /** What the way down left behind at level `l`. */
  lemma PathRemembered(ks: seq<seq<int>>, c: Word, depth: nat, pathOff: seq<nat>, rankPathOff: seq<nat>, l: nat)
    requires Quaternary(c) && l < depth <= |c| <= |ks| && depth <= |pathOff| && depth <= |rankPathOff|
    requires WayDown(ks, c, depth, pathOff, rankPathOff)
    ensures pathOff[l] == PathPos(ks, c, 0, l) <= |ks[l]| && rankPathOff[l] == Rank(ks[l], c[l], PathPos(ks, c, 0, l))
  {}

  /** `(result << 2) | digit` in 32 bits: the two top bits are lost. */
  function ShiftIn32(result: nat, digit: nat): (r: nat)
    requires digit < 4
    ensures result < Pow4(15) ==> r == 4 * result + digit
  {
    Pow4Sixteen32();
    ShiftIn(result % 0x4000_0000, digit)
  }

  lemma Pow4Sixteen32()
    ensures Pow4(15) == 0x4000_0000
  {
    assert Pow4(2) == 16;
    Pow4Add(2, 2);
    Pow4Add(4, 4);
    Pow4Add(8, 4);
    Pow4Add(12, 3);
    assert Pow4(3) == 64;
  }

  lemma ShiftStart(code: PrefixCode)
    requires GoodCode(code) && code.len > 0
    ensures code.len == 2 * |CodeWord(code)| && |CodeWord(code)| > 0
  {}

  /** The two bits a query extracts at level `l`. */
  lemma CodeDigit(code: PrefixCode, l: nat)
    requires l < |CodeWord(code)|
    ensures TwoBits(code.content, 2 * (|CodeWord(code)| - 1 - l)) == CodeWord(code)[l]
  {}

  // ---- Intervals ----

  /** The whole node of a prefix that goes on lies inside the next level. */
  lemma WholeInsideNext(w: seq<Word>, c: Word, l: nat, b: nat, f: nat)
    requires AllQuaternary(w) && Aligned(w) && PrefixFree(w) && c in w && l + 1 < |c| && 0 <= c[l] < 4
    requires AllQuaternary(Level(w, l)) && Holds(Level(w, l), w, c[..l], b, f)
    ensures var k := Digits(Level(w, l), l);
      && b <= f <= |k| && Child(k, c[l], f) <= |Level(w, l + 1)|
      && Holds(Level(w, l + 1), w, c[..l + 1], Child(k, c[l], b), Child(k, c[l], f))
  {
    hide Level, Sorted, Child, WithPrefix, Digits, PrefixFree;
    assert Follows(Level(w, l), Level(w, l + 1), l);
    assert c[..l] + [c[l]] == c[..l + 1];
    NodeDeep(w, w, c, l + 1);
    HasRow(w, c, l + 1);
    LandsInside(Level(w, l), Level(w, l + 1), w, c[..l], c[l], b, f);
    LandIn(Level(w, l), Level(w, l + 1), w, c[..l], c[l], b, f);
  }

  lemma HasRow(w: seq<Word>, c: Word, l: nat)
    requires c in w && l <= |c|
    ensures |WithPrefix(w, c[..l])| > 0
  {
    WithPrefixElements(w, c[..l]);
    assert c in WithPrefix(w, c[..l]);
  }

  lemma OnlyWhole(w: seq<Word>, c: Word, i: nat)
    requires PrefixFree(w) && c in w && i <= |w|
    ensures forall j :: 0 <= j < i && c <= w[j] ==> w[j] == c
  {
    var k :| 0 <= k < |w| && w[k] == c;
  }

  lemma {:induction false} NeverOccurs(s: seq<nat>, symbol: nat, i: nat)
    requires symbol !in s && i <= |s|
    ensures Rank<int>(s, symbol, i) == 0
  {
    if i > 0 {
      NeverOccurs(s, symbol, i - 1);
      assert s[i - 1] in s;
    }
  }

  /** A code that goes on has been read for less than 32 bits. */
  lemma ShortCode(code: PrefixCode, l: nat)
    requires GoodCode(code) && l < |CodeWord(code)|
    ensures Value(CodeWord(code)[..l]) < Pow4(15)
  {
    ValueBound(CodeWord(code)[..l]);
    Pow4Monotone(l, 15);
  }
}
