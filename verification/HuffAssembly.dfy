/** Opening a Huffman-shaped tree from its parts, owned or as a borrowed view. */
module HuffAssembly {
  import opened Wrappers
  import opened RankSelect
  import opened Arithmetic
  import opened Words
  import opened CraftCodes
  import opened RankSupport
  import opened RSQVectors
  import opened CodeTables
  import opened DecodeTables
  import opened QuadWavelet
  import opened HuffPaths
  import opened HuffWavelet
  import opened BuildQuadWavelet
  import opened BuildHuffWavelet
  import opened HuffParts
  import opened HuffWalk

  /** Levels that match the directory. */
  method CheckLengths(qvs: seq<RSQVector>, lens: seq<nat>) returns (ok: bool)
    requires AllLevelsValid(qvs) && |qvs| == |lens|
    ensures ok <==> LengthsMatch(|qvs|, qvs, lens)
  {
    hide RSQVector.Valid, RSQVector.Contents;
    var l := 0;
    while l < |qvs|
      invariant 0 <= l <= |qvs| && forall m :: 0 <= m < l ==> lens[m] == |qvs[m].Contents()|
    {
      var level := qvs[l];
      var actualLen := level.OccsUnchecked(0) + level.OccsUnchecked(1) + level.OccsUnchecked(2) + level.OccsUnchecked(3);
      AllSymbols(level.Contents());
      if actualLen != lens[l] {
        return false;
      }
      l := l + 1;
    }
    return true;
  }

  lemma AllSymbols(q: seq<int>)
    requires StablePartition.Bounded(q, 4)
    ensures Occs(q, 0) + Occs(q, 1) + Occs(q, 2) + Occs(q, 3) == |q|
  {
    StablePartition.OccsBelowTotal(q, 4);
    var below := StablePartition.OccsBelow;
    assert below(q, 4) == below(q, 3) + Occs(q, 3) && below(q, 3) == below(q, 2) + Occs(q, 2);
    assert below(q, 2) == below(q, 1) + Occs(q, 1) && below(q, 1) == below(q, 0) + Occs(q, 0);
  }

  /** Tables, code intervals and populated prefixes of levels that match the directory. */
  method CheckTree(n: nat, encode: seq<PrefixCode>, decode: seq<seq<Entry>>, qvs: seq<RSQVector>, lens: seq<nat>) returns (ok: bool)
    requires AllLevelsValid(qvs) && LengthsMatch(|qvs|, qvs, lens) && (n > 0 ==> |qvs| > 0 && lens[0] == n)
    requires forall x :: 0 <= x < |encode| ==> encode[x].content < 0x1_0000_0000
    ensures ok <==>
      && TablesAgree(encode, decode, |qvs|) && PathsFit(n, encode, ContentsOf(qvs))
      && (n > 0 ==> RowsDecode(decode, PathRows(ContentsOf(qvs), n)))
  {
    hide RSQVector.Valid, RSQVector.Contents, PathsFit, RowsDecode, Decodes, GoodCode;
    var tables := CheckTables(encode, decode, |qvs|);
    if !tables {
      return false;
    }
    var paths := CheckPaths(n, encode, qvs, lens);
    if !paths {
      return false;
    }
    if n == 0 {
      return true;
    }
    ok := WalkPrefixes(n, encode, decode, qvs, lens);
  }

  /** The owned tree. */
  method OwnedFromParts(n: nat, nLevels: nat, encode: seq<PrefixCode>, decode: seq<seq<Entry>>, qvs: seq<RSQVector>, lens: seq<nat>, b: nat)
    returns (r: Option<HuffQWaveletTree>)
    requires AllLevelsValid(qvs) && BlockSize(b)
    requires forall x :: 0 <= x < |encode| ==> encode[x].content < 0x1_0000_0000
    ensures r.Some? <==> OwnedAcceptable(n, nLevels, encode, decode, qvs, lens)
    ensures r.Some? ==> r.value.n == n && r.value.nLevels == nLevels && r.value.codesEncode == encode && r.value.codesDecode == decode
    ensures r.Some? && n > 0 ==> |qvs| > 0
    ensures r.Some? && n > 0 ==>
      r.value.Serves(TextOf(decode, PathRows(ContentsOf(qvs), n)))
    ensures r.Some? && n == 0 ==> r.value.Serves([]) && (|qvs| == 0 ==> Default(r.value.qvs, b) && r.value.lens == [0])
    ensures r.Some? && |qvs| > 0 ==> r.value.qvs == qvs && r.value.lens == lens
  {
    hide RSQVector.Valid, RSQVector.Contents, PathsFit, RowsDecode, Decodes, GoodCode, Default;
    if nLevels > MAX_QUAD_LEVELS {
      return None;
    }
    if n == 0 {
      if nLevels != 0 {
        return None;
      }
      if !((|qvs| == 0 && |lens| == 0) || (|qvs| == 1 && lens == [0])) {
        return None;
      }
      r := EmptyFromParts(encode, decode, qvs, lens, b);
      return;
    }
    if nLevels == 0 || |qvs| != nLevels || |lens| != nLevels {
      return None;
    }
    if lens[0] != n {
      return None;
    }
    var lengths := CheckLengths(qvs, lens);
    if !lengths {
      return None;
    }
    var ok := CheckTree(n, encode, decode, qvs, lens);
    if !ok {
      return None;
    }
    var t := HuffQWaveletTree(n, nLevels, encode, decode, qvs, lens);
    AcceptedServes(t);
    return Some(t);
  }

  method EmptyFromParts(encode: seq<PrefixCode>, decode: seq<seq<Entry>>, qvs: seq<RSQVector>, lens: seq<nat>, b: nat)
    returns (r: Option<HuffQWaveletTree>)
    requires BlockSize(b) && forall x :: 0 <= x < |encode| ==> encode[x].content < 0x1_0000_0000
    ensures r.Some? <==> TablesAgree(encode, decode, 0)
    ensures r.Some? ==> r.value.n == 0 && r.value.nLevels == 0 && r.value.codesEncode == encode && r.value.codesDecode == decode
    ensures r.Some? ==> r.value.Serves([])
    ensures r.Some? && |qvs| == 0 && |lens| == 0 ==> Default(r.value.qvs, b) && r.value.lens == [0]
    ensures r.Some? && |qvs| > 0 ==> r.value.qvs == qvs && r.value.lens == lens
  {
    hide Decodes, GoodCode, Default;
    var qvs', lens' := qvs, lens;
    if |qvs| == 0 && |lens| == 0 {
      var default := EmptyLevel(b);
      qvs', lens' := [default], [0];
    }
    var tables := CheckTables(encode, decode, 0);
    if !tables {
      return None;
    }
    return Some(HuffQWaveletTree(0, 0, encode, decode, qvs', lens'));
  }

  /** The borrowed view, whose levels and tables are read one per directory entry. */
  method OpenView(n: nat, nLevels: nat, encode: seq<PrefixCode>, decode: seq<seq<Entry>>, levels: seq<RSQVector>, lens: seq<nat>)
    returns (r: Option<HuffQWaveletTree>)
    requires AllLevelsValid(levels) && |levels| == |lens| == nLevels
    requires forall x :: 0 <= x < |encode| ==> encode[x].content < 0x1_0000_0000
    ensures r.Some? <==> ViewAcceptable(n, nLevels, encode, decode, levels, lens)
    ensures r.Some? ==> r.value == HuffQWaveletTree(n, nLevels, encode, decode, levels, lens)
    ensures r.Some? && n > 0 ==> r.value.Serves(TextOf(decode, PathRows(ContentsOf(levels), n)))
    ensures r.Some? && n == 0 ==> r.value.Opens([]) && (nLevels == 0 ==> r.value.Serves([]))
  {
    hide RSQVector.Valid, RSQVector.Contents, PathsFit, RowsDecode, Decodes, GoodCode, HuffQWaveletTree.Opens;
    if nLevels > MAX_QUAD_LEVELS || (n > 0 && nLevels == 0) {
      return None;
    }
    if n > 0 && lens[0] != n {
      return None;
    }
    var lengths := CheckLengths(levels, lens);
    if !lengths {
      return None;
    }
    var ok := CheckTree(n, encode, decode, levels, lens);
    if !ok {
      return None;
    }
    var t := HuffQWaveletTree(n, nLevels, encode, decode, levels, lens);
    if n > 0 {
      AcceptedServes(t);
    } else {
      EmptyViewOpens(t);
    }
    return Some(t);
  }

  lemma EmptyViewOpens(t: HuffQWaveletTree)
    requires t.n == 0 && AllLevelsValid(t.qvs) && ViewAcceptable(0, t.nLevels, t.codesEncode, t.codesDecode, t.qvs, t.lens)
    ensures t.Opens([])
  {
    hide RSQVector.Valid, RSQVector.Contents, Decodes, GoodCode, Fits, CodeWord;
  }

  // ---- Completeness ----

  /** Whatever answers about some text is accepted, and that text is the one it decodes to. */
  lemma ServesAccepted(t: HuffQWaveletTree, s: seq<nat>)
    requires t.Serves(s) && t.n > 0
    ensures AllLevelsValid(t.qvs) && OwnedAcceptable(t.n, t.nLevels, t.codesEncode, t.codesDecode, t.qvs, t.lens)
    ensures s == TextOf(t.codesDecode, PathRows(ContentsOf(t.qvs), t.n))
  {
    hide CodeWord, PathWord, IsLeaf, Decodes, Fits, NoneBeyond, RSQVector.Valid, RSQVector.Contents, RowDecodes, GoodCode;
    t.Shape(s);
    var w := PathRows(t.Ks(), t.n);
    forall x | 0 <= x < |t.codesEncode| && t.codesEncode[x].len > 0
      ensures t.codesEncode[x].len <= 2 * t.nLevels && Fits(t.Ks(), CodeWord(t.codesEncode[x]), t.n)
    {
      t.CodeOf(s, x);
      ShiftStart(t.codesEncode[x]);
    }
    forall i | 0 <= i < |w|
      ensures RowDecodes(t.codesDecode, w[i])
    {
      t.RowCode(s, i);
      RowOfCode(t, s, i);
    }
    TextIsUnique(t, s);
  }

  lemma RowOfCode(t: HuffQWaveletTree, s: seq<nat>, i: nat)
    requires t.Serves(s) && t.n > 0 && i < |s| && t.Shaped() && TablesAgree(t.codesEncode, t.codesDecode, t.nLevels)
    ensures RowDecodes(t.codesDecode, PathWord(t.Ks(), 0, i))
  {
    hide CodeWord, PathWord, IsLeaf, Decodes, Fits, RSQVector.Valid, RSQVector.Contents, GoodCode, HuffQWaveletTree.Serves;
    t.Shape(s);
    t.RowCode(s, i);
    CodeIsLeaf(t.codesEncode, t.codesDecode, t.nLevels, s[i]);
    var r := PathWord(t.Ks(), 0, i);
    forall j | 0 < j <= |r| - 1
      ensures !IsLeaf(t.codesDecode, r[..j])
    {
      if IsLeaf(t.codesDecode, r[..j]) {
        LeafIsWhole(t, s, i, r[..j]);
      }
    }
  }

  /** Where the digits of a row reach an entry, the row ends. */
  lemma LeafIsWhole(t: HuffQWaveletTree, s: seq<nat>, i: nat, p: Word)
    requires t.Serves(s) && t.n > 0 && i < |s| && t.Shaped() && TablesAgree(t.codesEncode, t.codesDecode, t.nLevels)
    requires |p| > 0 && Quaternary(p) && p <= PathWord(t.Ks(), 0, i) && IsLeaf(t.codesDecode, p)
    ensures p == PathWord(t.Ks(), 0, i)
  {
    hide CodeWord, PathWord, IsLeaf, Decodes, Fits, RSQVector.Valid, RSQVector.Contents, GoodCode, HuffQWaveletTree.Serves;
    t.Shape(s);
    SymbolHasCode(t.codesEncode, t.codesDecode, t.nLevels, p);
    t.CodeOf(s, SymbolOf(t.codesDecode, p));
    assert PathRows(t.Ks(), t.n)[i] == PathWord(t.Ks(), 0, i);
  }

  lemma TextIsUnique(t: HuffQWaveletTree, s: seq<nat>)
    requires t.Serves(s) && t.n > 0 && t.Shaped() && TablesAgree(t.codesEncode, t.codesDecode, t.nLevels)
    requires RowsDecode(t.codesDecode, PathRows(t.Ks(), t.n))
    ensures s == TextOf(t.codesDecode, PathRows(t.Ks(), t.n))
  {
    hide CodeWord, PathWord, IsLeaf, Decodes, Fits, RSQVector.Valid, RSQVector.Contents, GoodCode;
    t.Shape(s);
    var w := PathRows(t.Ks(), t.n);
    forall i | 0 <= i < |s|
      ensures s[i] == TextOf(t.codesDecode, w)[i]
    {
      t.RowCode(s, i);
      assert RowDecodes(t.codesDecode, w[i]);
      SymbolHasCode(t.codesEncode, t.codesDecode, t.nLevels, w[i]);
      SameWord(s, t.codesEncode, s[i], SymbolOf(t.codesDecode, w[i]));
    }
  }

  /** What construction makes is accepted, and reopened as the tree of the same text. */
  lemma BuiltIsAccepted(t: HuffQWaveletTree, s: seq<nat>)
    requires t.Represents(s) && (|s| == 0 ==> AllLevelsValid(t.qvs))
    ensures AllLevelsValid(t.qvs) && OwnedAcceptable(t.n, t.nLevels, t.codesEncode, t.codesDecode, t.qvs, t.lens)
    ensures |s| > 0 ==> s == TextOf(t.codesDecode, PathRows(ContentsOf(t.qvs), t.n))
  {
    if |s| > 0 {
      hide HuffQWaveletTree.Indexes;
      t.RepresentsServes(s);
      assert t.n > 0 by { SomeRows(t, s); }
      ServesAccepted(t, s);
    }
  }

  lemma SomeRows(t: HuffQWaveletTree, s: seq<nat>)
    requires t.Serves(s) && |s| > 0
    ensures t.n > 0
  {}

  // ---- An empty text with levels ----

  /**
   `select` on an accepted view of an empty text finds nothing, as it must, exactly when no row of
   the first level begins with a code. Without levels there is no code, so `n > 0 || nLevels == 0`
   suffices, and so does an empty first level.
   */
  lemma EmptyViewSelect(t: HuffQWaveletTree)
    requires t.n == 0 && AllLevelsValid(t.qvs) && ViewAcceptable(0, t.nLevels, t.codesEncode, t.codesDecode, t.qvs, t.lens)
    ensures t.Opens([])
    ensures (forall x: nat, k: nat :: SelectSpec<int>([], x, k, t.Climbed([], x, k))) <==> t.NoStrayRow()
    ensures t.nLevels == 0 || t.lens[0] == 0 ==> t.NoStrayRow()
  {
    hide RSQVector.Valid, RSQVector.Contents, Decodes, Fits, CodeWord, HuffQWaveletTree.Opens, HuffQWaveletTree.Climbed;
    EmptyViewOpens(t);
    t.EmptyTextSelect();
    if t.nLevels > 0 {
      assert t.lens[0] == |t.qvs[0].Contents()|;
    }
  }

  /**
   A view of an empty text that the checks let through although its only level holds a row: there is
   a symbol 0 to find at position 0 of the level, and `select` of it, which is `Climbed`, answers
   with that row.
   */
  lemma EmptyTextWithRows(q: RSQVector)
    requires q.Valid() && q.Contents() == [0]
    ensures var t := HuffQWaveletTree(0, 1, [PrefixCode(0, 2)], [[], [], [Entry(0, 0)]], [q], [1]);
      && ViewAcceptable(0, 1, t.codesEncode, t.codesDecode, t.qvs, t.lens)
      && t.Opens([]) && t.Climbed([], 0, 0) == Some(0) && !SelectSpec<int>([], 0, 0, Some(0))
  {
    hide RSQVector.Valid, RSQVector.Contents;
    var code := PrefixCode(0, 2);
    var decode := [[], [], [Entry(0, 0)]];
    var t := HuffQWaveletTree(0, 1, [code], decode, [q], [1]);
    StrayTables(code, decode);
    WordOfStray(code);
    assert PathPos(t.Ks(), [0], 0, 0) == 0;
    assert |t.Ks()| == 1 && t.Ks()[0] == [0];
    EmptyViewOpens(t);
    ClimbStart(t.Ks(), [0], 0);
    assert IsSelect(t.Ks()[0], 0, Rank(t.Ks()[0], 0, 0) + 0, 0);
    ClimbUp(t.Ks(), [0], 0, 0, 0);
    t.ClimbedIs([], 0, 0);
  }

  lemma StrayTables(code: PrefixCode, decode: seq<seq<Entry>>)
    requires code == PrefixCode(0, 2) && decode == [[], [], [Entry(0, 0)]]
    ensures TablesAgree([code], decode, 1)
  {
    assert Pow4(1) == 4;
    assert Entry(0, 0) in decode[2];
    assert [code][0] == code;
    assert BucketOf(decode[0], 0, [code], 1) && BucketOf(decode[1], 1, [code], 1) && BucketOf(decode[2], 2, [code], 1);
  }

  lemma WordOfStray(code: PrefixCode)
    requires code == PrefixCode(0, 2)
    ensures CodeWord(code) == [0]
  {
    assert Pow4(0) == 1;
    assert CodeWord(code)[0] == 0;
  }
}
