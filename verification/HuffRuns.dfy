/**
 The symbols of a window of a Huffman-shaped tree with their counts, as a walk
 over the populated prefixes produces them.
 */
module HuffRuns {
  import opened RankSelect
  import opened StablePartition
  import opened Words
  import opened WaveletMatrix
  import opened CraftCodes
  import opened SymbolWords
  import opened CodeTables
  import opened PartitionInto
  import opened DecodeTables
  import opened RangeRuns
  import opened HuffParts

  /** Rows of `x` below prefix `p`, one run per code. */
  ghost function CodeRuns(decode: seq<seq<Entry>>, x: seq<Word>, p: Word, n: nat): seq<Run>
    decreases n - |p|, 5
  {
    var k := |WithPrefix(x, p)|;
    if k == 0 then [] else if IsLeaf(decode, p) then [Run(SymbolOf(decode, p), k)]
    else if |p| >= n then [] else CodeRunsFrom(decode, x, p, n, 0)
  }

  /** The runs below the children `b..4` of `p`. */
  ghost function CodeRunsFrom(decode: seq<seq<Entry>>, x: seq<Word>, p: Word, n: nat, b: nat): seq<Run>
    requires b <= 4 && |p| < n
    decreases n - |p|, 4 - b
  {
    if b == 4 then [] else CodeRuns(decode, x, p + [b], n) + CodeRunsFrom(decode, x, p, n, b + 1)
  }

  /** Every symbol of `t` exactly once, in any order, with its number of occurrences, and nothing else. */
  ghost predicate Tally(runs: seq<Run>, t: seq<nat>) {
    && (forall i, j :: 0 <= i < j < |runs| ==> runs[i].symbol != runs[j].symbol)
    && (forall i :: 0 <= i < |runs| ==> runs[i].symbol in t && runs[i].count == Occs<int>(t, runs[i].symbol))
    && forall c :: c in t ==> exists i :: 0 <= i < |runs| && runs[i].symbol == c
  }

  /** Rows that all decode within `n` digits. */
  ghost predicate DecodedRows(decode: seq<seq<Entry>>, x: seq<Word>, n: nat) {
    RowsDecode(decode, x) && AllQuaternary(x) && forall i :: 0 <= i < |x| ==> 0 < |x[i]| <= n
  }

  // ---- The rows of a prefix ----

  /** Below an entry every row is the entry's word. */
  lemma LeafRows(decode: seq<seq<Entry>>, x: seq<Word>, p: Word)
    requires RowsDecode(decode, x) && IsLeaf(decode, p) && |p| > 0
    ensures |WithPrefix(x, p)| == Occs(x, p)
    ensures forall r :: r in WithPrefix(x, p) ==> r == p
  {
    hide IsLeaf;
    forall i | 0 <= i < |x| && p <= x[i]
      ensures x[i] == p
    {
      assert RowDecodes(decode, x[i]) && x[i][..|p|] == p;
    }
    WithWholePrefix(x, p);
  }

  /** Elsewhere every row goes on. */
  lemma InnerRows(decode: seq<seq<Entry>>, x: seq<Word>, p: Word, j: nat)
    requires RowsDecode(decode, x) && !IsLeaf(decode, p) && j < |WithPrefix(x, p)|
    ensures WithPrefix(x, p)[j] in x && WithPrefix(x, p)[j] != p && |WithPrefix(x, p)[j]| > |p|
  {
    WithPrefixElements(x, p);
    var r := WithPrefix(x, p)[j];
    assert r in WithPrefix(x, p);
    var i :| 0 <= i < |x| && x[i] == r;
    assert RowDecodes(decode, x[i]);
  }

  // ---- Every run is the rows of one code below the prefix ----

  ghost predicate CountsCode(run: Run, decode: seq<seq<Entry>>, x: seq<Word>, p: Word) {
    exists c: Word :: CodeOfRun(run, decode, x, p, c)
  }

  ghost predicate CodeOfRun(run: Run, decode: seq<seq<Entry>>, x: seq<Word>, p: Word, c: Word) {
    p <= c && Quaternary(c) && IsLeaf(decode, c) && |WithPrefix(x, c)| > 0 && run == Run(SymbolOf(decode, c), |WithPrefix(x, c)|)
  }

  lemma {:induction false} RunsAreCodes(decode: seq<seq<Entry>>, x: seq<Word>, p: Word, n: nat)
    requires Quaternary(p)
    ensures forall i :: 0 <= i < |CodeRuns(decode, x, p, n)| ==> CountsCode(CodeRuns(decode, x, p, n)[i], decode, x, p)
    decreases n - |p|, 5
  {
    hide WithPrefix, IsLeaf;
    if |WithPrefix(x, p)| > 0 {
      if IsLeaf(decode, p) {
        assert CodeOfRun(CodeRuns(decode, x, p, n)[0], decode, x, p, p);
      } else if |p| < n {
        RunsFromAreCodes(decode, x, p, n, 0);
      }
    }
  }

  lemma {:induction false} RunsFromAreCodes(decode: seq<seq<Entry>>, x: seq<Word>, p: Word, n: nat, b: nat)
    requires Quaternary(p) && |p| < n && b <= 4
    ensures forall i :: 0 <= i < |CodeRunsFrom(decode, x, p, n, b)| ==> CountsCode(CodeRunsFrom(decode, x, p, n, b)[i], decode, x, p)
    decreases n - |p|, 4 - b
  {
    hide CodeRuns, CountsCode;
    if b < 4 {
      RunsAreCodes(decode, x, p + [b], n);
      RunsFromAreCodes(decode, x, p, n, b + 1);
      var all, first := CodeRunsFrom(decode, x, p, n, b), CodeRuns(decode, x, p + [b], n);
      forall i | 0 <= i < |all|
        ensures CountsCode(all[i], decode, x, p)
      {
        if i < |first| {
          ShorterPrefixCounts(first[i], decode, x, p, b);
        }
      }
    }
  }

  lemma ShorterPrefixCounts(run: Run, decode: seq<seq<Entry>>, x: seq<Word>, p: Word, b: int)
    requires CountsCode(run, decode, x, p + [b])
    ensures CountsCode(run, decode, x, p)
  {
    hide WithPrefix, IsLeaf;
    var c: Word :| CodeOfRun(run, decode, x, p + [b], c);
    PrefixShorter(p, b, c);
    assert CodeOfRun(run, decode, x, p, c);
  }

  // ---- No code twice ----

  ghost predicate SymbolsDiffer(runs: seq<Run>) {
    forall i, j :: 0 <= i < j < |runs| ==> runs[i].symbol != runs[j].symbol
  }

  /** Runs below different digits belong to different codes, hence to different symbols. */
  lemma {:induction false} RunsDiffer(encode: seq<PrefixCode>, decode: seq<seq<Entry>>, nLevels: nat, x: seq<Word>, p: Word, n: nat)
    requires TablesAgree(encode, decode, nLevels) && Quaternary(p)
    ensures SymbolsDiffer(CodeRuns(decode, x, p, n))
    decreases n - |p|, 5
  {
    hide WithPrefix, IsLeaf, TablesAgree;
    if |WithPrefix(x, p)| > 0 && !IsLeaf(decode, p) && |p| < n {
      RunsFromDiffer(encode, decode, nLevels, x, p, n, 0);
    }
  }

  lemma {:induction false} RunsFromDiffer(encode: seq<PrefixCode>, decode: seq<seq<Entry>>, nLevels: nat, x: seq<Word>, p: Word, n: nat, b: nat)
    requires TablesAgree(encode, decode, nLevels) && Quaternary(p) && |p| < n && b <= 4
    ensures SymbolsDiffer(CodeRunsFrom(decode, x, p, n, b))
    ensures forall i :: 0 <= i < |CodeRunsFrom(decode, x, p, n, b)| ==> LaterDigit(CodeRunsFrom(decode, x, p, n, b)[i], decode, x, p, b)
    decreases n - |p|, 4 - b
  {
    hide CodeRuns, TablesAgree, LaterDigit, CountsCode;
    if b < 4 {
      var first, rest := CodeRuns(decode, x, p + [b], n), CodeRunsFrom(decode, x, p, n, b + 1);
      RunsDiffer(encode, decode, nLevels, x, p + [b], n);
      RunsAreCodes(decode, x, p + [b], n);
      RunsFromDiffer(encode, decode, nLevels, x, p, n, b + 1);
      forall i, j | 0 <= i < |first| && 0 <= j < |rest|
        ensures first[i].symbol != rest[j].symbol
      {
        OtherDigitOtherSymbol(encode, decode, nLevels, x, p, b, first[i], rest[j]);
      }
      var all := CodeRunsFrom(decode, x, p, n, b);
      assert all == first + rest;
      forall i | 0 <= i < |all|
        ensures LaterDigit(all[i], decode, x, p, b)
      {
        if i < |first| {
          ThisDigit(first[i], decode, x, p, b);
        } else {
          StillLater(rest[i - |first|], decode, x, p, b);
        }
      }
    }
  }

  /** The code of the run follows `p` with a digit of at least `b`. */
  ghost predicate LaterDigit(run: Run, decode: seq<seq<Entry>>, x: seq<Word>, p: Word, b: int) {
    exists c: Word :: CodeOfRun(run, decode, x, p, c) && |c| > |p| && c[|p|] >= b
  }

  lemma ThisDigit(run: Run, decode: seq<seq<Entry>>, x: seq<Word>, p: Word, b: int)
    requires CountsCode(run, decode, x, p + [b])
    ensures LaterDigit(run, decode, x, p, b)
  {
    hide WithPrefix, IsLeaf;
    var c: Word :| CodeOfRun(run, decode, x, p + [b], c);
    PrefixShorter(p, b, c);
    assert c[|p|] == (p + [b])[|p|];
    assert CodeOfRun(run, decode, x, p, c);
  }

  lemma StillLater(run: Run, decode: seq<seq<Entry>>, x: seq<Word>, p: Word, b: int)
    requires LaterDigit(run, decode, x, p, b + 1)
    ensures LaterDigit(run, decode, x, p, b)
  {
    hide CodeOfRun;
  }

  lemma OtherDigitOtherSymbol(encode: seq<PrefixCode>, decode: seq<seq<Entry>>, nLevels: nat, x: seq<Word>, p: Word, b: int, first: Run, later: Run)
    requires TablesAgree(encode, decode, nLevels)
    requires CountsCode(first, decode, x, p + [b]) && LaterDigit(later, decode, x, p, b + 1)
    ensures first.symbol != later.symbol
  {
    hide WithPrefix, IsLeaf, TablesAgree, CodeWord;
    var c: Word :| CodeOfRun(first, decode, x, p + [b], c);
    var d: Word :| CodeOfRun(later, decode, x, p, d) && |d| > |p| && d[|p|] >= b + 1;
    assert c[|p|] == (p + [b])[|p|];
    SymbolHasCode(encode, decode, nLevels, c);
    SymbolHasCode(encode, decode, nLevels, d);
  }

  // ---- No row is lost ----

  lemma {:induction false} RunsReach(decode: seq<seq<Entry>>, x: seq<Word>, p: Word, n: nat, r: Word) returns (i: nat)
    requires DecodedRows(decode, x, n) && r in x && p <= r && (IsLeaf(decode, p) ==> |p| > 0)
    ensures IsLeaf(decode, r) && i < |CodeRuns(decode, x, p, n)| && CodeRuns(decode, x, p, n)[i].symbol == SymbolOf(decode, r)
    decreases n - |p|, 5
  {
    hide IsLeaf;
    var k :| 0 <= k < |x| && x[k] == r;
    assert RowDecodes(decode, x[k]) && Quaternary(r);
    WithPrefixElements(x, p);
    assert r in WithPrefix(x, p);
    hide WithPrefix;
    if IsLeaf(decode, p) {
      LeafRows(decode, x, p);
      i := 0;
    } else {
      assert p != r;
      i := RunsFromReach(decode, x, p, n, 0, r);
    }
  }

  lemma {:induction false} RunsFromReach(decode: seq<seq<Entry>>, x: seq<Word>, p: Word, n: nat, b: nat, r: Word) returns (i: nat)
    requires DecodedRows(decode, x, n) && r in x && p <= r && |p| < |r| <= n && b <= r[|p|] < 4
    ensures IsLeaf(decode, r) && i < |CodeRunsFrom(decode, x, p, n, b)| && CodeRunsFrom(decode, x, p, n, b)[i].symbol == SymbolOf(decode, r)
    decreases n - |p|, 4 - b
  {
    hide WithPrefix, CodeRuns, IsLeaf, DecodedRows;
    if r[|p|] == b {
      PrefixExtends(p, b, r);
      i := RunsReach(decode, x, p + [b], n, r);
    } else {
      var j := RunsFromReach(decode, x, p, n, b + 1, r);
      i := |CodeRuns(decode, x, p + [b], n)| + j;
    }
  }

  // ---- For a window of the text ----

  /** The walk lists every symbol of the window once, unless the table has an entry for no digits at all. */
  lemma WindowTally(encode: seq<PrefixCode>, decode: seq<seq<Entry>>, nLevels: nat, t: seq<nat>)
    requires TablesAgree(encode, decode, nLevels) && Labels(t, encode) && DecodedRows(decode, CodeRows(t, encode), nLevels) && |t| > 0
    ensures Tally(CodeRuns(decode, CodeRows(t, encode), [], nLevels), t) <==> !IsLeaf(decode, [])
  {
    assert CodesCover(t, encode) && RowsDecode(decode, CodeRows(t, encode));
    hide WithPrefix, IsLeaf, TablesAgree, CodeWord, CodeRuns, Labels, Rank, DecodedRows;
    var x := CodeRows(t, encode);
    if IsLeaf(decode, []) {
      OnlyEmptyCode(encode, decode, nLevels, t);
    } else {
      var runs := CodeRuns(decode, x, [], nLevels);
      RunsDiffer(encode, decode, nLevels, x, [], nLevels);
      RunsAreCodes(decode, x, [], nLevels);
      forall i | 0 <= i < |runs|
        ensures runs[i].symbol in t && runs[i].count == Occs<int>(t, runs[i].symbol)
      {
        RunCounts(encode, decode, nLevels, t, runs[i]);
      }
      forall c | c in t
        ensures exists i :: 0 <= i < |runs| && runs[i].symbol == c
      {
        Covered(t, encode, c);
        WordInRows(t, encode, c);
        var i := RunsReach(decode, x, [], nLevels, CodeWord(encode[c]));
        SymbolOfCode(encode, decode, nLevels, c);
      }
    }
  }

  lemma SymbolOfCode(encode: seq<PrefixCode>, decode: seq<seq<Entry>>, nLevels: nat, c: nat)
    requires TablesAgree(encode, decode, nLevels) && c < |encode| && encode[c].len > 0
    ensures IsLeaf(decode, CodeWord(encode[c])) && SymbolOf(decode, CodeWord(encode[c])) == c
  {
    hide CodeWord, IsLeaf, Decodes;
    CodeIsLeaf(encode, decode, nLevels, c);
    SymbolHasCode(encode, decode, nLevels, CodeWord(encode[c]));
    var x := SymbolOf(decode, CodeWord(encode[c]));
    WordNotEmpty(encode[c]);
    WordDetermines(encode[x], encode[c]);
    DecodedOnce(decode, encode, x, c);
  }

  lemma RunCounts(encode: seq<PrefixCode>, decode: seq<seq<Entry>>, nLevels: nat, t: seq<nat>, run: Run)
    requires TablesAgree(encode, decode, nLevels) && Labels(t, encode) && RowsDecode(decode, CodeRows(t, encode)) && !IsLeaf(decode, [])
    requires CountsCode(run, decode, CodeRows(t, encode), [])
    ensures run.symbol in t && run.count == Occs<int>(t, run.symbol)
  {
    assert CodesCover(t, encode);
    hide WithPrefix, IsLeaf, TablesAgree, CodeWord, Rank, Labels;
    var x := CodeRows(t, encode);
    var c: Word :| CodeOfRun(run, decode, x, [], c);
    LeafRows(decode, x, c);
    SymbolHasCode(encode, decode, nLevels, c);
    var f := WithPrefix(x, c);
    WithPrefixElements(x, c);
    assert f[0] in f && f[0] in x;
    var i :| 0 <= i < |x| && x[i] == f[0];
    SameWord(t, encode, run.symbol, t[i]);
    RankOfCodeRows(t, encode, run.symbol, |t|);
  }

  /** With such an entry the walk stops at the root, with a symbol that has no code. */
  lemma OnlyEmptyCode(encode: seq<PrefixCode>, decode: seq<seq<Entry>>, nLevels: nat, t: seq<nat>)
    requires TablesAgree(encode, decode, nLevels) && Labels(t, encode) && |t| > 0 && IsLeaf(decode, [])
    ensures var runs := CodeRuns(decode, CodeRows(t, encode), [], nLevels);
      runs == [Run(SymbolOf(decode, []), |t|)] && runs[0].symbol !in t
  {
    hide WithPrefix, IsLeaf, TablesAgree, CodeWord;
    WithEmptyPrefix(CodeRows(t, encode));
    SymbolHasCode(encode, decode, nLevels, []);
    if SymbolOf(decode, []) in t {
      Covered(t, encode, SymbolOf(decode, []));
    }
  }
}
