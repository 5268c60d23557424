/** Code tables of the Huffman-shaped tree: symbol to code, and code to symbol by binary search. */
module CodeTables {
  import opened Wrappers
  import opened RankSelect
  import opened StablePartition
  import opened Arithmetic
  import opened Words
  import opened WaveletMatrix
  import opened CodeOrder
  import opened CraftCodes
  import opened AssignCodes
  import opened PartitionInto
  import opened SymbolWords
  import opened SortByKey

  /** An even number of bits that fits the 32-bit content field, and no bit outside; absent symbols have no bits. */
  ghost predicate GoodCode(c: PrefixCode) {
    c.len % 2 == 0 && c.len <= 32 && (c.len > 0 ==> c.content < Pow4(c.len / 2))
  }

  /** No two symbols share a code. */
  ghost predicate Different(codes: seq<PrefixCode>) {
    forall x, y :: 0 <= x < |codes| && 0 <= y < |codes| && codes[x].len > 0 && codes[x] == codes[y] ==> x == y
  }

  /** Every symbol that occurs has a code of its own; others may have one too. */
  ghost predicate Labels(s: seq<nat>, codes: seq<PrefixCode>) {
    && CodesCover(s, codes)
    && (forall x :: 0 <= x < |codes| ==> GoodCode(codes[x]))
    && (forall i :: 0 <= i < |s| ==> codes[s[i]].len > 0)
    && Different(codes)
  }

  /** The codes of exactly the symbols that occur. */
  ghost predicate Encodes(s: seq<nat>, codes: seq<PrefixCode>) {
    Labels(s, codes) && forall x :: 0 <= x < |codes| ==> (codes[x].len > 0 <==> x in s)
  }

  /** The rows of a text, as code words. */
  ghost function CodeRows(s: seq<nat>, codes: seq<PrefixCode>): (w: seq<Word>)
    requires CodesCover(s, codes)
    ensures |w| == |s| && forall i :: 0 <= i < |s| ==> w[i] == CodeWord(codes[s[i]])
  {
    seq(|s|, i requires 0 <= i < |s| => CodeWord(codes[s[i]]))
  }

  lemma WordDetermines(a: PrefixCode, b: PrefixCode)
    requires GoodCode(a) && GoodCode(b) && a.len > 0 && CodeWord(a) == CodeWord(b)
    ensures a == b
  {
    assert a.len / 2 == b.len / 2;
    WordValue(a);
    WordValue(b);
  }

  lemma WordValue(a: PrefixCode)
    requires GoodCode(a) && a.len > 0
    ensures Value(CodeWord(a)) == a.content
  {
    ValueOfSymbol(a.content, a.len / 2);
    assert a == PrefixCode(a.content, 2 * (a.len / 2));
  }

  lemma SameWord(s: seq<nat>, codes: seq<PrefixCode>, x: nat, y: nat)
    requires Labels(s, codes) && x < |codes| && codes[x].len > 0 && y < |codes| && CodeWord(codes[x]) == CodeWord(codes[y])
    ensures x == y
  {
    WordDetermines(codes[x], codes[y]);
  }

  /** Counting a symbol is counting its code word. */
  lemma {:induction false} RankOfCodeRows(s: seq<nat>, codes: seq<PrefixCode>, x: nat, i: nat)
    requires Labels(s, codes) && x < |codes| && codes[x].len > 0 && i <= |s|
    ensures Rank(CodeRows(s, codes), CodeWord(codes[x]), i) == Rank<int>(s, x, i)
  {
    hide Labels, CodeWord;
    if i > 0 {
      RankOfCodeRows(s, codes, x, i - 1);
      assert s[i - 1] < |codes| by { Covered(s, codes, s[i - 1]); }
      if CodeWord(codes[s[i - 1]]) == CodeWord(codes[x]) {
        SameWord(s, codes, x, s[i - 1]);
      }
    }
  }

  lemma Covered(s: seq<nat>, codes: seq<PrefixCode>, x: nat)
    requires Labels(s, codes) && x in s
    ensures x < |codes| && CodesCover(s, codes) && GoodCode(codes[x]) && codes[x].len > 0
  {}

  lemma CodeRowsShape(s: seq<nat>, codes: seq<PrefixCode>)
    requires Labels(s, codes)
    ensures CodesCover(s, codes) && Deep(CodeRows(s, codes), 0) && AllQuaternary(CodeRows(s, codes))
  {
    var w := CodeRows(s, codes);
    forall i | 0 <= i < |w|
      ensures |w[i]| > 0 && Quaternary(w[i])
    {
      Covered(s, codes, s[i]);
    }
  }

  /** A symbol that occurs has its word among the rows. */
  lemma WordInRows(s: seq<nat>, codes: seq<PrefixCode>, x: nat)
    requires CodesCover(s, codes) && x in s
    ensures CodeWord(codes[x]) in CodeRows(s, codes)
  {
    var i :| 0 <= i < |s| && s[i] == x;
    assert CodeRows(s, codes)[i] == CodeWord(codes[x]);
  }

  // ---- What code assignment delivers ----

  /** One length per symbol that occurs. */
  ghost predicate LengthsCover(s: seq<nat>, lengths: seq<LenInfo>) {
    && (forall t :: 0 <= t < |lengths| ==> lengths[t].symbol in s)
    && forall x :: x in s ==> exists t :: 0 <= t < |lengths| && lengths[t].symbol == x
  }

  lemma AssignedEncodes(s: seq<nat>, lengths: seq<LenInfo>, sigma: nat, codes: seq<PrefixCode>)
    requires ValidLengths(lengths, sigma) && CodesFor(lengths, sigma, codes) && LengthsCover(s, lengths)
    ensures Encodes(s, codes)
    ensures FinishedLast(CodeRows(s, codes))
  {
    hide ValidLengths, GoodCode, Ordered, GreatestFree, Different, FinishedLast, Kraft;
    forall x | 0 <= x < |codes|
      ensures GoodCode(codes[x]) && (codes[x].len > 0 <==> x in s)
    {
      AssignedCode(s, lengths, sigma, codes, x);
    }
    AssignedDiffer(s, lengths, sigma, codes);
    AssignedLast(s, lengths, sigma, codes);
  }

  lemma AssignedDiffer(s: seq<nat>, lengths: seq<LenInfo>, sigma: nat, codes: seq<PrefixCode>)
    requires ValidLengths(lengths, sigma) && CodesFor(lengths, sigma, codes) && LengthsCover(s, lengths)
    ensures Different(codes)
  {
    hide ValidLengths, FinishedLast, Ordered, GreatestFree;
    var words := WordsOf(lengths, codes);
    OrderedFinishedLast(words);
    forall x, y | 0 <= x < |codes| && 0 <= y < |codes| && codes[x].len > 0 && codes[x] == codes[y]
      ensures x == y
    {
      AssignedCode(s, lengths, sigma, codes, x);
      AssignedCode(s, lengths, sigma, codes, y);
      var t :| 0 <= t < |lengths| && lengths[t].symbol == x;
      var u :| 0 <= u < |lengths| && lengths[u].symbol == y;
      assert words[t] == words[u];
    }
  }

  lemma AssignedLast(s: seq<nat>, lengths: seq<LenInfo>, sigma: nat, codes: seq<PrefixCode>)
    requires CodesFor(lengths, sigma, codes) && LengthsCover(s, lengths)
    ensures CodesCover(s, codes) && FinishedLast(CodeRows(s, codes))
  {
    hide FinishedLast, Ordered, GreatestFree;
    forall i | 0 <= i < |s|
      ensures s[i] < |codes|
    {
      assert s[i] in s;
    }
    var w, words := CodeRows(s, codes), WordsOf(lengths, codes);
    forall r | r in w
      ensures r in words
    {
      var i :| 0 <= i < |w| && w[i] == r;
      assert s[i] in s;
      var t :| 0 <= t < |lengths| && lengths[t].symbol == s[i];
      assert words[t] == r;
    }
    OrderedFinishedLast(words);
    FinishedLastElements(words, w);
  }

  lemma AssignedCode(s: seq<nat>, lengths: seq<LenInfo>, sigma: nat, codes: seq<PrefixCode>, x: nat)
    requires ValidLengths(lengths, sigma) && CodesFor(lengths, sigma, codes) && LengthsCover(s, lengths) && x < |codes|
    ensures GoodCode(codes[x]) && (codes[x].len > 0 <==> x in s)
    ensures x in s ==> codes[x].len >= 2
    ensures codes[x].len > 0 ==> exists t :: 0 <= t < |lengths| && lengths[t].symbol == x
  {
    hide Lengths, Kraft, Ordered, GreatestFree, Pow4;
    if t :| 0 <= t < |lengths| && lengths[t].symbol == x {
      assert codes[lengths[t].symbol].len == lengths[t].len;
    } else {
      NoContent(codes[x], lengths, sigma, codes, x);
    }
  }

  lemma NoContent(c: PrefixCode, lengths: seq<LenInfo>, sigma: nat, codes: seq<PrefixCode>, x: nat)
    requires CodesFor(lengths, sigma, codes) && x < |codes| && c == codes[x]
    requires forall t :: 0 <= t < |lengths| ==> lengths[t].symbol != x
    ensures GoodCode(c) && c.len == 0
  {}
}
