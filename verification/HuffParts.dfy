/**
 Assembling a Huffman-shaped tree from levels and code tables read back. Instead
 of decoding every row, the check follows the intervals of all prefixes that
 rows populate; what it accepts answers every query about the text it decodes to.
 */
module HuffParts {
  import opened Wrappers
  import opened RankSelect
  import opened StablePartition
  import opened Arithmetic
  import opened Words
  import opened WaveletMatrix
  import opened CraftCodes
  import opened RankSupport
  import opened RSQVectors
  import opened PartitionInto
  import opened LevelSteps
  import opened CodeTables
  import opened DecodeTables
  import opened QuadWavelet
  import opened HuffPaths
  import opened HuffWavelet
  import opened BuildHuffWavelet

  // ---- What is accepted ----

  /** The tables describe the same codes, and no code is longer than the levels. */
  ghost predicate TablesAgree(encode: seq<PrefixCode>, decode: seq<seq<Entry>>, nLevels: nat) {
    Decodes(decode, encode) && forall x :: 0 <= x < |encode| ==> GoodCode(encode[x]) && encode[x].len <= 2 * nLevels
  }

  /** The decode table has an entry for the digits `p`. */
  ghost predicate IsLeaf(decode: seq<seq<Entry>>, p: Word) {
    HasEntry(decode, 2 * |p|, Value(p))
  }

  ghost predicate HasEntry(decode: seq<seq<Entry>>, len: nat, content: int) {
    len < |decode| && exists k :: 0 <= k < |decode[len]| && decode[len][k].content == content
  }

  /** A row decodes: its word has an entry, and no shorter part of it has one. */
  ghost predicate RowDecodes(decode: seq<seq<Entry>>, r: Word) {
    IsLeaf(decode, r) && Unfinished(decode, r, |r| - 1)
  }

  /** None of the first `m` initial parts of `r` has an entry. */
  ghost predicate Unfinished(decode: seq<seq<Entry>>, r: Word, m: int)
    requires m <= |r|
  {
    forall j :: 0 < j <= m ==> !IsLeaf(decode, r[..j])
  }

  ghost predicate RowsDecode(decode: seq<seq<Entry>>, w: seq<Word>) {
    forall i :: 0 <= i < |w| ==> RowDecodes(decode, w[i])
  }

  /** Lengths of levels and directory agree. */
  ghost predicate LengthsMatch(nLevels: nat, qvs: seq<RSQVector>, lens: seq<nat>)
    requires AllLevelsValid(qvs)
  {
    |qvs| == |lens| == nLevels && forall l :: 0 <= l < nLevels ==> lens[l] == |qvs[l].Contents()|
  }

  /** The intervals of every code stay inside the levels. */
  ghost predicate PathsFit(n: nat, encode: seq<PrefixCode>, ks: seq<seq<int>>) {
    forall x :: 0 <= x < |encode| && encode[x].len > 0 ==> Fits(ks, CodeWord(encode[x]), n)
  }

  /** What the owned tree accepts. */
  ghost predicate OwnedAcceptable(n: nat, nLevels: nat, encode: seq<PrefixCode>, decode: seq<seq<Entry>>, qvs: seq<RSQVector>, lens: seq<nat>)
    requires AllLevelsValid(qvs)
  {
    && nLevels <= MAX_QUAD_LEVELS && TablesAgree(encode, decode, nLevels)
    && if n == 0 then nLevels == 0 && ((|qvs| == 0 && |lens| == 0) || (|qvs| == 1 && lens == [0]))
       else
         && nLevels > 0 && LengthsMatch(nLevels, qvs, lens) && lens[0] == n
         && PathsFit(n, encode, ContentsOf(qvs))
         && RowsDecode(decode, PathRows(ContentsOf(qvs), n))
  }

  /** What the borrowed view accepts: an empty text may come with levels. */
  ghost predicate ViewAcceptable(n: nat, nLevels: nat, encode: seq<PrefixCode>, decode: seq<seq<Entry>>, qvs: seq<RSQVector>, lens: seq<nat>)
    requires AllLevelsValid(qvs)
  {
    && nLevels <= MAX_QUAD_LEVELS && TablesAgree(encode, decode, nLevels)
    && LengthsMatch(nLevels, qvs, lens) && PathsFit(n, encode, ContentsOf(qvs))
    && (n > 0 ==> nLevels > 0 && lens[0] == n && RowsDecode(decode, PathRows(ContentsOf(qvs), n)))
  }

  // ---- The text of an accepted tree ----

  ghost function SymbolOf(decode: seq<seq<Entry>>, p: Word): (x: nat)
    requires IsLeaf(decode, p)
    ensures Entry(Value(p), x) in decode[2 * |p|]
  {
    var k :| 0 <= k < |decode[2 * |p|]| && decode[2 * |p|][k].content == Value(p);
    decode[2 * |p|][k].symbol
  }

  ghost function TextOf(decode: seq<seq<Entry>>, w: seq<Word>): (s: seq<nat>)
    requires RowsDecode(decode, w)
    ensures |s| == |w| && forall i :: 0 <= i < |w| ==> s[i] == SymbolOf(decode, w[i])
  {
    seq(|w|, i requires 0 <= i < |w| => SymbolOf(decode, w[i]))
  }

  lemma SymbolHasCode(encode: seq<PrefixCode>, decode: seq<seq<Entry>>, nLevels: nat, p: Word)
    requires TablesAgree(encode, decode, nLevels) && IsLeaf(decode, p) && Quaternary(p)
    ensures var x := SymbolOf(decode, p); x < |encode| && encode[x].len == 2 * |p| && CodeWord(encode[x]) == p
  {
    CodeWordOfValue(p);
    var bucket := decode[2 * |p|];
    assert BucketOf(bucket, 2 * |p|, encode, |encode|);
    var k :| 0 <= k < |bucket| && bucket[k] == Entry(Value(p), SymbolOf(decode, p));
    assert encode[bucket[k].symbol] == PrefixCode(bucket[k].content, 2 * |p|);
  }

  /** Only words of at most 32 bits have an entry. */
  lemma LeafIsShort(encode: seq<PrefixCode>, decode: seq<seq<Entry>>, nLevels: nat, len: nat, content: int)
    requires TablesAgree(encode, decode, nLevels) && HasEntry(decode, len, content)
    ensures len <= 32
  {
    var k :| 0 <= k < |decode[len]| && decode[len][k].content == content;
    assert BucketOf(decode[len], len, encode, |encode|);
    assert encode[decode[len][k].symbol] == PrefixCode(decode[len][k].content, len);
  }

  lemma CodeIsLeaf(encode: seq<PrefixCode>, decode: seq<seq<Entry>>, nLevels: nat, x: nat)
    requires TablesAgree(encode, decode, nLevels) && x < |encode| && encode[x].len > 0
    ensures IsLeaf(decode, CodeWord(encode[x]))
  {
    WordValue(encode[x]);
    var len := encode[x].len;
    assert BucketOf(decode[len], len, encode, |encode|);
    assert Entry(encode[x].content, x) in decode[len];
    assert 2 * |CodeWord(encode[x])| == len;
  }

  /** No row goes on beyond a code. */
  lemma CodesEnd(encode: seq<PrefixCode>, decode: seq<seq<Entry>>, nLevels: nat, w: seq<Word>, x: nat)
    requires TablesAgree(encode, decode, nLevels) && RowsDecode(decode, w) && x < |encode| && encode[x].len > 0
    ensures NoneBeyond(w, CodeWord(encode[x]))
  {
    hide CodeWord, IsLeaf;
    var c := CodeWord(encode[x]);
    CodeIsLeaf(encode, decode, nLevels, x);
    assert |c| > 0 by { WordNotEmpty(encode[x]); }
    forall i | 0 <= i < |w| && c <= w[i]
      ensures w[i] == c
    {
      assert RowDecodes(decode, w[i]) && w[i][..|c|] == c;
    }
  }

  lemma WordNotEmpty(code: PrefixCode)
    requires GoodCode(code) && code.len > 0
    ensures |CodeWord(code)| > 0
  {}

  /** Everything the check accepts answers queries about the text it decodes to. */
  lemma AcceptedServes(t: HuffQWaveletTree)
    requires AllLevelsValid(t.qvs) && OwnedAcceptable(t.n, t.nLevels, t.codesEncode, t.codesDecode, t.qvs, t.lens) && t.n > 0
    ensures RowsDecode(t.codesDecode, PathRows(ContentsOf(t.qvs), t.n))
    ensures t.Serves(TextOf(t.codesDecode, PathRows(ContentsOf(t.qvs), t.n)))
  {
    hide CodeWord, PathWord, IsLeaf, Decodes, GoodCode, Fits, NoneBeyond, RSQVector.Valid, RSQVector.Contents, RowDecodes;
    var ks := ContentsOf(t.qvs);
    var w := PathRows(ks, t.n);
    var s := TextOf(t.codesDecode, w);
    TextCoded(t.codesEncode, t.codesDecode, t.nLevels, w);
    TextLabels(t.codesEncode, t.codesDecode, t.nLevels, w);
    assert CodeRows(s, t.codesEncode) == w;
    forall x: nat | t.HasCode(x)
      ensures NoneBeyond(w, CodeWord(t.codesEncode[x]))
    {
      CodesEnd(t.codesEncode, t.codesDecode, t.nLevels, w, x);
    }
  }

  lemma TextCoded(encode: seq<PrefixCode>, decode: seq<seq<Entry>>, nLevels: nat, w: seq<Word>)
    requires TablesAgree(encode, decode, nLevels) && RowsDecode(decode, w) && AllQuaternary(w) && forall i :: 0 <= i < |w| ==> |w[i]| > 0
    ensures var s := TextOf(decode, w);
      forall i :: 0 <= i < |s| ==> s[i] < |encode| && encode[s[i]].len > 0 && CodeWord(encode[s[i]]) == w[i]
  {
    hide CodeWord;
    var s := TextOf(decode, w);
    forall i | 0 <= i < |s|
      ensures s[i] < |encode| && encode[s[i]].len > 0 && CodeWord(encode[s[i]]) == w[i]
    {
      assert RowDecodes(decode, w[i]);
      SymbolHasCode(encode, decode, nLevels, w[i]);
    }
  }

  lemma TextLabels(encode: seq<PrefixCode>, decode: seq<seq<Entry>>, nLevels: nat, w: seq<Word>)
    requires TablesAgree(encode, decode, nLevels) && RowsDecode(decode, w) && AllQuaternary(w) && forall i :: 0 <= i < |w| ==> |w[i]| > 0
    ensures Labels(TextOf(decode, w), encode)
  {
    hide CodeWord, Decodes;
    TextCoded(encode, decode, nLevels, w);
    forall x, y | 0 <= x < |encode| && 0 <= y < |encode| && encode[x].len > 0 && encode[x] == encode[y]
      ensures x == y
    {
      DecodedOnce(decode, encode, x, y);
    }
  }

  /** The two checks differ in nothing but an empty text with levels. */
  lemma ViewAcceptsMore(n: nat, nLevels: nat, encode: seq<PrefixCode>, decode: seq<seq<Entry>>, qvs: seq<RSQVector>, lens: seq<nat>)
    requires AllLevelsValid(qvs) && LengthsMatch(nLevels, qvs, lens)
    ensures OwnedAcceptable(n, nLevels, encode, decode, qvs, lens)
       <==> ViewAcceptable(n, nLevels, encode, decode, qvs, lens) && (n > 0 || nLevels == 0)
  {
    hide Decodes, Fits, RowsDecode, RSQVector.Valid, RSQVector.Contents;
  }

  // ---- The code tables ----

  /** An encode entry is found in its decode bucket. */
  ghost predicate EntryAgrees(code: PrefixCode, x: nat, decode: seq<seq<Entry>>, nLevels: nat) {
    code.len > 0 ==>
      && GoodCode(code) && code.len <= 2 * nLevels
      && code.len < |decode| && Entry(code.content, x) in decode[code.len]
  }

  method CheckCode(code: PrefixCode, x: nat, decode: seq<seq<Entry>>, nLevels: nat) returns (ok: bool)
    requires code.content < 0x1_0000_0000
    ensures ok ==> EntryAgrees(code, x, decode, nLevels)
    ensures !ok ==> forall encode :: x < |encode| && encode[x] == code ==> !TablesAgree(encode, decode, nLevels)
  {
    if code.len == 0 {
      return true;
    }
    var codeLen := code.len;
    if codeLen % 2 != 0 || codeLen > 2 * nLevels || codeLen > 32 {
      return false;
    }
    Pow4Sixteen();
    if codeLen < 32 && code.content >= Pow4(codeLen / 2) {
      return false;
    }
    if codeLen >= |decode| {
      return false;
    }
    var index := Search(decode[codeLen], code.content);
    if index.None? {
      NotFound(code, x, decode, nLevels);
      return false;
    }
    if decode[codeLen][index.value].symbol != x {
      OtherFound(code, x, decode, nLevels, index.value);
      return false;
    }
    return true;
  }

  lemma Pow4Sixteen()
    ensures Pow4(16) == 0x1_0000_0000
  {
    Pow4Sixteen32();
  }

  lemma NotFound(code: PrefixCode, x: nat, decode: seq<seq<Entry>>, nLevels: nat)
    requires 0 < code.len < |decode|
    requires Ascending(decode[code.len]) ==> forall i :: 0 <= i < |decode[code.len]| ==> decode[code.len][i].content != code.content
    ensures forall encode :: x < |encode| && encode[x] == code ==> !TablesAgree(encode, decode, nLevels)
  {
    forall encode | x < |encode| && encode[x] == code
      ensures !TablesAgree(encode, decode, nLevels)
    {
      var bucket := decode[code.len];
      if Ascending(bucket) {
        assert BucketOf(bucket, code.len, encode, |encode|) ==> Entry(code.content, x) in bucket;
      }
    }
  }

  lemma OtherFound(code: PrefixCode, x: nat, decode: seq<seq<Entry>>, nLevels: nat, k: nat)
    requires 0 < code.len < |decode| && k < |decode[code.len]|
    requires decode[code.len][k].content == code.content && decode[code.len][k].symbol != x
    ensures forall encode :: x < |encode| && encode[x] == code ==> !TablesAgree(encode, decode, nLevels)
  {
    forall encode | x < |encode| && encode[x] == code
      ensures !TablesAgree(encode, decode, nLevels)
    {
      if TablesAgree(encode, decode, nLevels) {
        var bucket := decode[code.len];
        assert BucketOf(bucket, code.len, encode, |encode|);
        DecodedOnce(decode, encode, x, bucket[k].symbol);
      }
    }
  }

  method CheckBucket(bucket: seq<Entry>, len: nat, encode: seq<PrefixCode>) returns (ok: bool)
    ensures ok <==> Ascending(bucket) && EntriesOf(bucket, len, encode)
  {
    var i := 1;
    while i < |bucket|
      invariant 1 <= i && forall a, b :: 0 <= a < b < i && b < |bucket| ==> bucket[a].content < bucket[b].content
    {
      if bucket[i - 1].content >= bucket[i].content {
        return false;
      }
      i := i + 1;
    }
    i := 0;
    while i < |bucket|
      invariant 0 <= i <= |bucket| && EntriesOf(bucket[..i], len, encode)
    {
      var content, symbol := bucket[i].content, bucket[i].symbol;
      if symbol >= |encode| || encode[symbol].len != len || encode[symbol].content != content {
        return false;
      }
      i := i + 1;
    }
    assert bucket[..|bucket|] == bucket;
    return true;
  }

  /** Both tables, first from codes to entries and then back. */
  method CheckTables(encode: seq<PrefixCode>, decode: seq<seq<Entry>>, nLevels: nat) returns (ok: bool)
    requires forall x :: 0 <= x < |encode| ==> encode[x].content < 0x1_0000_0000
    ensures ok <==> TablesAgree(encode, decode, nLevels)
  {
    hide TablesAgree, EntryAgrees, Ascending, EntriesOf;
    var x := 0;
    while x < |encode|
      invariant 0 <= x <= |encode| && forall y: nat :: y < x ==> EntryAgrees(encode[y], y, decode, nLevels)
    {
      var good := CheckCode(encode[x], x, decode, nLevels);
      if !good {
        return false;
      }
      x := x + 1;
    }
    var len := 0;
    while len < |decode|
      invariant 0 <= len <= |decode|
      invariant forall m :: 0 <= m < len ==> Ascending(decode[m]) && EntriesOf(decode[m], m, encode)
    {
      var good := CheckBucket(decode[len], len, encode);
      if !good {
        BadBucket(encode, decode, nLevels, len);
        return false;
      }
      len := len + 1;
    }
    TablesChecked(encode, decode, nLevels);
    return true;
  }

  lemma BadBucket(encode: seq<PrefixCode>, decode: seq<seq<Entry>>, nLevels: nat, len: nat)
    requires len < |decode| && !(Ascending(decode[len]) && EntriesOf(decode[len], len, encode))
    ensures !TablesAgree(encode, decode, nLevels)
  {
    hide Ascending, EntriesOf;
  }

  lemma TablesChecked(encode: seq<PrefixCode>, decode: seq<seq<Entry>>, nLevels: nat)
    requires forall y: nat :: y < |encode| ==> EntryAgrees(encode[y], y, decode, nLevels)
    requires forall m :: 0 <= m < |decode| ==> Ascending(decode[m]) && EntriesOf(decode[m], m, encode)
    ensures TablesAgree(encode, decode, nLevels)
  {
    hide Ascending, EntriesOf;
    forall x | 0 <= x < |encode|
      ensures GoodCode(encode[x]) && encode[x].len <= 2 * nLevels && (encode[x].len > 0 ==> encode[x].len < |decode|)
    {
      assert EntryAgrees(encode[x], x, decode, nLevels);
    }
    forall m: nat | m < |decode|
      ensures BucketOf(decode[m], m, encode, |encode|)
    {
      forall x | 0 <= x < |encode| && m > 0 && encode[x].len == m
        ensures Entry(encode[x].content, x) in decode[m]
      {
        assert EntryAgrees(encode[x], x, decode, nLevels);
      }
    }
  }

  // ---- The intervals of the codes ----

  method NarrowInterval(q: RSQVector, fragment: nat, start: nat, end: nat) returns (start': nat, end': nat)
    requires q.Valid() && fragment < 4 && start <= end <= |q.Contents()|
    ensures start' == Child(q.Contents(), fragment, start) <= end' == Child(q.Contents(), fragment, end)
  {
    hide RSQVector.Valid, RSQVector.Contents, Rank;
    var rankStart := q.RankOf(fragment, start);
    var rankEnd := q.RankOf(fragment, end);
    var offset := q.OccsSmallerUnchecked(fragment);
    RankMonotone(q.Contents(), fragment, start, end);
    start' := rankStart.value + offset;
    end' := rankEnd.value + offset;
  }

  lemma PathStepEnds(ks: seq<seq<int>>, c: Word, n: nat, l: nat)
    requires Quaternary(c) && l < |c| && l < |ks| && PathPos(ks, c, 0, l) <= |ks[l]| && PathPos(ks, c, n, l) <= |ks[l]|
    ensures PathPos(ks, c, 0, l + 1) == Child(ks[l], c[l], PathPos(ks, c, 0, l))
    ensures PathPos(ks, c, n, l + 1) == Child(ks[l], c[l], PathPos(ks, c, n, l))
  {}

  method PathFits(n: nat, code: PrefixCode, qvs: seq<RSQVector>, lens: seq<nat>) returns (ok: bool)
    requires AllLevelsValid(qvs) && LengthsMatch(|qvs|, qvs, lens) && GoodCode(code) && code.len > 0
    ensures ok <==> Fits(ContentsOf(qvs), CodeWord(code), n)
  {
    hide CodeWord, RSQVector.Valid, RSQVector.Contents, TwoBits, Child, GoodCode, PathPos;
    ghost var ks, c := ContentsOf(qvs), CodeWord(code);
    var start, end, shift, levelIndex := 0, n, code.len, 0;
    ShiftStart(code);
    PathStarts(ks, c, n);
    while shift > 0
      invariant 0 <= levelIndex <= |c| && levelIndex <= |qvs| && shift == 2 * (|c| - levelIndex)
      invariant start == PathPos(ks, c, 0, levelIndex) && end == PathPos(ks, c, n, levelIndex) && start <= end
      invariant forall l :: 0 <= l < levelIndex ==> PathPos(ks, c, n, l) <= |ks[l]|
      decreases shift
    {
      shift := shift - 2;
      if levelIndex >= |qvs| {
        return false;
      }
      if end > lens[levelIndex] {
        return false;
      }
      CodeDigit(code, levelIndex);
      PathStepEnds(ks, c, n, levelIndex);
      start, end := NarrowInterval(qvs[levelIndex], TwoBits(code.content, shift), start, end);
      levelIndex := levelIndex + 1;
    }
    return true;
  }

  method CheckPaths(n: nat, encode: seq<PrefixCode>, qvs: seq<RSQVector>, lens: seq<nat>) returns (ok: bool)
    requires AllLevelsValid(qvs) && LengthsMatch(|qvs|, qvs, lens) && forall x :: 0 <= x < |encode| ==> GoodCode(encode[x])
    ensures ok <==> PathsFit(n, encode, ContentsOf(qvs))
  {
    hide CodeWord, Fits, RSQVector.Valid, RSQVector.Contents, GoodCode;
    ghost var ks := ContentsOf(qvs);
    var x := 0;
    while x < |encode|
      invariant 0 <= x <= |encode| && forall y :: 0 <= y < x && encode[y].len > 0 ==> Fits(ks, CodeWord(encode[y]), n)
    {
      if encode[x].len != 0 {
        var fits := PathFits(n, encode[x], qvs, lens);
        if !fits {
          return false;
        }
      }
      x := x + 1;
    }
    return true;
  }
}
