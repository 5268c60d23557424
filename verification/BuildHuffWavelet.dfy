/**
 Construction of the Huffman-shaped tree: rows whose code has ended drop out of
 the quad vectors and gather in a fifth bucket behind the others.
 */
module BuildHuffWavelet {
  import opened Wrappers
  import opened RankSelect
  import opened StablePartition
  import opened Arithmetic
  import opened Words
  import opened WaveletMatrix
  import opened CodeOrder
  import opened CraftCodes
  import opened AssignCodes
  import opened SortByKey
  import opened LimitLengths
  import opened HuffmanCodes
  import opened QuadVector
  import opened RankSupport
  import opened BuildSupport
  import opened RSQVectors
  import opened PartitionInto
  import opened SymbolWords
  import opened LevelSteps
  import opened CodeTables
  import opened DecodeTables
  import opened QuadWavelet
  import opened BuildQuadWavelet
  import opened HuffWavelet

  // ---- The five-way partition ----

  /** Bucket 4 for words that end with digit `l` or before, the digit otherwise. */
  ghost predicate KeysAt(w: seq<Word>, keys: seq<int>, l: nat) {
    |keys| == |w| && forall i :: 0 <= i < |w| ==> keys[i] == if |w[i]| <= l + 1 then 4 else w[i][l]
  }

  lemma {:induction false} BucketOfContinuing(w: seq<Word>, keys: seq<int>, l: nat, d: nat)
    requires KeysAt(w, keys, l) && d < 4
    ensures Deep(Continuing(w, l + 1), l)
    ensures Bucket(w, keys, d) == Bucket(Continuing(w, l + 1), Digits(Continuing(w, l + 1), l), d)
  {
    if |w| > 0 {
      var n := |w| - 1;
      var c, x := Continuing(w[..n], l + 1), w[n];
      BucketOfContinuing(w[..n], keys[..n], l, d);
      if |x| > l + 1 {
        DigitsPush(c, x, l);
        BucketPush(c, Digits(c, l), x, x[l], d);
      } else {
        assert Continuing(w, l + 1) == c;
      }
    }
  }

  lemma {:induction false} PartitionOfContinuing(w: seq<Word>, keys: seq<int>, l: nat, k: nat)
    requires KeysAt(w, keys, l) && k <= 4
    ensures Partition(w, keys, k) == Partition(Continuing(w, l + 1), Digits(Continuing(w, l + 1), l), k)
  {
    hide Bucket, Continuing;
    if k > 0 {
      PartitionOfContinuing(w, keys, l, k - 1);
      BucketOfContinuing(w, keys, l, k - 1);
    }
  }

  lemma {:induction false} EndedBucket(w: seq<Word>, keys: seq<int>, l: nat)
    requires KeysAt(w, keys, l) && AllQuaternary(w)
    ensures Continuing(Bucket(w, keys, 4), l + 1) == []
  {
    if |w| > 0 {
      var n := |w| - 1;
      EndedBucket(w[..n], keys[..n], l);
      if keys[n] == 4 {
        assert Quaternary(w[n]) && |w[n]| <= l + 1;
        ContinuingPush(Bucket(w[..n], keys[..n], 4), w[n], l + 1);
      } else {
        assert Bucket(w, keys, 4) == Bucket(w[..n], keys[..n], 4);
      }
    }
  }

  lemma {:induction false} ContinuingTwice(w: seq<Word>, l: nat)
    ensures Continuing(Continuing(w, l), l + 1) == Continuing(w, l + 1)
  {
    if |w| > 0 {
      var n := |w| - 1;
      ContinuingTwice(w[..n], l);
      if |w[n]| > l {
        ContinuingPush(Continuing(w[..n], l), w[n], l + 1);
      } else {
        assert Continuing(w, l) == Continuing(w[..n], l);
      }
    }
  }

  /** The rows that go on come first and are the next level. */
  lemma NextRows(w: seq<Word>, keys: seq<int>, root: seq<Word>, l: nat)
    requires KeysAt(w, keys, l) && AllQuaternary(w) && Continuing(w, l) == Level(root, l)
    ensures Continuing(Partition(w, keys, 5), l + 1) == Level(root, l + 1)
  {
    hide Bucket, Continuing;
    var c := Continuing(w, l + 1);
    ContinuingTwice(w, l);
    PartitionOfContinuing(w, keys, l, 4);
    SortedDeep(c, l, l + 1);
    ContinuingAll(Sorted(c, l), l + 1);
    EndedBucket(w, keys, l);
    ContinuingConcat(Partition(w, keys, 4), Bucket(w, keys, 4), l + 1);
    assert Partition(w, keys, 5) == Partition(w, keys, 4) + Bucket(w, keys, 4);
  }

  // ---- On symbols ----

  lemma CodeRowsPartition(s: seq<nat>, codes: seq<PrefixCode>, keys: seq<int>, k: nat)
    requires |s| == |keys| && CodesCover(s, codes)
    ensures CodesCover(Partition(s, keys, k), codes)
    ensures CodeRows(Partition(s, keys, k), codes) == Partition(CodeRows(s, codes), keys, k)
  {
    hide CodeWord, Partition;
    var p, q := Partition(s, keys, k), Partition(CodeRows(s, codes), keys, k);
    forall j | 0 <= j < |p|
      ensures p[j] < |codes| && CodeWord(codes[p[j]]) == q[j]
    {
      var i := MoveSurjective(keys, k, j);
      MoveStep(s, keys, k, i);
      MoveStep(CodeRows(s, codes), keys, k, i);
    }
  }

  ghost predicate EvenCodes(codes: seq<PrefixCode>) {
    forall x :: 0 <= x < |codes| ==> codes[x].len % 2 == 0
  }

  lemma KeysOfCodes(s: seq<nat>, codes: seq<PrefixCode>, l: nat)
    requires CodesCover(s, codes) && EvenCodes(codes)
    ensures KeysAt(CodeRows(s, codes), CodeKeys(s, codes, 2 * (l + 1)), l)
  {
    var w, keys := CodeRows(s, codes), CodeKeys(s, codes, 2 * (l + 1));
    forall i | 0 <= i < |w|
      ensures keys[i] == if |w[i]| <= l + 1 then 4 else w[i][l]
    {
      var code := codes[s[i]];
      assert code.len == 2 * |CodeWord(code)|;
    }
  }

  lemma NextSequence(s: seq<nat>, next: seq<nat>, codes: seq<PrefixCode>, root: seq<Word>, l: nat)
    requires CodesCover(s, codes) && EvenCodes(codes)
    requires Continuing(CodeRows(s, codes), l) == Level(root, l)
    requires next == Partition(s, CodeKeys(s, codes, 2 * (l + 1)), 5)
    ensures CodesCover(next, codes) && Continuing(CodeRows(next, codes), l + 1) == Level(root, l + 1)
  {
    hide Level, Continuing, Partition, CodeKeys, CodeWord;
    var keys := CodeKeys(s, codes, 2 * (l + 1));
    CodeRowsPartition(s, codes, keys, 5);
    KeysOfCodes(s, codes, l);
    NextRows(CodeRows(s, codes), keys, root, l);
  }

  // ---- One level ----

  /** Digits of the rows that go on, among the first `i`. */
  ghost predicate DigitsUpTo(s: seq<nat>, codes: seq<PrefixCode>, l: nat, i: nat, digits: seq<int>)
    requires i <= |s|
  {
    CodesCover(s, codes) && digits == Digits(Continuing(CodeRows(s, codes)[..i], l), l)
  }

  lemma NoDigits(s: seq<nat>, codes: seq<PrefixCode>, l: nat)
    requires CodesCover(s, codes)
    ensures DigitsUpTo(s, codes, l, 0, [])
  {}

  lemma MoreDigits(s: seq<nat>, codes: seq<PrefixCode>, l: nat, i: nat, digits: seq<int>)
    requires i < |s| && DigitsUpTo(s, codes, l, i, digits)
    requires codes[s[i]].len % 2 == 0
    ensures var code := codes[s[i]];
      if code.len >= 2 * (l + 1) then DigitsUpTo(s, codes, l, i + 1, digits + [TwoBits(code.content, code.len - 2 * (l + 1))])
      else DigitsUpTo(s, codes, l, i + 1, digits)
  {
    var w, code := CodeRows(s, codes), codes[s[i]];
    assert w[..i + 1] == w[..i] + [w[i]];
    ContinuingPush(w[..i], w[i], l);
    assert code.len == 2 * |w[i]|;
    if |w[i]| > l {
      DigitsPush(Continuing(w[..i], l), w[i], l);
    } else {
      assert Continuing(w[..i], l) + [] == Continuing(w[..i], l);
    }
  }

  lemma AllDigits(s: seq<nat>, codes: seq<PrefixCode>, l: nat, root: seq<Word>, digits: seq<int>)
    requires DigitsUpTo(s, codes, l, |s|, digits) && Continuing(CodeRows(s, codes), l) == Level(root, l)
    ensures digits == LevelDigits(root, l)
  {
    assert CodeRows(s, codes)[..|s|] == CodeRows(s, codes);
  }

  lemma NoCounts5(keys: seq<int>)
    ensures CountsUpTo(keys, 5, 0, [0, 0, 0, 0, 0])
  {}

  lemma AllCounted5(keys: seq<int>, counts: seq<nat>)
    requires CountsUpTo(keys, 5, |keys|, counts)
    ensures CountsOf(keys, 5, counts)
  {}

  /** The quad vector of a level and the sizes of the five buckets, in one pass. */
  method EncodeHuffLevel(sequence: seq<nat>, codes: seq<PrefixCode>, shift: nat, ghost l: nat)
    returns (qv: QVector, counts: seq<nat>)
    requires CodesCover(sequence, codes) && EvenCodes(codes) && shift == 2 * (l + 1)
    ensures qv.Valid() && Canonical(qv) && DigitsUpTo(sequence, codes, l, |sequence|, qv.Contents()) && qv.Len() <= |sequence|
    ensures CountsOf(CodeKeys(sequence, codes, shift), 5, counts)
  {
    hide TwoBits, QVector.Valid, QVectorBuilder.Valid, QVectorBuilder.Contents, CountsUpTo, CodeBucket, DigitsUpTo;
    ghost var keys := CodeKeys(sequence, codes, shift);
    var curQv := new QVectorBuilder();
    counts := [0, 0, 0, 0, 0];
    NoCounts5(keys);
    NoDigits(sequence, codes, l);
    var i := 0;
    while i < |sequence|
      invariant 0 <= i <= |sequence| && fresh(curQv) && curQv.Valid()
      invariant DigitsUpTo(sequence, codes, l, i, curQv.Contents()) && |curQv.Contents()| <= i
      invariant CountsUpTo(keys, 5, i, counts)
    {
      var curCode := codes[sequence[i]];
      BuildQuadWavelet.CountsShape(keys, 5, i, counts);
      CountOne(keys, 5, i, counts);
      MoreDigits(sequence, codes, l, i, curQv.Contents());
      if curCode.len >= shift {
        var qvSymbol := TwoBits(curCode.content, curCode.len - shift);
        curQv.Push(qvSymbol);
      }
      var bucket := CodeBucket(curCode, shift);
      counts := counts[bucket := counts[bucket] + 1];
      i := i + 1;
    }
    AllCounted5(keys, counts);
    qv := curQv.Build();
    assert |qv.Contents()| == qv.Len();
  }

  method OneHuffLevel(sequence: seq<nat>, codes: seq<PrefixCode>, shift: nat, partitioned: array<nat>, ghost root: seq<Word>, ghost l: nat, b: nat)
    returns (q: RSQVector, len: nat)
    requires BlockSize(b) && |sequence| == partitioned.Length < MAX_LEN && shift == 2 * (l + 1)
    requires CodesCover(sequence, codes) && EvenCodes(codes)
    requires Continuing(CodeRows(sequence, codes), l) == Level(root, l)
    modifies partitioned
    ensures BuiltLevel(q, root, l, b) && len == |Level(root, l)|
    ensures CodesCover(partitioned[..], codes)
    ensures Continuing(CodeRows(partitioned[..], codes), l + 1) == Level(root, l + 1)
  {
    hide IsFinalSuperblocks, IsFinalSamples, Level, Continuing, RSQVector.Valid, QVector.Valid, CountsOf, Partition, DigitsUpTo, CodeKeys;
    var qv, counts := EncodeHuffLevel(sequence, codes, shift, l);
    AllDigits(sequence, codes, l, root, qv.Contents());
    len := qv.Len();
    q := FromQVector(qv, b);
    StablePartitionOf4WithCodesInto(sequence, shift, codes, counts, partitioned);
    NextSequence(sequence, partitioned[..], codes, root, l);
  }

  // ---- The tree ----

  method MaxLen(codes: seq<PrefixCode>) returns (m: nat)
    requires |codes| > 0
    ensures forall x :: 0 <= x < |codes| ==> codes[x].len <= m
    ensures exists x :: 0 <= x < |codes| && codes[x].len == m
  {
    m := codes[0].len;
    var i := 1;
    while i < |codes|
      invariant 1 <= i <= |codes|
      invariant forall x :: 0 <= x < i ==> codes[x].len <= m
      invariant exists x :: 0 <= x < i && codes[x].len == m
    {
      if codes[i].len > m {
        m := codes[i].len;
      }
      i := i + 1;
    }
  }

  /** The lengths a Huffman coder delivers for a text. */
  ghost predicate LengthsFor(s: seq<nat>, lengths: seq<LenInfo>, sigma: nat) {
    && RawLengths(lengths, sigma) && LengthsCover(s, lengths)
    && forall t :: 0 <= t < |lengths| ==> lengths[t].frequency == Occs<int>(s, lengths[t].symbol)
  }

  /** Whether code assignment succeeds, in terms of the lengths after limiting. */
  ghost predicate Codable(raw: seq<LenInfo>, limited: seq<LenInfo>) {
    var d := Depths(Sort(limited, LengthKey));
    !(Overlong(raw) && |raw| > MAX_DEPTH_SLOTS) && Lengths(d) && Fits(d)
  }

  /** The tree has the codes of the limited lengths, and as many levels as the longest has digits. */
  ghost predicate HuffmanShaped(t: HuffQWaveletTree, raw: seq<LenInfo>, limited: seq<LenInfo>) {
    && LimitedTo(raw, limited) && |t.codesEncode| > 0 && Crafted(limited, |t.codesEncode| - 1, t.codesEncode)
    && (forall i :: 0 <= i < |limited| ==>
          limited[i].symbol < |t.codesEncode| && t.codesEncode[limited[i].symbol].len == limited[i].len <= 2 * t.nLevels)
    && exists i :: 0 <= i < |limited| && limited[i].len == 2 * t.nLevels
  }

  lemma ShapeOfCodes(t: HuffQWaveletTree, raw: seq<LenInfo>, limited: seq<LenInfo>, sigma: nat)
    requires LimitedTo(raw, limited) && Crafted(limited, sigma, t.codesEncode) && t.nLevels > 0
    requires forall x :: 0 <= x < |t.codesEncode| ==> t.codesEncode[x].len <= 2 * t.nLevels
    requires exists x :: 0 <= x < |t.codesEncode| && t.codesEncode[x].len == 2 * t.nLevels
    ensures HuffmanShaped(t, raw, limited)
  {
    hide LimitedTo, Exceeds, NoneBegins, Before, Key, WordFor;
    var x :| 0 <= x < |t.codesEncode| && t.codesEncode[x].len == 2 * t.nLevels;
    var i :| 0 <= i < |limited| && limited[i].symbol == x;
  }

  /**
   The tree of a text, given the lengths the Huffman coder chose. `None` stands
   for the panics of code assignment.
   */
  method FromOwned(input: seq<nat>, lengths: array<LenInfo>, b: nat) returns (r: Option<HuffQWaveletTree>)
    requires BlockSize(b) && |input| < MAX_LEN
    requires forall sigma: nat :: MaxSymbol(input, sigma) ==> LengthsFor(input, lengths[..], sigma)
    modifies lengths
    ensures r.Some? <==> |input| == 0 || Codable(old(lengths[..]), lengths[..])
    ensures r.Some? ==> r.value.Represents(input)
    ensures r.Some? && |input| == 0 ==> Default(r.value.qvs, b)
    ensures r.Some? && |input| > 0 ==>
      && CodesCover(input, r.value.codesEncode)
      && BuiltLevels(r.value.qvs, CodeRows(input, r.value.codesEncode), b)
      && |r.value.codesEncode| > 0 && MaxSymbol(input, |r.value.codesEncode| - 1)
      && HuffmanShaped(r.value, old(lengths[..]), lengths[..])
  {
    hide RSQVector.Valid, BuiltLevel, RawLengths, LengthsCover, Fits, Overlong, ValidLengths, CodesFor, Sort, FinishedLast, LimitedTo, Lengths, Crafted, HuffmanShaped;
    if |input| == 0 {
      var default := EmptyLevel(b);
      return Some(HuffQWaveletTree(0, 0, [], [], [default], [0]));
    }
    var sigma := MaxOf(input);
    assert MaxSymbol(input, sigma);
    ghost var raw := lengths[..];
    var codes, order := CraftWmCodes(lengths, sigma);
    if !(Overlong(raw) && |raw| > MAX_DEPTH_SLOTS) {
      ValidOrder(order, sigma);
    }
    if codes.None? {
      return None;
    }
    OrderCovers(input, raw, lengths[..], order);
    AssignedEncodes(input, order, sigma, codes.value);
    var t := FromCodes(input, codes.value, b);
    TableLength(lengths[..], sigma, codes.value);
    ShapeOfCodes(t, raw, lengths[..], sigma);
    return Some(t);
  }

  lemma TableLength(lengths: seq<LenInfo>, sigma: nat, codes: seq<PrefixCode>)
    requires Crafted(lengths, sigma, codes)
    ensures |codes| == sigma + 1
  {}

  lemma ValidOrder(order: seq<LenInfo>, sigma: nat)
    requires ValidLengths(order, sigma)
    ensures Lengths(Depths(order))
  {}

  /** Limiting and sorting change no symbol. */
  lemma OrderCovers(s: seq<nat>, raw: seq<LenInfo>, limited: seq<LenInfo>, order: seq<LenInfo>)
    requires LengthsCover(s, raw) && order == Sort(limited, LengthKey)
    requires LimitedTo(raw, limited)
    ensures LengthsCover(s, order)
  {
    hide Sort, LengthKey, Overlong, JustEnough, LeastFrequentFirst, Slots;
    SortElements(limited, LengthKey);
    assert |limited| == |raw| && forall t :: 0 <= t < |raw| ==> limited[t].symbol == raw[t].symbol;
    forall t | 0 <= t < |order|
      ensures order[t].symbol in s
    {
      assert order[t] in limited;
    }
    forall x | x in s
      ensures exists t :: 0 <= t < |order| && order[t].symbol == x
    {
      var u :| 0 <= u < |raw| && raw[u].symbol == x;
      assert limited[u] in limited && limited[u] in order;
    }
  }

  lemma CodesShape(s: seq<nat>, codes: seq<PrefixCode>, maxLen: nat)
    requires Encodes(s, codes) && |s| > 0
    requires forall x :: 0 <= x < |codes| ==> codes[x].len <= maxLen
    requires exists x :: 0 <= x < |codes| && codes[x].len == maxLen
    ensures CodesCover(s, codes) && EvenCodes(codes) && maxLen % 2 == 0 && 2 <= maxLen <= 32
    ensures forall i :: 0 <= i < |s| ==> |CodeRows(s, codes)[i]| <= maxLen / 2
  {
    Covered(s, codes, s[0]);
  }

  /** Every level of the tree, for codes in wavelet-matrix order. */
  method FromCodes(input: seq<nat>, codes: seq<PrefixCode>, b: nat) returns (t: HuffQWaveletTree)
    requires BlockSize(b) && 0 < |input| < MAX_LEN && |codes| > 0
    requires Encodes(input, codes) && FinishedLast(CodeRows(input, codes))
    ensures t.Indexes(input) && t.codesEncode == codes && BuiltLevels(t.qvs, CodeRows(input, codes), b)
    ensures t.nLevels > 0 && forall x :: 0 <= x < |codes| ==> codes[x].len <= 2 * t.nLevels
    ensures exists x :: 0 <= x < |codes| && codes[x].len == 2 * t.nLevels
  {
    hide Level, Continuing, RSQVector.Valid, BuiltLevel, FinishedLast, GoodCode, CodeWord;
    var maxLen := MaxLen(codes);
    CodesShape(input, codes, maxLen);
    var nLevels := maxLen / 2;
    var codesDecode := FillDecode(codes, maxLen);
    ghost var root := CodeRows(input, codes);
    var shift := 2;
    var sequence, partitioned := new nat[|input|](i requires 0 <= i < |input| => input[i]), new nat[|input|](_ => 0);
    assert sequence[..] == input;
    assert Continuing(root, 0) == Level(root, 0) by { LevelIsContinuing(root); }
    var qvs: seq<RSQVector>, lens: seq<nat>, level := [], [], 0;
    while level < nLevels
      invariant 0 <= level <= nLevels && |qvs| == |lens| == level && shift == 2 * (level + 1)
      invariant fresh(sequence) && fresh(partitioned) && sequence != partitioned
      invariant sequence.Length == partitioned.Length == |input|
      invariant CodesCover(sequence[..], codes)
      invariant Continuing(CodeRows(sequence[..], codes), level) == Level(root, level)
      invariant BuiltLevels(qvs, root, b)
      invariant forall l :: 0 <= l < level ==> lens[l] == |Level(root, l)|
    {
      var q, len := OneHuffLevel(sequence[..], codes, shift, partitioned, root, level, b);
      lens := lens + [len];
      qvs := qvs + [q];
      sequence, partitioned := partitioned, sequence;
      shift := shift + 2;
      level := level + 1;
    }
    t := HuffQWaveletTree(sequence.Length, nLevels, codes, codesDecode, qvs, lens);
    HuffIndexes(t, input, b);
  }

  lemma LevelIsContinuing(w: seq<Word>)
    ensures Level(w, 0) == Continuing(w, 0)
  {}

  lemma HuffIndexes(t: HuffQWaveletTree, s: seq<nat>, b: nat)
    requires BlockSize(b) && |s| == t.n > 0 && |t.qvs| == |t.lens| == t.nLevels <= MAX_QUAD_LEVELS
    requires Encodes(s, t.codesEncode) && Decodes(t.codesDecode, t.codesEncode)
    requires |t.codesDecode| == 2 * t.nLevels + 1 && t.codesDecode[0] == []
    requires FinishedLast(CodeRows(s, t.codesEncode))
    requires BuiltLevels(t.qvs, CodeRows(s, t.codesEncode), b)
    requires forall i :: 0 <= i < |s| ==> |CodeRows(s, t.codesEncode)[i]| <= t.nLevels
    requires forall l :: 0 <= l < |t.lens| ==> t.lens[l] == |Level(CodeRows(s, t.codesEncode), l)|
    ensures t.Indexes(s)
  {
    hide Level, RSQVector.Valid, IsFinalSuperblocks, IsFinalSamples, FinishedLast, PrefixFree, Aligned, Labels, Decodes;
    CodeRowsShape(s, t.codesEncode);
    var w := CodeRows(s, t.codesEncode);
    CodeOrderAligns(w);
    FinishedLastPrefixFree(w);
    assert forall l :: 0 <= l < |t.qvs| ==> BuiltLevel(t.qvs[l], w, l, b);
  }
}
