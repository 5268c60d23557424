/**
 Construction of the plain tree: every level is written down and then
 partitioned into the second of two buffers, which change places.
 */
module BuildQuadWavelet {
  import opened RankSelect
  import opened StablePartition
  import opened Arithmetic
  import opened Words
  import opened WaveletMatrix
  import opened QuadVector
  import opened RankSupport
  import opened BuildSupport
  import opened RSQVectors
  import opened PartitionInto
  import opened SymbolWords
  import opened QuadWavelet

  // ---- Partitioning symbols is partitioning their words ----

  lemma RowsPartition(s: seq<nat>, n: nat, keys: seq<int>, k: nat)
    requires |s| == |keys|
    ensures Rows(Partition(s, keys, k), n) == Partition(Rows(s, n), keys, k)
  {
    var p, q := Partition(s, keys, k), Partition(Rows(s, n), keys, k);
    forall j | 0 <= j < |p|
      ensures Rows(p, n)[j] == q[j]
    {
      var i := MoveSurjective(keys, k, j);
      MoveStep(s, keys, k, i);
      MoveStep(Rows(s, n), keys, k, i);
    }
  }

  /** The two bits taken at level `l` are its digits. */
  lemma ShiftIsLevel(s: seq<nat>, n: nat, l: nat)
    requires l < n
    ensures Deep(Rows(s, n), l) && ShiftKeys(s, 2 * (n - 1 - l)) == Digits(Rows(s, n), l)
  {
    forall i | 0 <= i < |s|
      ensures ShiftKeys(s, 2 * (n - 1 - l))[i] == Rows(s, n)[i][l]
    {
      TwoBitsIsDigit(s[i], n, l);
    }
  }

  /** What the buffers hold after the step of level `l`. */
  lemma NextBuffer(s: seq<nat>, next: seq<nat>, w: seq<Word>, n: nat, l: nat)
    requires l < n && Deep(w, 0) && AllQuaternary(w) && Uniform(w, n)
    requires Rows(s, n) == Level(w, l)
    requires next == Partition(s, ShiftKeys(s, 2 * (n - 1 - l)), 4)
    ensures l + 1 < n ==> Rows(next, n) == Level(w, l + 1)
  {
    hide Level, Partition, ShiftKeys, Rows;
    ShiftIsLevel(s, n, l);
    RowsPartition(s, n, ShiftKeys(s, 2 * (n - 1 - l)), 4);
    UniformAligned(w, n, l);
  }

  // ---- One level ----

  ghost predicate CountsUpTo(keys: seq<int>, k: nat, i: nat, counts: seq<nat>)
    requires i <= |keys|
  {
    |counts| == k && forall d: nat :: d < k ==> counts[d] == Rank(keys, d, i)
  }

  lemma CountOne(keys: seq<int>, k: nat, i: nat, counts: seq<nat>)
    requires i < |keys| && 0 <= keys[i] < k && CountsUpTo(keys, k, i, counts)
    ensures CountsUpTo(keys, k, i + 1, counts[keys[i] := counts[keys[i]] + 1])
  {}

  /** The quad vector of a level and the sizes of its buckets, in one pass. */
  method EncodeLevel(sequence: seq<nat>, shift: nat) returns (qv: QVector, counts: seq<nat>)
    ensures qv.Valid() && Canonical(qv) && qv.Contents() == ShiftKeys(sequence, shift)
    ensures CountsOf(ShiftKeys(sequence, shift), 4, counts)
  {
    hide TwoBits, QVector.Valid, QVectorBuilder.Valid, QVectorBuilder.Contents, CountsUpTo;
    ghost var keys := ShiftKeys(sequence, shift);
    var curQv := new QVectorBuilder();
    counts := [0, 0, 0, 0];
    assert CountsUpTo(keys, 4, 0, counts) by { NoCounts(keys); }
    var i := 0;
    while i < |sequence|
      invariant 0 <= i <= |sequence| && fresh(curQv)
      invariant curQv.Valid() && curQv.Contents() == keys[..i]
      invariant CountsUpTo(keys, 4, i, counts)
    {
      var twoBits := TwoBits(sequence[i], shift);
      assert |counts| == 4 by { CountsShape(keys, 4, i, counts); }
      CountOne(keys, 4, i, counts);
      curQv.Push(twoBits);
      counts := counts[twoBits := counts[twoBits] + 1];
      i := i + 1;
    }
    AllCounted(keys, counts);
    qv := curQv.Build();
  }

  lemma NoCounts(keys: seq<int>)
    ensures CountsUpTo(keys, 4, 0, [0, 0, 0, 0])
  {}

  lemma CountsShape(keys: seq<int>, k: nat, i: nat, counts: seq<nat>)
    requires i <= |keys| && CountsUpTo(keys, k, i, counts)
    ensures |counts| == k
  {}

  lemma AllCounted(keys: seq<int>, counts: seq<nat>)
    requires CountsUpTo(keys, 4, |keys|, counts)
    ensures CountsOf(keys, 4, counts)
  {}

  // ---- The tree ----

  method MaxOf(s: seq<nat>) returns (m: nat)
    requires |s| > 0
    ensures MaxSymbol(s, m)
  {
    m := s[0];
    var i := 1;
    while i < |s|
      invariant 1 <= i <= |s| && m in s[..i]
      invariant forall j :: 0 <= j < i ==> s[j] <= m
    {
      if s[i] > m {
        m := s[i];
      }
      i := i + 1;
    }
  }

  /** A level as construction leaves it: right digits, and the counters of a full pass. */
  ghost predicate BuiltLevel(q: RSQVector, w: seq<Word>, l: nat, b: nat)
    requires BlockSize(b)
  {
    Rebuilt(q, b) && q.Contents() == LevelDigits(w, l) && Canonical(q.qv)
  }

  ghost predicate BuiltLevels(qvs: seq<RSQVector>, w: seq<Word>, b: nat)
    requires BlockSize(b)
  {
    forall l :: 0 <= l < |qvs| ==> BuiltLevel(qvs[l], w, l, b)
  }

  method OneLevel(sequence: seq<nat>, shift: nat, partitioned: array<nat>, ghost w: seq<Word>, ghost n: nat, ghost l: nat, b: nat)
    returns (q: RSQVector)
    requires BlockSize(b) && |sequence| == partitioned.Length < MAX_LEN
    requires l < n && shift == 2 * (n - 1 - l)
    requires Deep(w, 0) && AllQuaternary(w) && Uniform(w, n) && Rows(sequence, n) == Level(w, l)
    modifies partitioned
    ensures BuiltLevel(q, w, l, b)
    ensures l + 1 < n ==> Rows(partitioned[..], n) == Level(w, l + 1)
  {
    hide IsFinalSuperblocks, IsFinalSamples, Level, Rows, RSQVector.Valid, QVector.Valid, CountsOf, Partition;
    ShiftIsLevel(sequence, n, l);
    var qv, counts := EncodeLevel(sequence, shift);
    assert qv.Len() < MAX_LEN by { assert |qv.Contents()| == |sequence|; }
    q := FromQVector(qv, b);
    StablePartitionOf4Into(sequence, shift, counts, partitioned);
    NextBuffer(sequence, partitioned[..], w, n, l);
  }

  lemma FewLevels(sigma: nat)
    requires sigma < Pow4(32)
    ensures LevelsFor(sigma) <= 32
  {
    LevelsForSigma(sigma);
    if LevelsFor(sigma) > 32 {
      Pow4Monotone(32, LevelsFor(sigma) - 1);
    }
  }

  /** The default level of an empty tree. */
  method EmptyLevel(b: nat) returns (q: RSQVector)
    requires BlockSize(b)
    ensures q.Valid() && q.Contents() == [] && Default([q], b)
  {
    var curQv := new QVectorBuilder();
    var qv := curQv.Build();
    hide IsFinalSuperblocks, IsFinalSamples;
    assert |qv.Contents()| == 0;
    assert qv == QVector([], 0);
    q := FromQVector(qv, b);
  }

  /** The tree of a text: every query on it then answers as the text does. */
  method FromOwned(input: seq<nat>, b: nat) returns (t: QWaveletTree)
    requires BlockSize(b) && |input| < MAX_LEN && Below(input, Pow4(32))
    ensures t.Represents(input)
    ensures |input| == 0 ==> Default(t.qvs, b)
    ensures |input| > 0 ==>
      && MaxSymbol(input, t.sigma) && t.nLevels == LevelsFor(t.sigma) <= 32
      && BuiltLevels(t.qvs, Rows(input, t.nLevels), b)
  {
    hide Level, RSQVector.Valid, BuiltLevel, LevelsFor, Pow4, SymbolWord;
    if |input| == 0 {
      var default := EmptyLevel(b);
      return QWaveletTree(0, 0, 0, [default]);
    }
    var sigma := MaxOf(input);
    var nLevels := LevelsFor(sigma);
    LevelsForSigma(sigma);
    FewLevels(sigma);
    ghost var w := Rows(input, nLevels);
    RowsShape(input, nLevels);
    LevelZero(w);
    var shift := 2 * (nLevels - 1);
    var sequence, partitioned := new nat[|input|](i requires 0 <= i < |input| => input[i]), new nat[|input|](_ => 0);
    assert sequence[..] == input;
    var qvs: seq<RSQVector> := [];
    var level := 0;
    while level < nLevels
      invariant 0 <= level <= nLevels && |qvs| == level
      invariant fresh(sequence) && fresh(partitioned) && sequence != partitioned
      invariant sequence.Length == partitioned.Length == |input|
      invariant shift == if level < nLevels then 2 * (nLevels - 1 - level) else 0
      invariant level < nLevels ==> Rows(sequence[..], nLevels) == Level(w, level)
      invariant BuiltLevels(qvs, w, b)
    {
      var q := OneLevel(sequence[..], shift, partitioned, w, nLevels, level, b);
      qvs := qvs + [q];
      sequence, partitioned := partitioned, sequence;
      if shift >= 2 {
        shift := shift - 2;
      }
      level := level + 1;
    }
    t := QWaveletTree(sequence.Length, nLevels, sigma, qvs);
    BuiltIndexes(t, input, b);
  }

  lemma BuiltIndexes(t: QWaveletTree, s: seq<nat>, b: nat)
    requires BlockSize(b) && |s| == t.n > 0 && t.nLevels > 0 && |t.qvs| == t.nLevels <= MAX_QUAD_LEVELS
    requires Below(s, t.sigma + 1) && t.sigma < Pow4(t.nLevels)
    requires BuiltLevels(t.qvs, Rows(s, t.nLevels), b)
    ensures t.Represents(s)
  {
    hide Level, RSQVector.Valid, IsFinalSuperblocks, IsFinalSamples, SymbolWord, Pow4;
    RowsShape(s, t.nLevels);
    assert forall l :: 0 <= l < |t.qvs| ==> BuiltLevel(t.qvs[l], Rows(s, t.nLevels), l, b);
  }
}
