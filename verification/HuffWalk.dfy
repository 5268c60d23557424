/**
 The worklist over populated prefixes: following the interval of each prefix
 once proves the same as decoding every row.
 */
module HuffWalk {
  import opened Wrappers
  import opened RankSelect
  import opened StablePartition
  import opened Arithmetic
  import opened Words
  import opened WaveletMatrix
  import opened CraftCodes
  import opened RankSupport
  import opened RSQVectors
  import opened LevelSteps
  import opened CodeTables
  import opened DecodeTables
  import opened QuadWavelet
  import opened HuffPaths
  import opened HuffWavelet
  import opened BuildHuffWavelet
  import opened HuffParts

  /** The rows of a level that begin with the digits read so far. */
  datatype Interval = Interval(level: nat, start: nat, end: nat, content: nat, codeLen: nat)

  /** An interval of the worklist and the prefix it stands for; 32 bits of it are kept. */
  ghost predicate Stands(ks: seq<seq<int>>, w: seq<Word>, it: Interval, p: Word)
    requires Levels(ks)
  {
    && Quaternary(p) && |p| == it.level && it.codeLen == 2 * it.level
    && it.start < it.end && Node(ks, w, p, it.start, it.end)
    && (|p| <= 16 ==> it.content == Value(p))
  }

  ghost predicate AllStand(ks: seq<seq<int>>, w: seq<Word>, pending: seq<Interval>, ps: seq<Word>)
    requires Levels(ks)
  {
    |pending| == |ps| && forall k :: 0 <= k < |ps| ==> Stands(ks, w, pending[k], ps[k])
  }

  /** Row `r` begins with `p`, goes on, and none of the digits so far complete a code. */
  ghost predicate Begun(decode: seq<seq<Entry>>, r: Word, p: Word) {
    p <= r && |p| < |r| && Unfinished(decode, r, |p|)
  }

  /** Every row decodes or still waits in the worklist. */
  ghost predicate Waiting(decode: seq<seq<Entry>>, w: seq<Word>, ps: seq<Word>) {
    forall i :: 0 <= i < |w| ==> RowDecodes(decode, w[i]) || exists k :: 0 <= k < |ps| && Begun(decode, w[i], ps[k])
  }

  // ---- One digit of one interval ----

  datatype Verdict = Absent | Finished | Goes(child: Interval) | Rejected

  /** What a verdict claims about the rows that begin with `p`. */
  ghost predicate Holds4(ks: seq<seq<int>>, decode: seq<seq<Entry>>, w: seq<Word>, p: Word, v: Verdict)
    requires Levels(ks)
  {
    match v
    case Absent => |WithPrefix(w, p)| == 0
    case Finished => IsLeaf(decode, p) && forall r :: r in WithPrefix(w, p) ==> r == p
    case Goes(child) => !IsLeaf(decode, p) && child.level == |p| < |ks| && Stands(ks, w, child, p)
    case Rejected => !RowsDecode(decode, w)
  }

  lemma RowAmong(w: seq<Word>, p: Word, j: nat) returns (i: nat)
    requires j < |WithPrefix(w, p)|
    ensures i < |w| && w[i] == WithPrefix(w, p)[j] && p <= w[i]
  {
    WithPrefixElements(w, p);
    var r := WithPrefix(w, p)[j];
    assert r in WithPrefix(w, p);
    i :| 0 <= i < |w| && w[i] == r;
  }

  /** A row that ends without an entry does not decode. */
  lemma EndsWithoutEntry(decode: seq<seq<Entry>>, w: seq<Word>, p: Word, j: nat)
    requires j < |WithPrefix(w, p)| && WithPrefix(w, p)[j] == p && !IsLeaf(decode, p)
    ensures !RowsDecode(decode, w)
  {
    var i := RowAmong(w, p, j);
    assert !RowDecodes(decode, w[i]);
  }

  /** Nor does one that goes on beyond an entry. */
  lemma GoesOnBeyondEntry(decode: seq<seq<Entry>>, w: seq<Word>, p: Word, j: nat)
    requires |p| > 0 && j < |WithPrefix(w, p)| && WithPrefix(w, p)[j] != p && IsLeaf(decode, p)
    ensures !RowsDecode(decode, w)
  {
    hide IsLeaf;
    var i := RowAmong(w, p, j);
    assert w[i][..|p|] == p;
    assert !RowDecodes(decode, w[i]);
  }

  /** The next digit of the 32-bit content. */
  lemma NextContent(encode: seq<PrefixCode>, decode: seq<seq<Entry>>, nLevels: nat, it: Interval, p: Word, d: nat)
    requires TablesAgree(encode, decode, nLevels) && Quaternary(p) && |p| == it.level && it.codeLen == 2 * it.level && d < 4
    requires |p| <= 16 ==> it.content == Value(p)
    ensures |p + [d]| <= 16 ==> ShiftIn32(it.content, d) == Value(p + [d])
    ensures HasEntry(decode, it.codeLen + 2, ShiftIn32(it.content, d)) <==> IsLeaf(decode, p + [d])
  {
    hide Decodes, HasEntry, ShiftIn32;
    var q := p + [d];
    assert q[..|p|] == p;
    if |p| <= 15 {
      ValueBound(p);
      Pow4Monotone(|p|, 15);
    } else {
      if HasEntry(decode, it.codeLen + 2, ShiftIn32(it.content, d)) {
        LeafIsShort(encode, decode, nLevels, it.codeLen + 2, ShiftIn32(it.content, d));
      }
      if IsLeaf(decode, q) {
        LeafIsShort(encode, decode, nLevels, 2 * |q|, Value(q));
      }
    }
  }

  /** Whether a bucket has the content; a missing bucket has none. */
  method HasDecode(decode: seq<seq<Entry>>, len: nat, content: nat) returns (found: bool)
    requires forall m :: 0 <= m < |decode| ==> Ascending(decode[m])
    ensures found <==> HasEntry(decode, len, content)
  {
    hide Ascending;
    if len >= |decode| {
      return false;
    }
    var index := Search(decode[len], content);
    return index.Some?;
  }

  /** One digit: absent, the end of a code, or an interval of the next level. */
  method CheckDigit(ghost ks: seq<seq<int>>, ghost n: nat, ghost encode: seq<PrefixCode>, decode: seq<seq<Entry>>, lens: seq<nat>,
                    it: Interval, ghost p: Word, digit: nat, offset: nat, rankStart: nat, rankEnd: nat) returns (v: Verdict)
    requires Levels(ks) && |ks| == |lens| && (forall l :: 0 <= l < |ks| ==> lens[l] == |ks[l]|) && |ks| > 0 && n == lens[0]
    requires TablesAgree(encode, decode, |ks|)
    requires Stands(ks, PathRows(ks, n), it, p) && digit < 4
    requires offset == OccsBelow(ks[it.level], digit)
    requires rankStart == Rank(ks[it.level], digit, it.start) && rankEnd == Rank(ks[it.level], digit, it.end)
    ensures Holds4(ks, decode, PathRows(ks, n), p + [digit], v)
  {
    hide Node, WithPrefix, IsLeaf, RowsDecode, HasEntry, Decodes, ShiftIn32, PathRows, Rank, OccsBelow;
    ghost var w, q := PathRows(ks, n), p + [digit];
    ghost var f := WithPrefix(w, q);
    PathRowsShape(ks, n);
    ChildInterval(ks, w, p, digit, it.start, it.end);
    if rankStart == rankEnd {
      return Absent;
    }
    var childContent := ShiftIn32(it.content, digit);
    var childCodeLen := it.codeLen + 2;
    NextContent(encode, decode, |ks|, it, p, digit);
    AllAscending(encode, decode, |ks|);
    var hasDecode := HasDecode(decode, childCodeLen, childContent);
    var childStart, childEnd := offset + rankStart, offset + rankEnd;
    EndsWhere(ks, w, p, digit, it.start, it.end);
    var child := Interval(it.level + 1, childStart, childEnd, childContent, childCodeLen);
    ChildStands(ks, w, it, p, digit, child);
    v := Decide(ks, w, decode, q, child, lens, hasDecode);
  }

  lemma ChildStands(ks: seq<seq<int>>, w: seq<Word>, it: Interval, p: Word, d: nat, child: Interval)
    requires Levels(ks) && AllQuaternary(w) && Stands(ks, w, it, p) && d < 4
    requires child.level == it.level + 1 && child.codeLen == it.codeLen + 2
    requires child.start == Child(ks[it.level], d, it.start) < child.end == Child(ks[it.level], d, it.end)
    requires |p + [d]| <= 16 ==> child.content == Value(p + [d])
    ensures child.level < |ks| && child.end <= |ks[child.level]| ==> Stands(ks, w, child, p + [d])
  {
    hide Node, WithPrefix, Child, Value;
    if child.level < |ks| && child.end <= |ks[child.level]| {
      ChildNode(ks, w, p, d, it.start, it.end);
    }
  }

  /** Where the child interval lies decides whether the digits so far must be a code. */
  method Decide(ghost ks: seq<seq<int>>, ghost w: seq<Word>, ghost decode: seq<seq<Entry>>, ghost q: Word, child: Interval, lens: seq<nat>,
                hasDecode: bool) returns (v: Verdict)
    requires Levels(ks) && |ks| == |lens| && (forall l :: 0 <= l < |ks| ==> lens[l] == |ks[l]|)
    requires |q| == child.level > 0 && |WithPrefix(w, q)| == child.end - child.start > 0 && (hasDecode <==> IsLeaf(decode, q))
    requires forall j :: 0 <= j < |WithPrefix(w, q)| ==> (WithPrefix(w, q)[j] == q <==> !Inside(ks, |q|, child.start + j))
    requires child.level < |ks| && child.end <= |ks[child.level]| ==> Stands(ks, w, child, q)
    ensures Holds4(ks, decode, w, q, v)
  {
    hide Stands, WithPrefix, IsLeaf, RowsDecode;
    ghost var f := WithPrefix(w, q);
    if child.level >= |lens| {
      if !hasDecode {
        EndsWithoutEntry(decode, w, q, 0);
        return Rejected;
      }
      AllEnd(f, q);
      return Finished;
    }
    var nextLevelLen := lens[child.level];
    if child.end <= nextLevelLen {
      if hasDecode {
        GoesOnBeyondEntry(decode, w, q, 0);
        return Rejected;
      }
      return Goes(child);
    } else if child.start >= nextLevelLen {
      if !hasDecode {
        EndsWithoutEntry(decode, w, q, 0);
        return Rejected;
      }
      AllEnd(f, q);
      return Finished;
    } else {
      if hasDecode {
        GoesOnBeyondEntry(decode, w, q, 0);
      } else {
        EndsWithoutEntry(decode, w, q, |f| - 1);
      }
      return Rejected;
    }
  }

  lemma AllAscending(encode: seq<PrefixCode>, decode: seq<seq<Entry>>, nLevels: nat)
    requires TablesAgree(encode, decode, nLevels)
    ensures forall m :: 0 <= m < |decode| ==> Ascending(decode[m])
  {
    hide Ascending, BucketOf;
    forall m: nat | m < |decode|
      ensures Ascending(decode[m])
    {}
  }

  /** Which rows of a child interval end with the digit. */
  lemma EndsWhere(ks: seq<seq<int>>, w: seq<Word>, p: Word, d: nat, a: nat, e: nat)
    requires Levels(ks) && Node(ks, w, p, a, e) && AllQuaternary(w) && Quaternary(p) && d < 4
    ensures forall j :: 0 <= j < |WithPrefix(w, p + [d])| ==>
      (WithPrefix(w, p + [d])[j] == p + [d] <==> !Inside(ks, |p| + 1, Child(ks[|p|], d, a) + j))
  {
    hide WithPrefix, Child, Inside;
    forall j: nat | j < |WithPrefix(w, p + [d])|
      ensures WithPrefix(w, p + [d])[j] == p + [d] <==> !Inside(ks, |p| + 1, Child(ks[|p|], d, a) + j)
    {
      ChildEnds(ks, w, p, d, a, e, j);
    }
  }

  lemma AllEnd(f: seq<Word>, q: Word)
    requires forall j :: 0 <= j < |f| ==> f[j] == q
    ensures forall r :: r in f ==> r == q
  {}

  // ---- One interval ----

  /** All four digits of an interval. */
  ghost predicate Expanded(ks: seq<seq<int>>, decode: seq<seq<Entry>>, w: seq<Word>, p: Word, upTo: nat, children: seq<Interval>, cps: seq<Word>)
    requires Levels(ks)
  {
    && AllStand(ks, w, children, cps) && |children| <= upTo
    && (forall k :: 0 <= k < |children| ==> children[k].level == |p| + 1 < |ks|)
    && forall d: nat :: d < upTo ==> Settled(decode, w, p + [d], cps)
  }

  ghost predicate Settled(decode: seq<seq<Entry>>, w: seq<Word>, q: Word, cps: seq<Word>) {
    || |WithPrefix(w, q)| == 0
    || (IsLeaf(decode, q) && forall r :: r in WithPrefix(w, q) ==> r == q)
    || (!IsLeaf(decode, q) && q in cps)
  }

  method Expand(ghost ks: seq<seq<int>>, ghost n: nat, ghost encode: seq<PrefixCode>, decode: seq<seq<Entry>>, level: RSQVector, lens: seq<nat>,
                it: Interval, ghost p: Word) returns (ok: bool, children: seq<Interval>, ghost cps: seq<Word>)
    requires Levels(ks) && |ks| == |lens| && (forall l :: 0 <= l < |ks| ==> lens[l] == |ks[l]|) && |ks| > 0 && n == lens[0]
    requires TablesAgree(encode, decode, |ks|)
    requires Stands(ks, PathRows(ks, n), it, p) && level.Valid() && level.Contents() == ks[it.level]
    ensures !ok ==> !RowsDecode(decode, PathRows(ks, n))
    ensures ok ==> Expanded(ks, decode, PathRows(ks, n), p, 4, children, cps)
  {
    hide Node, WithPrefix, IsLeaf, RowsDecode, TablesAgree, RSQVector.Valid, RSQVector.Contents, Rank, OccsBelow, Settled, PathRows;
    ghost var w := PathRows(ks, n);
    assert it.start < it.end <= |ks[it.level]| by { IntervalInside(ks, w, it, p); }
    var ranksStart := level.RankAllUnchecked(it.start);
    var ranksEnd := level.RankAllUnchecked(it.end);
    children, cps := [], [];
    var digit := 0;
    while digit < 4
      invariant 0 <= digit <= 4
      invariant Expanded(ks, decode, w, p, digit, children, cps)
    {
      var offset := level.OccsSmallerUnchecked(digit);
      var v := CheckDigit(ks, n, encode, decode, lens, it, p, digit, offset, ranksStart[digit], ranksEnd[digit]);
      OneMore(ks, decode, w, p, digit, children, cps, v);
      match v {
        case Rejected => return false, children, cps;
        case Goes(child) =>
          children := children + [child];
          cps := cps + [p + [digit]];
        case Absent =>
        case Finished =>
      }
      digit := digit + 1;
    }
    return true, children, cps;
  }

  lemma IntervalInside(ks: seq<seq<int>>, w: seq<Word>, it: Interval, p: Word)
    requires Levels(ks) && Stands(ks, w, it, p)
    ensures it.level < |ks| && it.start < it.end <= |ks[it.level]|
  {}

  lemma OneMore(ks: seq<seq<int>>, decode: seq<seq<Entry>>, w: seq<Word>, p: Word, d: nat, children: seq<Interval>, cps: seq<Word>, v: Verdict)
    requires Levels(ks) && Expanded(ks, decode, w, p, d, children, cps) && Holds4(ks, decode, w, p + [d], v)
    ensures match v
      case Rejected => !RowsDecode(decode, w)
      case Goes(child) => Expanded(ks, decode, w, p, d + 1, children + [child], cps + [p + [d]])
      case _ => Expanded(ks, decode, w, p, d + 1, children, cps)
  {
    hide Stands, IsLeaf, RowsDecode, WithPrefix, Settled, Expanded;
    if v.Goes? {
      OneChildMore(ks, decode, w, p, d, children, cps, v.child);
    } else if !v.Rejected? {
      assert Settled(decode, w, p + [d], cps) by { NothingLeft(decode, w, p + [d], cps); }
      DigitSettled(ks, decode, w, p, d, children, cps);
    }
  }

  lemma NothingLeft(decode: seq<seq<Entry>>, w: seq<Word>, q: Word, cps: seq<Word>)
    requires |WithPrefix(w, q)| == 0 || (IsLeaf(decode, q) && forall r :: r in WithPrefix(w, q) ==> r == q)
    ensures Settled(decode, w, q, cps)
  {}

  lemma DigitSettled(ks: seq<seq<int>>, decode: seq<seq<Entry>>, w: seq<Word>, p: Word, d: nat, children: seq<Interval>, cps: seq<Word>)
    requires Levels(ks) && Expanded(ks, decode, w, p, d, children, cps) && Settled(decode, w, p + [d], cps)
    ensures Expanded(ks, decode, w, p, d + 1, children, cps)
  {
    hide Stands, Settled, AllStand;
    forall e: nat | e < d + 1
      ensures Settled(decode, w, p + [e], cps)
    {
      assert e < d || e == d;
    }
  }

  lemma OneChildMore(ks: seq<seq<int>>, decode: seq<seq<Entry>>, w: seq<Word>, p: Word, d: nat, children: seq<Interval>, cps: seq<Word>, child: Interval)
    requires Levels(ks) && Expanded(ks, decode, w, p, d, children, cps)
    requires !IsLeaf(decode, p + [d]) && child.level == |p + [d]| < |ks| && Stands(ks, w, child, p + [d])
    ensures Expanded(ks, decode, w, p, d + 1, children + [child], cps + [p + [d]])
  {
    hide Stands, IsLeaf, WithPrefix;
    var next := cps + [p + [d]];
    assert next[|cps|] == p + [d];
    forall e: nat | e < d + 1
      ensures Settled(decode, w, p + [e], next)
    {
      if e < d {
        assert Settled(decode, w, p + [e], cps);
      }
    }
  }

  // ---- The worklist ----

  /** A row that waits for `p` decodes or waits for one of the longer prefixes. */
  lemma RowMovesOn(ks: seq<seq<int>>, decode: seq<seq<Entry>>, w: seq<Word>, p: Word, children: seq<Interval>, cps: seq<Word>, i: nat)
    requires Levels(ks) && AllQuaternary(w) && Expanded(ks, decode, w, p, 4, children, cps)
    requires i < |w| && Begun(decode, w[i], p)
    ensures RowDecodes(decode, w[i]) || exists k :: 0 <= k < |cps| && Begun(decode, w[i], cps[k])
  {
    hide IsLeaf, WithPrefix, Node;
    var r := w[i];
    var d := r[|p|];
    assert Quaternary(r);
    var q := p + [d];
    assert r[..|p| + 1] == q;
    WithPrefixElements(w, q);
    assert r in WithPrefix(w, q);
    assert Settled(decode, w, q, cps);
    if r != q {
      assert q in cps;
      var k :| 0 <= k < |cps| && cps[k] == q;
      assert Unfinished(decode, r, |q|);
      assert |q| < |r|;
      assert Begun(decode, r, cps[k]);
    } else {
      if q in cps {
        var k :| 0 <= k < |cps| && cps[k] == q;
        StandsGoesOn(ks, w, children[k], q, r);
      }
      assert RowDecodes(decode, r);
    }
  }

  /** The rows of an interval of the worklist all go on. */
  lemma StandsGoesOn(ks: seq<seq<int>>, w: seq<Word>, it: Interval, q: Word, r: Word)
    requires Levels(ks) && Stands(ks, w, it, q) && r in WithPrefix(w, q)
    ensures |r| > |q|
  {
    var f := WithPrefix(w, q);
    var j :| 0 <= j < |f| && f[j] == r;
    assert f[it.start + j - it.start][|q|..] == PathWord(ks, |q|, it.start + j);
  }

  lemma AllMoveOn(ks: seq<seq<int>>, decode: seq<seq<Entry>>, w: seq<Word>, ps: seq<Word>, p: Word, children: seq<Interval>, cps: seq<Word>)
    requires Levels(ks) && AllQuaternary(w) && Expanded(ks, decode, w, p, 4, children, cps) && Waiting(decode, w, ps + [p])
    ensures Waiting(decode, w, ps + cps)
  {
    hide Expanded, Begun, RowDecodes;
    forall i | 0 <= i < |w|
      ensures RowDecodes(decode, w[i]) || exists k :: 0 <= k < |ps + cps| && Begun(decode, w[i], (ps + cps)[k])
    {
      if !RowDecodes(decode, w[i]) {
        var all := ps + [p];
        var k :| 0 <= k < |all| && Begun(decode, w[i], all[k]);
        if k < |ps| {
          assert (ps + cps)[k] == all[k];
        } else {
          RowMovesOn(ks, decode, w, p, children, cps, i);
          var m :| 0 <= m < |cps| && Begun(decode, w[i], cps[m]);
          assert (ps + cps)[|ps| + m] == cps[m];
        }
      }
    }
  }

  /** Size of a complete four-way tree: a bound on the intervals still to come from one. */
  ghost function TreeSize(h: nat): (r: nat)
    ensures r > 0
  {
    if h == 0 then 1 else 4 * TreeSize(h - 1) + 1
  }

  ghost function Work(pending: seq<Interval>, depth: nat): nat {
    if |pending| == 0 then 0
    else Work(pending[..|pending| - 1], depth) + TreeSize(if pending[|pending| - 1].level < depth then depth - pending[|pending| - 1].level else 0)
  }

  lemma {:induction false} WorkConcat(a: seq<Interval>, b: seq<Interval>, depth: nat)
    ensures Work(a + b, depth) == Work(a, depth) + Work(b, depth)
  {
    if |b| == 0 {
      assert a + b == a;
    } else {
      var m := |b| - 1;
      WorkConcat(a, b[..m], depth);
      assert (a + b)[..|a + b| - 1] == a + b[..m];
    }
  }

  lemma {:induction false} WorkOfChildren(children: seq<Interval>, depth: nat, l: nat)
    requires l < depth && forall k :: 0 <= k < |children| ==> children[k].level == l + 1
    ensures Work(children, depth) == TreeSize(depth - l - 1) * |children|
  {
    if |children| > 0 {
      WorkOfChildren(children[..|children| - 1], depth, l);
    }
  }

  lemma WorkOfOne(it: Interval, depth: nat)
    requires it.level < depth
    ensures Work([it], depth) == 4 * TreeSize(depth - it.level - 1) + 1
  {
    assert Work([], depth) == 0;
  }

  lemma LessWork(rest: seq<Interval>, it: Interval, children: seq<Interval>, depth: nat)
    requires it.level < depth && |children| <= 4 && forall k :: 0 <= k < |children| ==> children[k].level == it.level + 1
    ensures Work(rest + children, depth) < Work(rest + [it], depth)
  {
    WorkConcat(rest, children, depth);
    WorkConcat(rest, [it], depth);
    WorkOfChildren(children, depth, it.level);
    WorkOfOne(it, depth);
    hide Work, TreeSize;
    MulMonotone(TreeSize(depth - it.level - 1), |children|, 4);
  }

  /** Follows every populated prefix, the most recent first. */
  method WalkPrefixes(n: nat, ghost encode: seq<PrefixCode>, decode: seq<seq<Entry>>, qvs: seq<RSQVector>, lens: seq<nat>) returns (ok: bool)
    requires AllLevelsValid(qvs) && LengthsMatch(|qvs|, qvs, lens) && |qvs| > 0 && lens[0] == n > 0
    requires TablesAgree(encode, decode, |qvs|)
    ensures ok <==> RowsDecode(decode, PathRows(ContentsOf(qvs), n))
  {
    hide Node, RSQVector.Valid, RSQVector.Contents, TablesAgree, RowsDecode, PathRows, Waiting, AllStand, Stands, Expanded, Work;
    ghost var ks := ContentsOf(qvs);
    ghost var w := PathRows(ks, n);
    PathRowsShape(ks, n);
    var pending := [Interval(0, 0, n, 0, 0)];
    ghost var ps: seq<Word> := [[]];
    FirstInterval(ks, n, decode);
    while |pending| > 0
      invariant AllStand(ks, w, pending, ps) && Waiting(decode, w, ps)
      decreases Work(pending, |qvs|)
    {
      var last := |pending| - 1;
      var it := pending[last];
      ghost var p, rest := LastStands(ks, w, pending, ps);
      IntervalLevel(ks, w, it, p);
      var ok', children, cps := Expand(ks, n, encode, decode, qvs[it.level], lens, it, p);
      if !ok' {
        return false;
      }
      AllMoveOn(ks, decode, w, rest, p, children, cps);
      MoreStand(ks, decode, w, pending[..last], rest, p, children, cps);
      assert pending == pending[..last] + [it];
      LessWork(pending[..last], it, children, |qvs|);
      pending := pending[..last] + children;
      ps := rest + cps;
    }
    NoneWaits(ks, decode, w, pending, ps);
    return true;
  }

  lemma FirstInterval(ks: seq<seq<int>>, n: nat, decode: seq<seq<Entry>>)
    requires Levels(ks) && |ks| > 0 && 0 < n <= |ks[0]|
    ensures AllStand(ks, PathRows(ks, n), [Interval(0, 0, n, 0, 0)], [[]]) && Waiting(decode, PathRows(ks, n), [[]])
  {
    hide Node;
    var w, ps: seq<Word> := PathRows(ks, n), [[]];
    RootNode(ks, n);
    PathRowsShape(ks, n);
    forall i | 0 <= i < |w|
      ensures Begun(decode, w[i], ps[0])
    {}
  }

  lemma LastStands(ks: seq<seq<int>>, w: seq<Word>, pending: seq<Interval>, ps: seq<Word>) returns (p: Word, rest: seq<Word>)
    requires Levels(ks) && AllStand(ks, w, pending, ps) && |pending| > 0
    ensures ps == rest + [p] && Stands(ks, w, pending[|pending| - 1], p)
    ensures AllStand(ks, w, pending[..|pending| - 1], rest)
  {
    hide Stands;
    p, rest := ps[|ps| - 1], ps[..|ps| - 1];
  }

  lemma IntervalLevel(ks: seq<seq<int>>, w: seq<Word>, it: Interval, p: Word)
    requires Levels(ks) && Stands(ks, w, it, p)
    ensures it.level < |ks| && |p| == it.level
  {}

  lemma MoreStand(ks: seq<seq<int>>, decode: seq<seq<Entry>>, w: seq<Word>, pending: seq<Interval>, ps: seq<Word>, p: Word,
                  children: seq<Interval>, cps: seq<Word>)
    requires Levels(ks) && AllStand(ks, w, pending, ps) && Expanded(ks, decode, w, p, 4, children, cps)
    ensures AllStand(ks, w, pending + children, ps + cps)
    ensures |children| <= 4 && forall k :: 0 <= k < |children| ==> children[k].level == |p| + 1 < |ks|
  {
    hide Stands, Settled;
    var all, qs := pending + children, ps + cps;
    forall k | 0 <= k < |qs|
      ensures Stands(ks, w, all[k], qs[k])
    {
      if k < |ps| {
        assert all[k] == pending[k] && qs[k] == ps[k];
      } else {
        assert all[k] == children[k - |ps|] && qs[k] == cps[k - |ps|];
      }
    }
  }

  lemma NoneWaits(ks: seq<seq<int>>, decode: seq<seq<Entry>>, w: seq<Word>, pending: seq<Interval>, ps: seq<Word>)
    requires Levels(ks) && AllStand(ks, w, pending, ps) && Waiting(decode, w, ps) && |pending| == 0
    ensures RowsDecode(decode, w)
  {
    hide RowDecodes, Begun, Stands;
  }
}
