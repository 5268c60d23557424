/** The quad vector with rank and select: block support plus a look inside the block. */
module RSQVectors {
  import opened Wrappers
  import opened RankSelect
  import opened Arithmetic
  import opened StablePartition
  import opened CraftCodes
  import opened Bits
  import opened QuadVector
  import opened Superblock
  import opened RankSupport
  import opened BuildSupport
  import opened IntraBlock
  import opened WaveletMatrix

  datatype RSQVector = RSQVector(qv: QVector, rsSupport: RSSupportPlain, nOccsSmaller: seq<nat>) {
    ghost predicate Valid() {
      && qv.Valid()
      && rsSupport.Supports(qv.Contents())
      && |nOccsSmaller| == 5
      && forall d: nat :: d <= 4 ==> nOccsSmaller[d] == OccsBelow(qv.Contents(), d)
    }

    ghost function Contents(): (r: seq<int>)
      requires Valid()
      ensures |r| == Len() && Bounded(r, 4)
    {
      qv.Contents()
    }

    function Len(): nat {
      qv.Len()
    }

    function Get(i: nat): (r: Option<int>)
      requires Valid()
      ensures r == if i < Len() then Some(Contents()[i]) else None
    {
      qv.Get(i)
    }

    function GetUnchecked(i: nat): (r: nat)
      requires Valid() && i < Len()
      ensures r < 4 && r == Contents()[i]
    {
      qv.GetUnchecked(i)
    }

    // ---- Rank ----

    method RankUnchecked(symbol: nat, i: nat) returns (r: nat)
      requires Valid() && symbol < 4 && i <= Len()
      ensures r == Rank(Contents(), symbol, i)
    {
      var intra := RankIntraBlock(qv, rsSupport.b, symbol, i);
      r := rsSupport.RankBlock(qv.Contents(), symbol, i) + intra;
    }

    /** Ranks of all four symbols with shared loads. */
    method RankAllUnchecked(i: nat) returns (r: seq<nat>)
      requires Valid() && i <= Len()
      ensures |r| == 4 && forall symbol: nat :: symbol < 4 ==> r[symbol] == Rank(Contents(), symbol, i)
    {
      ghost var q := qv.Contents();
      var blockRanks := [rsSupport.RankBlock(q, 0, i), rsSupport.RankBlock(q, 1, i),
                         rsSupport.RankBlock(q, 2, i), rsSupport.RankBlock(q, 3, i)];
      var intra := RankIntraBlockAll(qv, rsSupport.b, i);
      r := [blockRanks[0] + intra[0], blockRanks[1] + intra[1], blockRanks[2] + intra[2], blockRanks[3] + intra[3]];
    }

    method RankOf(symbol: nat, i: nat) returns (r: Option<nat>)
      requires Valid()
      ensures r == if symbol > 3 || i > Len() then None else Some(Rank(Contents(), symbol, i))
    {
      if symbol > 3 || i > Len() {
        return None;
      }
      var rank := RankUnchecked(symbol, i);
      return Some(rank);
    }

    // ---- Counts ----

    function OccsUnchecked(symbol: nat): (r: nat)
      requires Valid() && symbol < 4
      ensures r == Occs(Contents(), symbol)
    {
      assert OccsBelow(qv.Contents(), symbol + 1) == OccsBelow(qv.Contents(), symbol) + Occs(qv.Contents(), symbol);
      nOccsSmaller[symbol + 1] - nOccsSmaller[symbol]
    }

    function OccsSmallerUnchecked(symbol: nat): (r: nat)
      requires Valid() && symbol < 4
      ensures r == OccsBelow(Contents(), symbol)
    {
      nOccsSmaller[symbol]
    }

    /** Where a wavelet matrix continues after following `symbol` from position `i`. */
    method ChildOf(symbol: nat, i: nat) returns (r: nat)
      requires Valid() && symbol < 4 && i <= Len()
      ensures r == Child(Contents(), symbol, i)
    {
      var offset := OccsSmallerUnchecked(symbol);
      var rank := RankUnchecked(symbol, i);
      r := rank + offset;
    }

    // ---- Select ----

    /** Position of occurrence `i` of `symbol`, or nothing when there are not that many. */
    method Select(symbol: nat, i: nat) returns (r: Option<nat>)
      requires Valid()
      ensures symbol > 3 ==> r == None
      ensures symbol <= 3 ==> SelectSpec(Contents(), symbol, i, r)
    {
      if symbol > 3 {
        return None;
      }
      if OccsUnchecked(symbol) <= i {
        return None;
      }
      hide Rank, RSSupportPlain.Supports;
      ghost var p := SelectWitness(Contents(), symbol, i, Len());
      var pos, rank := rsSupport.SelectBlock(qv.Contents(), symbol, i + 1, p);
      RankMonotone(Contents(), symbol, pos, p);
      var offset := SelectIntraBlock(qv, rsSupport.b, symbol, i - rank + 1, pos, p);
      return Some(pos + offset);
    }
  }

  /** A level with freshly built support. */
  ghost predicate Rebuilt(v: RSQVector, b: nat)
    requires BlockSize(b)
  {
    && v.Valid() && v.rsSupport.b == b
    && IsFinalSuperblocks(v.Contents(), b, v.rsSupport.superblocks) && IsFinalSamples(v.Contents(), b, v.rsSupport.selectSamples)
  }

  /** The one level that an empty tree comes with. */
  ghost predicate Default(qvs: seq<RSQVector>, b: nat)
    requires BlockSize(b)
  {
    |qvs| == 1 && Rebuilt(qvs[0], b) && qvs[0].qv == QVector([], 0)
  }

  ghost predicate AllLevelsValid(qvs: seq<RSQVector>) {
    forall l :: 0 <= l < |qvs| ==> qvs[l].Valid()
  }

  ghost function ContentsOf(qvs: seq<RSQVector>): (ks: seq<seq<int>>)
    requires AllLevelsValid(qvs)
    ensures |ks| == |qvs| && forall l :: 0 <= l < |qvs| ==> ks[l] == qvs[l].Contents() && Bounded(ks[l], 4)
  {
    seq(|qvs|, l requires 0 <= l < |qvs| => qvs[l].Contents())
  }

  /** Counts the symbols, then turns the counts into exclusive prefix sums in place. */
  method FromQVector(qv: QVector, b: nat) returns (r: RSQVector)
    requires qv.Valid() && BlockSize(b) && qv.Len() < MAX_LEN
    ensures r.Valid() && r.qv == qv && r.rsSupport.b == b && r.Contents() == qv.Contents()
    ensures IsFinalSuperblocks(qv.Contents(), b, r.rsSupport.superblocks)
    ensures IsFinalSamples(qv.Contents(), b, r.rsSupport.selectSamples)
  {
    var rankSupport := NewSupport(qv, b);
    hide IsFinalSuperblocks, IsFinalSamples, SuperblocksOk, SamplesOk;
    ghost var q := qv.Contents();
    var n: seq<nat> := [0, 0, 0, 0, 0];
    var c := 0;
    while c < qv.Len()
      invariant 0 <= c <= qv.Len() && |n| == 5
      invariant forall s: nat :: s < 4 ==> n[s] == Rank(q, s, c)
      invariant n[4] == 0
    {
      var symbol := qv.GetUnchecked(c);
      n := n[symbol := n[symbol] + 1];
      c := c + 1;
    }
    var prev := n[0];
    n := n[0 := 0];
    var i := 1;
    while i < 5
      invariant 1 <= i <= 5 && |n| == 5
      invariant forall d: nat :: d < i ==> n[d] == OccsBelow(q, d)
      invariant prev == Occs(q, i - 1) || i == 5
      invariant forall s: nat :: i <= s < 4 ==> n[s] == Occs(q, s)
    {
      var tmp := n[i];
      n := n[i := n[i - 1] + prev];
      prev := tmp;
      i := i + 1;
    }
    r := RSQVector(qv, rankSupport, n);
  }
}
