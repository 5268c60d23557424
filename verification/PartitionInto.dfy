/**
 The construction step: rows are written straight to their place in an output
 buffer, given the sizes of the buckets.
 */
module PartitionInto {
  import opened RankSelect
  import opened Arithmetic
  import opened StablePartition
  import opened CodeOrder
  import opened CraftCodes

  /** Two bits of every symbol, `shift` bits from the bottom. */
  ghost function ShiftKeys(s: seq<nat>, shift: nat): (r: seq<int>)
    ensures |r| == |s| && forall i :: 0 <= i < |s| ==> r[i] == TwoBits(s[i], shift)
  {
    seq(|s|, i requires 0 <= i < |s| => TwoBits(s[i], shift))
  }

  /** `(symbol >> shift) & 3`, for an even shift. */
  function TwoBits(symbol: nat, shift: nat): (r: nat)
    ensures r < 4
  {
    (symbol / Pow4(shift / 2)) % 4
  }

  /** Bucket of a symbol after `shift` bits of its code: its last digit, or 4 once the code has ended. */
  function CodeBucket(code: PrefixCode, shift: nat): (r: nat)
    ensures r < 5
  {
    if code.len <= shift then 4 else (code.content / Pow4((code.len - shift) / 2)) % 4
  }

  ghost predicate CodesCover(s: seq<nat>, codes: seq<PrefixCode>) {
    forall i :: 0 <= i < |s| ==> s[i] < |codes|
  }

  ghost function CodeKeys(s: seq<nat>, codes: seq<PrefixCode>, shift: nat): (r: seq<int>)
    requires CodesCover(s, codes)
    ensures |r| == |s| && forall i :: 0 <= i < |s| ==> r[i] == CodeBucket(codes[s[i]], shift)
  {
    seq(|s|, i requires 0 <= i < |s| => CodeBucket(codes[s[i]], shift))
  }

  /** Where each bucket continues after the first `i` rows. */
  ghost predicate PositionsAt(keys: seq<int>, k: nat, i: nat, positions: seq<nat>)
    requires i <= |keys|
  {
    |positions| == k && forall d: nat :: d < k ==> positions[d] == OccsBelow(keys, d) + Rank(keys, d, i)
  }

  /** The first `i` rows stand where the partition puts them. */
  ghost predicate Placed(s: seq<nat>, keys: seq<int>, k: nat, i: nat, output: seq<nat>)
    requires |s| == |keys| == |output| && i <= |s| && Bounded(keys, k)
  {
    forall j :: 0 <= j < i ==> Move(keys, j) < |output| && output[Move(keys, j)] == s[j]
  }

  lemma PlaceNext(s: seq<nat>, keys: seq<int>, k: nat, i: nat, output: seq<nat>, positions: seq<nat>)
    requires |s| == |keys| == |output| && i < |s| && Bounded(keys, k)
    requires PositionsAt(keys, k, i, positions) && Placed(s, keys, k, i, output)
    ensures |positions| == k && positions[keys[i]] < |output|
    ensures PositionsAt(keys, k, i + 1, positions[keys[i] := positions[keys[i]] + 1])
    ensures Placed(s, keys, k, i + 1, output[positions[keys[i]] := s[i]])
  {
    var d := keys[i];
    OccsBelowTotal(keys, k);
    MoveStep(s, keys, k, i);
    assert positions[d] == Move(keys, i);
    var next := output[positions[d] := s[i]];
    forall j | 0 <= j < i + 1
      ensures Move(keys, j) < |next| && next[Move(keys, j)] == s[j]
    {
      if j < i {
        MoveInjective(keys, j, i);
      }
    }
  }

  lemma AllPlaced(s: seq<nat>, keys: seq<int>, k: nat, output: seq<nat>)
    requires |s| == |keys| == |output| && Bounded(keys, k) && Placed(s, keys, k, |s|, output)
    ensures output == Partition(s, keys, k)
  {
    PartitionDetermined(s, keys, k, output);
  }

  /** `counts[d]` rows belong to bucket `d`. */
  ghost predicate CountsOf(keys: seq<int>, k: nat, counts: seq<nat>) {
    |counts| == k && forall d: nat :: d < k ==> counts[d] == Occs(keys, d)
  }

  method PlaceOne(sequence: seq<nat>, ghost keys: seq<int>, ghost k: nat, i: nat, bucket: nat, output: array<nat>, positions: seq<nat>)
    returns (next: seq<nat>)
    requires |sequence| == |keys| == output.Length && i < |sequence| && Bounded(keys, k) && bucket == keys[i]
    requires PositionsAt(keys, k, i, positions) && Placed(sequence, keys, k, i, output[..])
    modifies output
    ensures PositionsAt(keys, k, i + 1, next) && Placed(sequence, keys, k, i + 1, output[..])
  {
    hide PositionsAt, Placed;
    PlaceNext(sequence, keys, k, i, output[..], positions);
    output[positions[bucket]] := sequence[i];
    next := positions[bucket := positions[bucket] + 1];
  }

  method StablePartitionOf4Into(sequence: seq<nat>, shift: nat, counts: seq<nat>, output: array<nat>)
    requires |sequence| == output.Length
    requires CountsOf(ShiftKeys(sequence, shift), 4, counts)
    modifies output
    ensures output[..] == Partition(sequence, ShiftKeys(sequence, shift), 4)
  {
    ghost var keys := ShiftKeys(sequence, shift);
    var positions := [0, counts[0], counts[0] + counts[1], counts[0] + counts[1] + counts[2]];
    Starts4(sequence, keys, counts, output[..]);
    hide PositionsAt, Placed, TwoBits, Partition, CountsOf, OccsBelow, Occs, Rank, ShiftKeys;
    var i := 0;
    while i < |sequence|
      invariant 0 <= i <= |sequence|
      invariant PositionsAt(keys, 4, i, positions)
      invariant Placed(sequence, keys, 4, i, output[..])
    {
      positions := PlaceOne(sequence, keys, 4, i, TwoBits(sequence[i], shift), output, positions);
      i := i + 1;
    }
    AllPlaced(sequence, keys, 4, output[..]);
  }

  method StablePartitionOf4WithCodesInto(sequence: seq<nat>, shift: nat, codes: seq<PrefixCode>, counts: seq<nat>, output: array<nat>)
    requires |sequence| == output.Length && CodesCover(sequence, codes)
    requires CountsOf(CodeKeys(sequence, codes, shift), 5, counts)
    modifies output
    ensures output[..] == Partition(sequence, CodeKeys(sequence, codes, shift), 5)
  {
    ghost var keys := CodeKeys(sequence, codes, shift);
    var positions := [0, counts[0], counts[0] + counts[1], counts[0] + counts[1] + counts[2],
                      counts[0] + counts[1] + counts[2] + counts[3]];
    Starts5(sequence, keys, counts, output[..]);
    hide PositionsAt, Placed, CodeBucket, Partition, CountsOf, OccsBelow, Occs, Rank, CodeKeys;
    var i := 0;
    while i < |sequence|
      invariant 0 <= i <= |sequence|
      invariant PositionsAt(keys, 5, i, positions)
      invariant Placed(sequence, keys, 5, i, output[..])
    {
      positions := PlaceOne(sequence, keys, 5, i, CodeBucket(codes[sequence[i]], shift), output, positions);
      i := i + 1;
    }
    AllPlaced(sequence, keys, 5, output[..]);
  }

  lemma Starts4(s: seq<nat>, keys: seq<int>, counts: seq<nat>, output: seq<nat>)
    requires |s| == |keys| == |output| && Bounded(keys, 4) && CountsOf(keys, 4, counts)
    ensures PositionsAt(keys, 4, 0, [0, counts[0], counts[0] + counts[1], counts[0] + counts[1] + counts[2]])
    ensures Placed(s, keys, 4, 0, output)
  {
    FourStarts(keys);
  }

  lemma Starts5(s: seq<nat>, keys: seq<int>, counts: seq<nat>, output: seq<nat>)
    requires |s| == |keys| == |output| && Bounded(keys, 5) && CountsOf(keys, 5, counts)
    ensures PositionsAt(keys, 5, 0, [0, counts[0], counts[0] + counts[1], counts[0] + counts[1] + counts[2],
                                     counts[0] + counts[1] + counts[2] + counts[3]])
    ensures Placed(s, keys, 5, 0, output)
  {
    FourStarts(keys);
  }

  lemma FourStarts(keys: seq<int>)
    ensures OccsBelow(keys, 0) == 0
    ensures OccsBelow(keys, 1) == Occs(keys, 0)
    ensures OccsBelow(keys, 2) == Occs(keys, 0) + Occs(keys, 1)
    ensures OccsBelow(keys, 3) == Occs(keys, 0) + Occs(keys, 1) + Occs(keys, 2)
    ensures OccsBelow(keys, 4) == Occs(keys, 0) + Occs(keys, 1) + Occs(keys, 2) + Occs(keys, 3)
  {}
}
