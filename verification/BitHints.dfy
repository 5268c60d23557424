/**
 What both bit-vector directories share: counts at the ends of units of equal
 size, eight units to a block, and samples that bracket the block of a select.
 */
module BitHints {
  import opened RankSelect
  import opened Arithmetic
  import opened BitLines

  /** Ones in the first `k` units of `u` bits. */
  ghost function OnesTo(s: seq<bool>, u: nat, k: nat): (r: nat)
    ensures r <= k * u
  {
    if k * u <= |s| then Rank(s, true, k * u) else Rank(s, true, |s|)
  }

  /** Occurrences of `v` in the first `k` units; units behind the end count as zeros. */
  ghost function CountTo(s: seq<bool>, u: nat, v: bool, k: nat): nat {
    if v then OnesTo(s, u, k) else k * u - OnesTo(s, u, k)
  }

  lemma OnesToStep(s: seq<bool>, u: nat, k: nat)
    ensures (k + 1) * u == k * u + u
    ensures OnesTo(s, u, k) <= OnesTo(s, u, k + 1) <= OnesTo(s, u, k) + u
  {
    assert (k + 1) * u == k * u + u;
    if (k + 1) * u <= |s| {
      RankMonotone(s, true, k * u, (k + 1) * u);
    } else if k * u <= |s| {
      RankMonotone(s, true, k * u, |s|);
    }
  }

  lemma {:induction false} CountToMonotone(s: seq<bool>, u: nat, v: bool, j: nat, k: nat)
    requires j <= k
    ensures CountTo(s, u, v, j) <= CountTo(s, u, v, k)
  {
    hide OnesTo;
    if j < k {
      CountToMonotone(s, u, v, j, k - 1);
      OnesToStep(s, u, k - 1);
    }
  }

  lemma CountToStep(s: seq<bool>, u: nat, v: bool, k: nat)
    ensures CountTo(s, u, v, k) <= CountTo(s, u, v, k + 1) <= CountTo(s, u, v, k) + u
  {
    hide OnesTo;
    OnesToStep(s, u, k);
  }

  /** Inside the sequence a count is a rank. */
  lemma CountIsRank(s: seq<bool>, u: nat, v: bool, k: nat)
    requires k * u <= |s|
    ensures CountTo(s, u, v, k) == Rank(s, v, k * u)
  {
    if !v {
      NotRank(s, k * u);
    }
  }

  // ---- Samples ----

  /** Sample `h`: the block in which occurrence number `h * hint` is reached. */
  ghost predicate SampleOk(s: seq<bool>, u: nat, v: bool, hint: nat, h: nat, block: nat) {
    if h == 0 then block == 0
    else CountTo(s, u, v, 8 * block) < h * hint <= CountTo(s, u, v, 8 * (block + 1))
  }

  /** The samples so far, after `k` units. */
  ghost predicate SamplesTo(s: seq<bool>, u: nat, v: bool, hint: nat, k: nat, samples: seq<nat>)
    requires hint > 0
  {
    && |samples| == CountTo(s, u, v, k) / hint + 1
    && forall h :: 0 <= h < |samples| ==> SampleOk(s, u, v, hint, h, samples[h])
  }

  /** All samples: those of the units, and a guard for the last block. */
  ghost predicate Samples(s: seq<bool>, u: nat, v: bool, hint: nat, units: nat, blocks: nat, samples: seq<nat>)
    requires hint > 0
  {
    && |samples| > 0 && samples[|samples| - 1] == blocks - 1
    && SamplesTo(s, u, v, hint, units, samples[..|samples| - 1])
  }

  lemma FirstSample(s: seq<bool>, u: nat, v: bool, hint: nat)
    requires hint > 0
    ensures SamplesTo(s, u, v, hint, 0, [0])
  {
    assert CountTo(s, u, v, 0) == 0;
    ModUnique(0, hint, 0, 0);
  }

  /** One more unit reaches at most one more threshold. */
  lemma NextSample(s: seq<bool>, u: nat, v: bool, hint: nat, k: nat, samples: seq<nat>)
    requires u <= hint && hint > 0 && SamplesTo(s, u, v, hint, k, samples)
    ensures var n := CountTo(s, u, v, k + 1) / hint;
      if n > |samples| - 1 then SamplesTo(s, u, v, hint, k + 1, samples + [k / 8]) else SamplesTo(s, u, v, hint, k + 1, samples)
  {
    hide CountTo;
    CountToStep(s, u, v, k);
    var c, d := CountTo(s, u, v, k), CountTo(s, u, v, k + 1);
    AtMostNext(c, d, hint);
    if d / hint > |samples| - 1 {
      var h := |samples|;
      CountToMonotone(s, u, v, 8 * (k / 8), k);
      CountToMonotone(s, u, v, k + 1, 8 * (k / 8 + 1));
      Threshold(c, d, hint, h);
      assert SampleOk(s, u, v, hint, h, k / 8);
    }
  }

  lemma AtMostNext(c: nat, d: nat, m: nat)
    requires m > 0 && c <= d <= c + m
    ensures c / m <= d / m <= c / m + 1
  {
    DivMonotone(c, d, m);
    DivMonotone(d, c + m, m);
    assert c == c / m * m + c % m;
    ModUnique(c + m, m, c / m + 1, c % m);
  }

  lemma Threshold(c: nat, d: nat, m: nat, h: nat)
    requires m > 0 && c / m < h <= d / m
    ensures c < h * m <= d
  {
    assert c == c / m * m + c % m;
    assert d == d / m * m + d % m;
    MulGap(c / m, h, m);
    if h < d / m {
      MulGap(h, d / m, m);
    }
  }

  // ---- Select ----

  /** The bracket of the samples around occurrence `i`. */
  lemma Bracket(s: seq<bool>, u: nat, v: bool, hint: nat, units: nat, blocks: nat, samples: seq<nat>, i: nat)
    requires hint > 0 && Samples(s, u, v, hint, units, blocks, samples)
    requires i < CountTo(s, u, v, units) && units <= 8 * (blocks - 1)
    ensures i / hint + 1 < |samples|
    ensures CountTo(s, u, v, 8 * samples[i / hint]) <= i < CountTo(s, u, v, 8 * (samples[i / hint + 1] + 1))
    ensures samples[i / hint] <= samples[i / hint + 1] < blocks
  {
    hide CountTo;
    var h, inner := i / hint, samples[..|samples| - 1];
    DivMonotone(i, CountTo(s, u, v, units), hint);
    assert i == h * hint + i % hint;
    assert SampleOk(s, u, v, hint, h, inner[h]);
    NothingYet(s, u, v);
    CountToMonotone(s, u, v, units, 8 * (blocks - 1));
    if h + 1 < |inner| {
      assert SampleOk(s, u, v, hint, h + 1, inner[h + 1]);
      assert (h + 1) * hint == h * hint + hint;
      SampleBelow(s, u, v, hint, units, blocks, h + 1, inner[h + 1]);
    } else {
      CountToMonotone(s, u, v, 8 * (blocks - 1), 8 * (samples[h + 1] + 1));
    }
    if samples[h + 1] < samples[h] {
      CountToMonotone(s, u, v, 8 * (samples[h + 1] + 1), 8 * samples[h]);
    }
  }

  lemma NothingYet(s: seq<bool>, u: nat, v: bool)
    ensures CountTo(s, u, v, 0) == 0
  {}

  lemma SampleBelow(s: seq<bool>, u: nat, v: bool, hint: nat, units: nat, blocks: nat, h: nat, block: nat)
    requires hint > 0 && h > 0 && SampleOk(s, u, v, hint, h, block)
    requires h <= CountTo(s, u, v, units) / hint && units <= 8 * (blocks - 1)
    ensures block < blocks
  {
    hide CountTo;
    var c := CountTo(s, u, v, units);
    assert c == c / hint * hint + c % hint;
    assert h * hint <= c by {
      if h < c / hint {
        MulGap(h, c / hint, hint);
      }
    }
    if block >= blocks {
      CountToMonotone(s, u, v, units, 8 * block);
    }
  }

  /** The unit of an occurrence lies inside the sequence. */
  lemma UnitInside(s: seq<bool>, u: nat, v: bool, units: nat, k: nat, i: nat)
    requires i < CountTo(s, u, v, units) && CountTo(s, u, v, k) <= i
    ensures k < units
  {
    hide CountTo;
    if k >= units {
      CountToMonotone(s, u, v, units, k);
    }
  }
}
