/** Where the payloads of the levels go in an output file. */
module LevelPlaces {
  import opened Arithmetic

  const HEADER_SIZE: nat := 32

  function AlignUp(x: nat, a: nat): (r: nat)
    requires a > 0
    ensures x <= r < x + a && r % a == 0
    ensures x % a == 0 ==> r == x
  {
    AlignUpFacts(x, a);
    (x + a - 1) / a * a
  }

  lemma AlignUpFacts(x: nat, a: nat)
    requires a > 0
    ensures x <= (x + a - 1) / a * a < x + a && ((x + a - 1) / a * a) % a == 0
    ensures x % a == 0 ==> (x + a - 1) / a * a == x
  {
    var q := (x + a - 1) / a;
    assert x + a - 1 == q * a + (x + a - 1) % a;
    ModUnique(q * a, a, q, 0);
    if x % a == 0 {
      assert x == x / a * a;
      ModUnique(x + a - 1, a, x / a, a - 1);
    }
  }

  /** How many lines, superblocks and samples of each symbol a level has. */
  datatype LevelCounts = LevelCounts(lines: nat, superblocks: nat, samples: seq<nat>) {
    ghost predicate Valid() {
      |samples| == 4
    }

    ghost function Bytes(): nat
      requires Valid()
    {
      lines * 64 + superblocks * 64 + (samples[0] + samples[1] + samples[2] + samples[3]) * 4
    }
  }

  ghost predicate AllCounts(counts: seq<LevelCounts>) {
    forall l :: 0 <= l < |counts| ==> counts[l].Valid()
  }

  /** Offsets of the payloads of a level. */
  datatype LevelPlace = LevelPlace(offData: nat, offSuperblocks: nat, offSel: seq<nat>, end: nat)

  /** The payloads of a level lie one after the other behind `start`, each at the first place that is aligned. */
  ghost predicate Placed(p: LevelPlace, c: LevelCounts, start: nat) {
    && c.Valid() && |p.offSel| == 4
    && start <= p.offData < start + 64 && p.offData % 64 == 0
    && p.offData + c.lines * 64 <= p.offSuperblocks < p.offData + c.lines * 64 + 64 && p.offSuperblocks % 64 == 0
    && p.offSuperblocks + c.superblocks * 64 <= p.offSel[0] < p.offSuperblocks + c.superblocks * 64 + 4
    && (forall s :: 0 <= s < 4 ==> p.offSel[s] % 4 == 0)
    && (forall s :: 0 <= s < 3 ==> p.offSel[s] + c.samples[s] * 4 == p.offSel[s + 1])
    && p.offSel[3] + c.samples[3] * 4 == p.end
  }

  /** One level behind the cursor. */
  method PlaceLevel(c: LevelCounts, cursor: nat) returns (p: LevelPlace)
    requires c.Valid()
    ensures Placed(p, c, cursor)
    ensures p.end < cursor + c.Bytes() + 128
  {
    var offData := AlignUp(cursor, 64);
    var next := offData + c.lines * 64;
    var offSuperblocks := AlignUp(next, 64);
    next := offSuperblocks + c.superblocks * 64;
    next := AlignUp(next, 4);
    var s0 := next;
    var s1 := s0 + c.samples[0] * 4;
    var s2 := s1 + c.samples[1] * 4;
    var s3 := s2 + c.samples[2] * 4;
    p := LevelPlace(offData, offSuperblocks, [s0, s1, s2, s3], s3 + c.samples[3] * 4);
    hide AlignUp;
    SectionsAligned(offData, c.lines, c.superblocks, s0, c.samples[0], c.samples[1], c.samples[2]);
  }

  /** Sections of whole lines, superblocks and samples keep their alignment. */
  lemma SectionsAligned(offData: nat, lines: nat, superblocks: nat, s0: nat, n0: nat, n1: nat, n2: nat)
    requires offData % 64 == 0 && s0 % 4 == 0
    ensures (offData + lines * 64) % 64 == 0 && (offData + lines * 64 + superblocks * 64) % 4 == 0
    ensures (s0 + n0 * 4) % 4 == 0 && (s0 + n0 * 4 + n1 * 4) % 4 == 0 && (s0 + n0 * 4 + n1 * 4 + n2 * 4) % 4 == 0
  {}

  /** Levels follow one another. */
  ghost predicate AllPlaced(places: seq<LevelPlace>, counts: seq<LevelCounts>, start: nat) {
    |places| == |counts| && forall l :: 0 <= l < |places| ==> Placed(places[l], counts[l], CursorAt(places, start, l))
  }

  /** Cursor in front of level `l`. */
  ghost function CursorAt(places: seq<LevelPlace>, start: nat, l: nat): nat
    requires l <= |places|
  {
    if l == 0 then start else places[l - 1].end
  }

  /** All levels: disjoint payloads, and a total size bounded by the size of the largest level. */
  method PlaceLevels(counts: seq<LevelCounts>, start: nat, ghost bound: nat) returns (places: seq<LevelPlace>, cursor: nat)
    requires AllCounts(counts)
    ensures |places| == |counts| && AllPlaced(places, counts, start) && cursor == CursorAt(places, start, |places|) >= start
    ensures (forall l :: 0 <= l < |counts| ==> counts[l].Bytes() <= bound) ==> cursor <= start + |counts| * (bound + 128)
  {
    hide Placed, AllPlaced, LevelCounts.Bytes;
    assert AllPlaced([], counts[..0], start) by {
      PlacesOfNothing(start);
    }
    ghost var small := forall l :: 0 <= l < |counts| ==> counts[l].Bytes() <= bound;
    places, cursor := [], start;
    var l := 0;
    while l < |counts|
      invariant 0 <= l <= |counts| && |places| == l && AllPlaced(places, counts[..l], start)
      invariant cursor == CursorAt(places, start, l) >= start
      invariant small ==> cursor <= start + l * (bound + 128)
    {
      var p := PlaceLevel(counts[l], cursor);
      PlacedOrder(p, counts[l], cursor);
      OneMorePlaced(places, counts[..l], start, p, counts[l], cursor);
      assert counts[..l] + [counts[l]] == counts[..l + 1];
      places := places + [p];
      cursor := p.end;
      l := l + 1;
      assert l * (bound + 128) == (l - 1) * (bound + 128) + (bound + 128);
    }
    assert counts[..|counts|] == counts;
  }

  lemma PlacedOrder(p: LevelPlace, c: LevelCounts, start: nat)
    requires Placed(p, c, start)
    ensures start <= p.offData && p.offData + c.lines * 64 <= p.offSuperblocks && p.offSuperblocks + c.superblocks * 64 <= p.offSel[0]
    ensures p.offSel[0] + c.samples[0] * 4 == p.offSel[1] && p.offSel[1] + c.samples[1] * 4 == p.offSel[2]
    ensures p.offSel[2] + c.samples[2] * 4 == p.offSel[3] && p.offSel[3] + c.samples[3] * 4 == p.end
    ensures start <= p.offData <= p.end
  {}

  /** The counts of a level and the cursor in front of it determine every offset. */
  lemma PlacedOnce(p: LevelPlace, p': LevelPlace, c: LevelCounts, start: nat)
    requires Placed(p, c, start) && Placed(p', c, start)
    ensures p == p'
  {
    AlignedOnce(p.offData, p'.offData, start, 64);
    AlignedOnce(p.offSuperblocks, p'.offSuperblocks, p.offData + c.lines * 64, 64);
    AlignedOnce(p.offSel[0], p'.offSel[0], p.offSuperblocks + c.superblocks * 64, 4);
    PlacedOrder(p, c, start);
    PlacedOrder(p', c, start);
    forall s | 0 <= s < 4
      ensures p.offSel[s] == p'.offSel[s]
    {}
  }

  lemma AlignedOnce(x: nat, y: nat, from: nat, a: nat)
    requires a > 0 && from <= x < from + a && from <= y < from + a && x % a == 0 && y % a == 0
    ensures x == y
  {
    if x < y {
      MultiplesApart(x, y, a);
    } else if y < x {
      MultiplesApart(y, x, a);
    }
  }

  lemma MultiplesApart(x: nat, y: nat, a: nat)
    requires a > 0 && x < y && x % a == 0 && y % a == 0
    ensures y >= x + a
  {
    var i, j := x / a, y / a;
    assert x == i * a && y == j * a;
    if j <= i {
      MulMonotone(a, j, i);
    } else {
      MulMonotone(a, i + 1, j);
    }
  }

  /** So do the counts of all levels and the start. */
  lemma {:induction false} AllPlacedOnce(places: seq<LevelPlace>, places': seq<LevelPlace>, counts: seq<LevelCounts>, start: nat, l: nat)
    requires AllPlaced(places, counts, start) && AllPlaced(places', counts, start) && l <= |counts|
    ensures |places| == |places'| == |counts| && places[..l] == places'[..l]
  {
    hide *;
    PlacesCount(places, counts, start);
    PlacesCount(places', counts, start);
    if l > 0 {
      AllPlacedOnce(places, places', counts, start, l - 1);
      PlaceOfCounts(places, counts, start, l - 1);
      PlaceOfCounts(places', counts, start, l - 1);
      SameCursor(places, places', start, l - 1);
      PlacedOnce(places[l - 1], places'[l - 1], counts[l - 1], CursorAt(places, start, l - 1));
      assert places[..l] == places[..l - 1] + [places[l - 1]];
      assert places'[..l] == places'[..l - 1] + [places'[l - 1]];
    }
  }

  lemma PlacesCount(places: seq<LevelPlace>, counts: seq<LevelCounts>, start: nat)
    requires AllPlaced(places, counts, start)
    ensures |places| == |counts|
  {}

  lemma SameCursor(places: seq<LevelPlace>, places': seq<LevelPlace>, start: nat, l: nat)
    requires l <= |places| && l <= |places'| && places[..l] == places'[..l]
    ensures CursorAt(places, start, l) == CursorAt(places', start, l)
  {
    if l > 0 {
      assert places[l - 1] == places[..l][l - 1] == places'[..l][l - 1] == places'[l - 1];
    }
  }

  lemma PlacesOfNothing(start: nat)
    ensures AllPlaced([], [], start)
  {}

  lemma OneMorePlaced(places: seq<LevelPlace>, counts: seq<LevelCounts>, start: nat, p: LevelPlace, c: LevelCounts, cursor: nat)
    requires AllPlaced(places, counts, start) && Placed(p, c, cursor)
    requires cursor == CursorAt(places, start, |places|)
    ensures AllPlaced(places + [p], counts + [c], start)
  {
    hide Placed;
    var ps, cs := places + [p], counts + [c];
    forall l | 0 <= l < |ps|
      ensures Placed(ps[l], cs[l], CursorAt(ps, start, l))
    {
      assert CursorAt(ps, start, l) == CursorAt(places, start, l);
      if l < |places| {
        assert ps[l] == places[l] && cs[l] == counts[l];
      }
    }
  }

  /** Every level starts behind the start and ends before the last cursor. */
  lemma {:induction false} PlacesAscend(places: seq<LevelPlace>, counts: seq<LevelCounts>, start: nat, k: nat, l: nat)
    requires AllPlaced(places, counts, start) && k <= l <= |places|
    ensures CursorAt(places, start, k) <= CursorAt(places, start, l)
  {
    hide Placed;
    if k < l {
      PlacesAscend(places, counts, start, k, l - 1);
      PlacedOrder(places[l - 1], counts[l - 1], CursorAt(places, start, l - 1));
    }
  }

  /** A level lies between its own cursor and the last one. */
  lemma PlaceOfCounts(places: seq<LevelPlace>, counts: seq<LevelCounts>, start: nat, l: nat)
    requires AllPlaced(places, counts, start) && l < |counts|
    ensures |places| == |counts| && Placed(places[l], counts[l], CursorAt(places, start, l))
    ensures CursorAt(places, start, l) <= places[l].offData <= places[l].end == CursorAt(places, start, l + 1) <= CursorAt(places, start, |places|)
    ensures start <= CursorAt(places, start, l)
  {
    hide Placed;
    PlacesAscend(places, counts, start, 0, l);
    PlacesAscend(places, counts, start, l + 1, |places|);
    PlacedOrder(places[l], counts[l], CursorAt(places, start, l));
  }
}
