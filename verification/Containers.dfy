/** Level directory and payloads of a container: what `to_bytes` writes and `from_bytes` reads. */
module Containers {
  import opened Wrappers
  import opened Arithmetic
  import opened StablePartition
  import opened QuadVector
  import opened Superblock
  import opened RankSupport
  import opened BuildSupport
  import opened RSQVectors
  import opened LevelPlaces
  import opened ByteCodec
  import opened LevelBytes

  const FORMAT_VERSION: nat := 1
  const HQWT_DIR_SIZE: nat := 136

  ghost predicate EntrySize(entry: nat) {
    entry == DIR_SIZE || entry == HQWT_DIR_SIZE
  }

  // ---- Header fields shared by both formats ----

  /** Magic, version, flags and symbol width. */
  ghost predicate PreambleAt(bytes: seq<Byte>, magic: seq<Byte>, b: nat, tWidth: nat) {
    && |magic| == 4 && Stands(bytes, 0, magic) && Field(bytes, 4, 2, FORMAT_VERSION)
    && Field(bytes, 6, 1, if b == 512 then 1 else 0) && Field(bytes, 7, 1, tWidth)
  }

  lemma PreambleKept(was: seq<Byte>, now: seq<Byte>, o: nat, magic: seq<Byte>, b: nat, tWidth: nat)
    requires PreambleAt(was, magic, b, tWidth) && Kept(was, now, o) && 8 <= o
    ensures PreambleAt(now, magic, b, tWidth)
  {
    hide Field, Kept, Stands;
    StandsKept(was, now, o, 0, magic);
    FieldKept(was, now, o, 4, 2, FORMAT_VERSION);
    FieldKept(was, now, o, 6, 1, if b == 512 then 1 else 0);
    FieldKept(was, now, o, 7, 1, tWidth);
  }

  method WritePreamble(out: array<Byte>, magic: seq<Byte>, b: nat, tWidth: nat)
    requires |magic| == 4 && out.Length >= 8
    modifies out
    ensures PreambleAt(out[..], magic, b, tWidth) && Spared(old(out[..]), out[..], 8)
  {
    hide Field, Kept, Stands, Spared;
    Put(out, 0, magic);
    ghost var b1 := out[..];
    var o := PutField(out, 4, 2, FORMAT_VERSION);
    ghost var b2 := out[..];
    o := PutField(out, o, 1, if b == 512 then 1 else 0);
    ghost var b3 := out[..];
    o := PutField(out, o, 1, tWidth);
    SparedBoth(old(out[..]), b1, b2, 4, 6, 8);
    SparedBoth(old(out[..]), b2, b3, 8, 7, 8);
    SparedBoth(old(out[..]), b3, out[..], 8, 8, 8);
    KeptBoth(b2, b3, out[..], 6, 7);
    KeptBoth(b1, b2, out[..], 4, 6);
    StandsKept(b1, out[..], 4, 0, magic);
    FieldKept(b2, out[..], 6, 4, 2, FORMAT_VERSION);
    FieldKept(b3, out[..], 7, 6, 1, if b == 512 then 1 else 0);
  }

  /** What the first eight bytes must say: the magic, the version, no prefetch, the block size and the symbol width. */
  ghost predicate Preamble(bytes: seq<Byte>, magic: seq<Byte>, b: nat, tWidth: nat) {
    && |bytes| >= HEADER_SIZE && bytes[0..4] == magic && Field(bytes, 4, 2, FORMAT_VERSION)
    && bytes[6] / 2 % 2 == 0 && (bytes[6] % 2 == 1 <==> b == 512) && bytes[7] == tWidth
  }

  lemma PreambleWritten(bytes: seq<Byte>, magic: seq<Byte>, b: nat, tWidth: nat)
    requires |bytes| >= HEADER_SIZE && tWidth < 256 && PreambleAt(bytes, magic, b, tWidth)
    ensures Preamble(bytes, magic, b, tWidth)
  {
    ByteField(bytes, 6, if b == 512 then 1 else 0);
    ByteField(bytes, 7, tWidth);
    hide Field;
  }

  lemma ByteField(bytes: seq<Byte>, at: nat, v: nat)
    requires Field(bytes, at, 1, v) && v < 256
    ensures at < |bytes| && bytes[at] == v
  {
    assert Pow256(0) == 1;
    assert bytes[at + 0] == v / 1 % 256;
  }

  /** Accepts exactly the right preamble. */
  method ReadPreamble(bytes: seq<Byte>, magic: seq<Byte>, b: nat, tWidth: nat) returns (ok: bool)
    requires |magic| == 4 && BlockSize(b)
    ensures ok <==> Preamble(bytes, magic, b, tWidth)
  {
    hide Field, GetField, FromLe, Le;
    assert Pow256(1) == 256 && Pow256(2) == 0x1_0000;
    if |bytes| < HEADER_SIZE {
      return false;
    }
    if bytes[0..4] != magic {
      return false;
    }
    if GetField(bytes, 4, 2) != FORMAT_VERSION {
      return false;
    }
    var flags := GetField(bytes, 6, 1);
    ByteField(bytes, 6, flags);
    ByteField(bytes, 7, GetField(bytes, 7, 1));
    if flags / 2 % 2 != 0 {
      return false;
    }
    if (b == 512) != (flags % 2 != 0) {
      return false;
    }
    if GetField(bytes, 7, 1) != tWidth {
      return false;
    }
    return true;
  }

  // ---- The directory ----

  ghost predicate EntryAt(bytes: seq<Byte>, entry: nat, l: nat, v: RSQVector, p: LevelPlace, len: nat) {
    && |v.rsSupport.selectSamples| == 4
    && DirAt(bytes, HEADER_SIZE + entry * l, DirOf(v, p))
    && (entry == HQWT_DIR_SIZE ==> Field(bytes, HEADER_SIZE + entry * l + DIR_SIZE, 8, len))
  }

  ghost predicate DirectoryAt(bytes: seq<Byte>, entry: nat, qvs: seq<RSQVector>, places: seq<LevelPlace>, lens: seq<nat>) {
    |qvs| == |places| == |lens| && forall l :: 0 <= l < |qvs| ==> EntryAt(bytes, entry, l, qvs[l], places[l], lens[l])
  }

  lemma EntryKept(was: seq<Byte>, now: seq<Byte>, o: nat, entry: nat, l: nat, v: RSQVector, p: LevelPlace, len: nat)
    requires EntrySize(entry) && EntryAt(was, entry, l, v, p, len) && Kept(was, now, o) && HEADER_SIZE + entry * (l + 1) <= o
    ensures EntryAt(now, entry, l, v, p, len)
  {
    hide Field, Kept, DirAt;
    MulSuccessor(entry, l);
    DirKept(was, now, o, HEADER_SIZE + entry * l, DirOf(v, p));
    if entry == HQWT_DIR_SIZE {
      FieldKept(was, now, o, HEADER_SIZE + entry * l + DIR_SIZE, 8, len);
    }
  }

  lemma DirectoryKept(was: seq<Byte>, now: seq<Byte>, o: nat, entry: nat, qvs: seq<RSQVector>, places: seq<LevelPlace>, lens: seq<nat>)
    requires EntrySize(entry) && DirectoryAt(was, entry, qvs, places, lens) && Kept(was, now, o) && HEADER_SIZE + entry * |qvs| <= o
    ensures DirectoryAt(now, entry, qvs, places, lens)
  {
    hide EntryAt, Kept;
    forall l | 0 <= l < |qvs|
      ensures EntryAt(now, entry, l, qvs[l], places[l], lens[l])
    {
      MulMonotone(entry, l + 1, |qvs|);
      EntryKept(was, now, o, entry, l, qvs[l], places[l], lens[l]);
    }
  }

  method WriteEntry(v: RSQVector, p: LevelPlace, len: nat, entry: nat, l: nat, out: array<Byte>)
    requires EntrySize(entry) && HEADER_SIZE + entry * (l + 1) <= out.Length && DirShape(v, p)
    modifies out
    ensures EntryAt(out[..], entry, l, v, p, len) && Kept(old(out[..]), out[..], HEADER_SIZE + entry * l)
    ensures Spared(old(out[..]), out[..], HEADER_SIZE + entry * (l + 1))
  {
    hide Field, Kept, DirAt, LevelDir.Shape, Spared;
    MulSuccessor(entry, l);
    var at := HEADER_SIZE + entry * l;
    WriteDir(DirOf(v, p), out, at);
    if entry == HQWT_DIR_SIZE {
      ghost var was := out[..];
      var o := PutField(out, at + DIR_SIZE, 8, len);
      SparedBoth(old(out[..]), was, out[..], at + DIR_SIZE, o, o);
      DirKept(was, out[..], at + DIR_SIZE, at, DirOf(v, p));
      KeptBoth(old(out[..]), was, out[..], at, at + DIR_SIZE);
    }
  }

  ghost predicate DirShape(v: RSQVector, p: LevelPlace) {
    |v.rsSupport.selectSamples| == 4 && DirOf(v, p).Shape()
  }

  method WriteDirectory(qvs: seq<RSQVector>, places: seq<LevelPlace>, lens: seq<nat>, entry: nat, out: array<Byte>)
    requires EntrySize(entry) && |qvs| == |places| == |lens| && HEADER_SIZE + entry * |qvs| <= out.Length
    requires forall l :: 0 <= l < |qvs| ==> DirShape(qvs[l], places[l])
    modifies out
    ensures DirectoryAt(out[..], entry, qvs, places, lens) && Kept(old(out[..]), out[..], HEADER_SIZE)
    ensures Spared(old(out[..]), out[..], HEADER_SIZE + entry * |qvs|)
  {
    hide Kept, EntryAt, DirShape, Spared;
    SparedSame(out[..], HEADER_SIZE);
    assert entry * 0 == 0;
    MulMonotone(entry, 0, |qvs|);
    KeptSame(out[..], HEADER_SIZE);
    var l := 0;
    while l < |qvs|
      invariant 0 <= l <= |qvs|
      invariant DirectoryAt(out[..], entry, qvs[..l], places[..l], lens[..l]) && Kept(old(out[..]), out[..], HEADER_SIZE)
      invariant Spared(old(out[..]), out[..], HEADER_SIZE + entry * l)
    {
      ghost var was := out[..];
      MulMonotone(entry, l + 1, |qvs|);
      WriteEntry(qvs[l], places[l], lens[l], entry, l, out);
      MulSuccessor(entry, l);
      SparedBoth(old(out[..]), was, out[..], HEADER_SIZE + entry * l, HEADER_SIZE + entry * (l + 1), HEADER_SIZE + entry * (l + 1));
      DirectoryKept(was, out[..], HEADER_SIZE + entry * l, entry, qvs[..l], places[..l], lens[..l]);
      KeptBoth(old(out[..]), was, out[..], HEADER_SIZE, HEADER_SIZE + entry * l);
      l := l + 1;
    }
    assert qvs[..|qvs|] == qvs && places[..|qvs|] == places && lens[..|qvs|] == lens;
  }

  // ---- The payloads ----

  ghost predicate PayloadsAt(bytes: seq<Byte>, qvs: seq<RSQVector>, places: seq<LevelPlace>) {
    |qvs| == |places| && forall l :: 0 <= l < |qvs| ==> PayloadAt(bytes, places[l], qvs[l]) && places[l].end <= |bytes|
  }

  /** The counts of valid levels. */
  function AllCountsOf(qvs: seq<RSQVector>): (counts: seq<LevelCounts>)
    requires forall l :: 0 <= l < |qvs| ==> |qvs[l].rsSupport.selectSamples| == 4
    ensures |counts| == |qvs| && AllCounts(counts) && forall l :: 0 <= l < |qvs| ==> counts[l] == CountsOf(qvs[l])
  {
    seq(|qvs|, l requires 0 <= l < |qvs| => CountsOf(qvs[l]))
  }

  lemma LevelsHaveSamples(qvs: seq<RSQVector>)
    requires AllLevelsValid(qvs)
    ensures forall l :: 0 <= l < |qvs| ==> |qvs[l].rsSupport.selectSamples| == 4 && |qvs[l].nOccsSmaller| == 5
  {
    hide SuperblocksOk, SamplesOk;
  }

  lemma PlaceOf(qvs: seq<RSQVector>, places: seq<LevelPlace>, start: nat, l: nat)
    requires forall k :: 0 <= k < |qvs| ==> |qvs[k].rsSupport.selectSamples| == 4
    requires AllPlaced(places, AllCountsOf(qvs), start) && l < |qvs|
    ensures |places| == |qvs| && Placed(places[l], CountsOf(qvs[l]), CursorAt(places, start, l))
    ensures CursorAt(places, start, l) <= places[l].offData <= places[l].end == CursorAt(places, start, l + 1) <= CursorAt(places, start, |places|)
    ensures start <= CursorAt(places, start, l)
  {
    hide *;
    PlaceOfCounts(places, AllCountsOf(qvs), start, l);
  }

  lemma PayloadsKept(was: seq<Byte>, now: seq<Byte>, o: nat, qvs: seq<RSQVector>, places: seq<LevelPlace>, l: nat, start: nat)
    requires forall k :: 0 <= k < |qvs| ==> |qvs[k].rsSupport.selectSamples| == 4
    requires AllPlaced(places, AllCountsOf(qvs), start) && l <= |qvs| && CursorAt(places, start, l) <= o
    requires Kept(was, now, o) && PayloadsAt(was, qvs[..l], places[..l])
    ensures PayloadsAt(now, qvs[..l], places[..l])
  {
    hide Kept, PayloadAt, Placed, CountsOf, AllPlaced;
    PlacesMatch(qvs, places, start);
    forall k | 0 <= k < l
      ensures PayloadAt(now, places[k], qvs[k]) && places[k].end <= |now|
    {
      assert PayloadAt(was, places[..l][k], qvs[..l][k]) && places[..l][k].end <= |was|;
      PlaceOf(qvs, places, start, k);
      PlacesAscend(places, AllCountsOf(qvs), start, k + 1, l);
      PayloadKept(was, now, o, places[k], qvs[k], CursorAt(places, start, k));
      SameLength(was, now, o);
    }
  }

  lemma SameLength(was: seq<Byte>, now: seq<Byte>, o: nat)
    requires Kept(was, now, o)
    ensures |was| == |now|
  {}

  method WritePayloads(qvs: seq<RSQVector>, places: seq<LevelPlace>, start: nat, out: array<Byte>)
    requires AllLevelsValid(qvs) && (forall k :: 0 <= k < |qvs| ==> |qvs[k].rsSupport.selectSamples| == 4)
    requires AllPlaced(places, AllCountsOf(qvs), start) && CursorAt(places, start, |places|) <= out.Length && start <= out.Length
    modifies out
    ensures PayloadsAt(out[..], qvs, places) && Kept(old(out[..]), out[..], start)
    ensures Blank(old(out[..]), start) ==> PaddedTo(out[..], qvs, places, start, |qvs|)
  {
    hide Kept, PayloadAt, Placed, RSQVector.Valid, AllPlaced, Spared, Blank, PaddedTo;
    assert |places| == |qvs| by { PlacesMatch(qvs, places, start); }
    KeptSame(out[..], start);
    SparedSame(out[..], start);
    NothingPadded(out[..], qvs, places, start);
    var l := 0;
    while l < |qvs|
      invariant 0 <= l <= |qvs|
      invariant PayloadsAt(out[..], qvs[..l], places[..l]) && Kept(old(out[..]), out[..], start)
      invariant Spared(old(out[..]), out[..], CursorAt(places, start, l))
      invariant Blank(old(out[..]), start) ==> PaddedTo(out[..], qvs, places, start, l)
    {
      ghost var was := out[..];
      PlaceOf(qvs, places, start, l);
      WritePayload(qvs[l], places[l], out, CursorAt(places, start, l));
      if Blank(old(out[..]), start) {
        OneMorePadded(old(out[..]), was, out[..], qvs, places, start, l);
      }
      SparedBoth(old(out[..]), was, out[..], CursorAt(places, start, l), places[l].end, places[l].end);
      PayloadsKept(was, out[..], places[l].offData, qvs, places, l, start);
      KeptBoth(old(out[..]), was, out[..], start, places[l].offData);
      l := l + 1;
    }
    assert qvs[..|qvs|] == qvs && places[..|qvs|] == places;
  }

  /** Zeros in front of and inside the first `n` levels. */
  ghost predicate PaddedTo(bytes: seq<Byte>, qvs: seq<RSQVector>, places: seq<LevelPlace>, start: nat, n: nat) {
    && n <= |qvs| == |places|
    && forall l :: 0 <= l < n ==> Zeros(bytes, CursorAt(places, start, l), places[l].offData) && PayloadGaps(bytes, places[l], qvs[l])
  }

  lemma NothingPadded(bytes: seq<Byte>, qvs: seq<RSQVector>, places: seq<LevelPlace>, start: nat)
    requires |qvs| == |places|
    ensures PaddedTo(bytes, qvs, places, start, 0)
  {}

  lemma OneMorePadded(first: seq<Byte>, was: seq<Byte>, now: seq<Byte>, qvs: seq<RSQVector>, places: seq<LevelPlace>, start: nat, l: nat)
    requires forall k :: 0 <= k < |qvs| ==> |qvs[k].rsSupport.selectSamples| == 4
    requires AllPlaced(places, AllCountsOf(qvs), start) && l < |qvs|
    requires Blank(first, start) && Spared(first, was, CursorAt(places, start, l)) && Kept(was, now, places[l].offData)
    requires Blank(was, places[l].offData) ==> PayloadGaps(now, places[l], qvs[l])
    requires PaddedTo(was, qvs, places, start, l)
    ensures PaddedTo(now, qvs, places, start, l + 1)
  {
    hide Blank, Spared, Kept, Zeros, PayloadGaps, AllPlaced, Placed, CursorAt, AllCountsOf, CountsOf;
    PlaceOf(qvs, places, start, l);
    var at := CursorAt(places, start, l);
    BlankBehind(first, was, start, at);
    BlankSkipped(was, now, at, places[l].offData);
    BlankLess(was, at, places[l].offData);
    forall k | 0 <= k < l
      ensures Zeros(now, CursorAt(places, start, k), places[k].offData) && PayloadGaps(now, places[k], qvs[k])
    {
      PlaceOf(qvs, places, start, k);
      PlacesAscend(places, AllCountsOf(qvs), start, k + 1, l);
      GapsKept(was, now, places[l].offData, places[k], qvs[k], CursorAt(places, start, k));
    }
  }

  lemma GapsKept(was: seq<Byte>, now: seq<Byte>, o: nat, p: LevelPlace, v: RSQVector, start: nat)
    requires |v.rsSupport.selectSamples| == 4 && Placed(p, CountsOf(v), start) && p.end <= o && Kept(was, now, o)
    requires Zeros(was, start, p.offData) && PayloadGaps(was, p, v)
    ensures Zeros(now, start, p.offData) && PayloadGaps(now, p, v)
  {
    PlacedOrder(p, CountsOf(v), start);
    hide Zeros, Kept, Placed;
    ZerosKept(was, now, o, start, p.offData);
    ZerosKept(was, now, o, p.offData + 64 * |v.qv.data|, p.offSuperblocks);
    ZerosKept(was, now, o, p.offSuperblocks + 64 * |v.rsSupport.superblocks|, p.offSel[0]);
  }

  // ---- An entry, number by number ----

  /** The 128 bytes of a directory entry. */
  ghost predicate EntrySpelled(bytes: seq<Byte>, at: nat, v: RSQVector, p: LevelPlace)
    requires v.Valid()
  {
    && |v.rsSupport.selectSamples| == 4 && |p.offSel| == 4
    && Field(bytes, at, 8, p.offData) && Field(bytes, at + 8, 4, |v.qv.data|) && Field(bytes, at + 12, 4, 0)
    && Field(bytes, at + 16, 8, 2 * |v.Contents()|)
    && Field(bytes, at + 24, 8, p.offSuperblocks) && Field(bytes, at + 32, 4, |v.rsSupport.superblocks|) && Field(bytes, at + 36, 4, 0)
    && (forall s :: 0 <= s < 4 ==> Field(bytes, at + 40 + 8 * s, 8, p.offSel[s]))
    && (forall s :: 0 <= s < 4 ==> Field(bytes, at + 72 + 4 * s, 4, |v.rsSupport.selectSamples[s]|))
    && forall d: nat :: d < 5 ==> Field(bytes, at + 88 + 8 * d, 8, OccsBelow(v.Contents(), d))
  }

  lemma EntryIsSpelled(bytes: seq<Byte>, at: nat, v: RSQVector, p: LevelPlace)
    requires v.Valid() && |v.rsSupport.selectSamples| == 4 && DirAt(bytes, at, DirOf(v, p))
    ensures EntrySpelled(bytes, at, v, p)
  {
    hide Field, RSQVector.Valid, RSQVector.Contents, FieldRow, OccsBelow;
    OffsetsOf(v);
    var d := DirOf(v, p);
    assert d.nSel[0] == |v.rsSupport.selectSamples[0]| && d.nSel[1] == |v.rsSupport.selectSamples[1]|;
    assert d.nSel[2] == |v.rsSupport.selectSamples[2]| && d.nSel[3] == |v.rsSupport.selectSamples[3]|;
    RowSpelled(bytes, at + 40, 8, DirOf(v, p).offSel);
    RowSpelled(bytes, at + 72, 4, DirOf(v, p).nSel);
    RowSpelled(bytes, at + 88, 8, DirOf(v, p).nOccsSmaller);
  }

  lemma OffsetsOf(v: RSQVector)
    requires v.Valid()
    ensures |v.nOccsSmaller| == 5 && v.qv.position == 2 * |v.Contents()| && forall d: nat :: d < 5 ==> v.nOccsSmaller[d] == OccsBelow(v.Contents(), d)
  {
    hide SuperblocksOk, SamplesOk;
  }

  lemma RowSpelled(bytes: seq<Byte>, at: nat, w: nat, vs: seq<nat>)
    requires FieldRow(bytes, at, w, vs)
    ensures forall k :: 0 <= k < |vs| ==> Field(bytes, at + w * k, w, vs[k])
  {
    hide Field;
  }

  lemma PlacesMatch(qvs: seq<RSQVector>, places: seq<LevelPlace>, start: nat)
    requires forall k :: 0 <= k < |qvs| ==> |qvs[k].rsSupport.selectSamples| == 4
    requires AllPlaced(places, AllCountsOf(qvs), start)
    ensures |places| == |qvs|
  {}

  // ---- Reading levels ----

  /** The quad vector and the length that entry `l` of the directory names. */
  ghost predicate LevelNamed(bytes: seq<Byte>, entry: nat, l: nat, qv: QVector, len: nat) {
    && (exists d: LevelDir :: DirNamed(bytes, HEADER_SIZE + entry * l, d) && VectorNamed(bytes, d, qv))
    && if entry == HQWT_DIR_SIZE then len < Pow256(8) && Field(bytes, HEADER_SIZE + entry * l + DIR_SIZE, 8, len) else len == 0
  }

  ghost predicate LevelsNamed(bytes: seq<Byte>, entry: nat, qvs: seq<QVector>, lens: seq<nat>) {
    |qvs| == |lens| && forall l :: 0 <= l < |qvs| ==> LevelNamed(bytes, entry, l, qvs[l], lens[l])
  }

  lemma LevelOnce(bytes: seq<Byte>, entry: nat, l: nat, a: QVector, m: nat, b: QVector, n: nat)
    requires LevelNamed(bytes, entry, l, a, m) && LevelNamed(bytes, entry, l, b, n)
    ensures a == b && m == n
  {
    hide VectorNamed, DirNamed, Field, Pow256;
    var d: LevelDir :| DirNamed(bytes, HEADER_SIZE + entry * l, d) && VectorNamed(bytes, d, a);
    var e: LevelDir :| DirNamed(bytes, HEADER_SIZE + entry * l, e) && VectorNamed(bytes, e, b);
    DirOnce(bytes, HEADER_SIZE + entry * l, d, e);
    VectorOnce(bytes, d, a, b);
    if entry == HQWT_DIR_SIZE {
      FieldOnce(bytes, HEADER_SIZE + entry * l + DIR_SIZE, 8, m, n);
    }
  }

  lemma LevelsOnce(bytes: seq<Byte>, entry: nat, a: seq<QVector>, m: seq<nat>, b: seq<QVector>, n: seq<nat>)
    requires LevelsNamed(bytes, entry, a, m) && LevelsNamed(bytes, entry, b, n) && |a| == |b|
    ensures a == b && m == n
  {
    hide LevelNamed;
    forall l | 0 <= l < |a|
      ensures a[l] == b[l] && m[l] == n[l]
    {
      LevelOnce(bytes, entry, l, a[l], m[l], b[l], n[l]);
    }
  }

  /** The quad vectors of levels. */
  ghost function VectorsOf(qvs: seq<RSQVector>): (r: seq<QVector>)
    ensures |r| == |qvs| && forall l :: 0 <= l < |r| ==> r[l] == qvs[l].qv
  {
    seq(|qvs|, l requires 0 <= l < |qvs| => qvs[l].qv)
  }

  /** Levels as they were written. */
  ghost predicate Readable(bytes: seq<Byte>, entry: nat, qvs: seq<RSQVector>, places: seq<LevelPlace>, lens: seq<nat>) {
    && DirectoryAt(bytes, entry, qvs, places, lens)
    && forall l :: 0 <= l < |qvs| ==>
         |qvs[l].rsSupport.selectSamples| == 4 && Reads(bytes, DirOf(qvs[l], places[l]), qvs[l], places[l]) && DirOf(qvs[l], places[l]).Fits() && lens[l] < Pow256(8)
  }

  /** Written levels are named by their directory. */
  lemma ReadableNamed(bytes: seq<Byte>, entry: nat, qvs: seq<RSQVector>, places: seq<LevelPlace>, lens: seq<nat>)
    requires Readable(bytes, entry, qvs, places, lens) && (entry != HQWT_DIR_SIZE ==> forall l :: 0 <= l < |lens| ==> lens[l] == 0)
    ensures LevelsNamed(bytes, entry, VectorsOf(qvs), lens)
  {
    hide VectorNamed, DirAt, DirNamed, Field, LevelDir.Fits, Reads, DirOf, Pow256;
    forall l | 0 <= l < |qvs|
      ensures LevelNamed(bytes, entry, l, VectorsOf(qvs)[l], lens[l])
    {
      assert EntryAt(bytes, entry, l, qvs[l], places[l], lens[l]);
      DirIsNamed(bytes, HEADER_SIZE + entry * l, DirOf(qvs[l], places[l]));
      ReadsNamed(bytes, qvs[l], places[l]);
    }
  }

  /** One level, with the length that its entry may name. */
  method ReadLevel(bytes: seq<Byte>, entry: nat, l: nat, b: nat) returns (r: Option<RSQVector>, len: nat)
    requires EntrySize(entry) && BlockSize(b) && HEADER_SIZE + entry * (l + 1) <= |bytes|
    ensures r.Some? ==> Rebuilt(r.value, b) && LevelNamed(bytes, entry, l, r.value.qv, len)
    ensures r.None? ==> forall qv: QVector, n: nat :: !LevelNamed(bytes, entry, l, qv, n)
  {
    hide Field, GetField, DirNamed, VectorNamed, LevelDir.Fits, Rebuilt, Usable, Pow256;
    MulSuccessor(entry, l);
    var at := HEADER_SIZE + entry * l;
    var dir := ReadDir(bytes[at..at + DIR_SIZE]);
    DirNamedOfSlice(bytes, at, dir.value);
    NamedFits(bytes, at, dir.value);
    len := if entry == HQWT_DIR_SIZE then GetField(bytes, at + DIR_SIZE, 8) else 0;
    r := ReadVector(bytes, dir.value, b);
    if r.None? {
      forall qv: QVector, n: nat
        ensures !LevelNamed(bytes, entry, l, qv, n)
      {
        NotNamed(bytes, at, dir.value, qv);
      }
    }
  }

  lemma NamedFits(bytes: seq<Byte>, at: nat, d: LevelDir)
    requires DirNamed(bytes, at, d)
    ensures d.Fits()
  {
    hide Field, FieldRow, LevelDir.Fits;
  }

  /** An entry that is not usable names no vector. */
  lemma NotNamed(bytes: seq<Byte>, at: nat, d: LevelDir, qv: QVector)
    requires DirNamed(bytes, at, d) && !Usable(d, |bytes|)
    ensures forall e: LevelDir :: !(DirNamed(bytes, at, e) && VectorNamed(bytes, e, qv))
  {
    hide DirNamed, Usable;
    forall e: LevelDir | DirNamed(bytes, at, e)
      ensures !VectorNamed(bytes, e, qv)
    {
      DirOnce(bytes, at, d, e);
    }
  }

  lemma NamedAt(bytes: seq<Byte>, entry: nat, qvs: seq<QVector>, lens: seq<nat>, l: nat)
    requires l < |qvs|
    ensures LevelsNamed(bytes, entry, qvs, lens) ==> exists n: nat :: LevelNamed(bytes, entry, l, qvs[l], n)
  {
    hide LevelNamed;
    if LevelsNamed(bytes, entry, qvs, lens) {
      assert LevelNamed(bytes, entry, l, qvs[l], lens[l]);
    }
  }

  method ReadLevels(bytes: seq<Byte>, nLevels: nat, entry: nat, b: nat) returns (r: Option<seq<RSQVector>>, lens: seq<nat>)
    requires EntrySize(entry) && BlockSize(b) && HEADER_SIZE + entry * nLevels <= |bytes|
    ensures r.Some? ==> |r.value| == |lens| == nLevels && forall l :: 0 <= l < nLevels ==> Rebuilt(r.value[l], b)
    ensures r.Some? ==> LevelsNamed(bytes, entry, VectorsOf(r.value), lens)
    ensures r.None? ==> forall x: seq<QVector>, ns: seq<nat> :: |x| == nLevels ==> !LevelsNamed(bytes, entry, x, ns)
  {
    hide Rebuilt, LevelNamed;
    var qvs: seq<RSQVector> := [];
    lens := [];
    var l := 0;
    while l < nLevels
      invariant 0 <= l <= nLevels && |qvs| == |lens| == l
      invariant forall k :: 0 <= k < l ==> Rebuilt(qvs[k], b)
      invariant LevelsNamed(bytes, entry, VectorsOf(qvs), lens)
    {
      MulMonotone(entry, l + 1, nLevels);
      var v, len := ReadLevel(bytes, entry, l, b);
      if v.None? {
        forall x: seq<QVector>, ns: seq<nat> | |x| == nLevels
          ensures !LevelsNamed(bytes, entry, x, ns)
        {
          NamedAt(bytes, entry, x, ns, l);
        }
        return None, lens;
      }
      qvs := qvs + [v.value];
      lens := lens + [len];
      l := l + 1;
    }
    r := Some(qvs);
  }
}
