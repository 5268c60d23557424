/** Directory entries and payloads of levels in a byte buffer. */
module LevelBytes {
  import opened Wrappers
  import opened Arithmetic
  import opened RankSelect
  import opened StablePartition
  import opened QuadVector
  import opened Superblock
  import opened RankSupport
  import opened BuildSupport
  import opened RSQVectors
  import opened BuildQuadWavelet
  import opened LevelPlaces
  import opened ByteCodec

  const DIR_SIZE: nat := 128

  // ---- Directory entries ----

  datatype LevelDir = LevelDir(offData: nat, nDatalines: nat, positionBits: nat, offSuperblocks: nat, nSuperblocks: nat,
                               offSel: seq<nat>, nSel: seq<nat>, nOccsSmaller: seq<nat>) {
    ghost predicate Shape() {
      |offSel| == 4 && |nSel| == 4 && |nOccsSmaller| == 5
    }

    /** Every number fits its field. */
    ghost predicate Fits() {
      && Shape()
      && offData < Pow256(8) && nDatalines < Pow256(4) && positionBits < Pow256(8) && offSuperblocks < Pow256(8) && nSuperblocks < Pow256(4)
      && (forall k :: 0 <= k < 4 ==> offSel[k] < Pow256(8) && nSel[k] < Pow256(4))
      && forall k :: 0 <= k < 5 ==> nOccsSmaller[k] < Pow256(8)
    }
  }

  /** The 128 bytes of an entry: fields in order, two of them padding. */
  ghost predicate DirAt(bytes: seq<Byte>, at: nat, d: LevelDir) {
    && d.Shape() && at + DIR_SIZE <= |bytes|
    && Field(bytes, at, 8, d.offData) && Field(bytes, at + 8, 4, d.nDatalines) && Field(bytes, at + 12, 4, 0)
    && Field(bytes, at + 16, 8, d.positionBits) && Field(bytes, at + 24, 8, d.offSuperblocks)
    && Field(bytes, at + 32, 4, d.nSuperblocks) && Field(bytes, at + 36, 4, 0)
    && FieldRow(bytes, at + 40, 8, d.offSel) && FieldRow(bytes, at + 72, 4, d.nSel) && FieldRow(bytes, at + 88, 8, d.nOccsSmaller)
  }

  lemma DirKept(was: seq<Byte>, now: seq<Byte>, o: nat, at: nat, d: LevelDir)
    requires Kept(was, now, o) && at + DIR_SIZE <= o && DirAt(was, at, d)
    ensures DirAt(now, at, d)
  {
    hide Field, FieldRow;
    FieldKept(was, now, o, at, 8, d.offData);
    FieldKept(was, now, o, at + 8, 4, d.nDatalines);
    FieldKept(was, now, o, at + 12, 4, 0);
    FieldKept(was, now, o, at + 16, 8, d.positionBits);
    FieldKept(was, now, o, at + 24, 8, d.offSuperblocks);
    FieldKept(was, now, o, at + 32, 4, d.nSuperblocks);
    FieldKept(was, now, o, at + 36, 4, 0);
    FieldRowKept(was, now, o, at + 40, 8, d.offSel);
    FieldRowKept(was, now, o, at + 72, 4, d.nSel);
    FieldRowKept(was, now, o, at + 88, 8, d.nOccsSmaller);
  }

  /** One more number behind what has been written. */
  method Append(out: array<Byte>, o: nat, w: nat, v: nat, ghost start: nat, ghost first: seq<Byte>) returns (next: nat)
    requires o + w <= out.Length && start <= o && Kept(first, out[..], start) && Spared(first, out[..], o)
    modifies out
    ensures next == o + w && Field(out[..], o, w, v) && Kept(old(out[..]), out[..], o) && Kept(first, out[..], start)
    ensures Spared(first, out[..], next)
  {
    hide Field, Kept, Spared;
    next := PutField(out, o, w, v);
    KeptBoth(first, old(out[..]), out[..], start, o);
    SparedBoth(first, old(out[..]), out[..], o, next, next);
  }

  lemma SparedSame(a: seq<Byte>, e: nat)
    ensures Spared(a, a, e)
  {}

  /** The first seven fields of an entry, 40 bytes. */
  ghost predicate HeadAt(bytes: seq<Byte>, at: nat, d: LevelDir) {
    && Field(bytes, at, 8, d.offData) && Field(bytes, at + 8, 4, d.nDatalines) && Field(bytes, at + 12, 4, 0)
    && Field(bytes, at + 16, 8, d.positionBits) && Field(bytes, at + 24, 8, d.offSuperblocks)
    && Field(bytes, at + 32, 4, d.nSuperblocks) && Field(bytes, at + 36, 4, 0)
  }

  lemma HeadKept(was: seq<Byte>, now: seq<Byte>, o: nat, at: nat, d: LevelDir)
    requires Kept(was, now, o) && at + 40 <= o && HeadAt(was, at, d)
    ensures HeadAt(now, at, d)
  {
    hide Field;
    FieldKept(was, now, o, at, 8, d.offData);
    FieldKept(was, now, o, at + 8, 4, d.nDatalines);
    FieldKept(was, now, o, at + 12, 4, 0);
    FieldKept(was, now, o, at + 16, 8, d.positionBits);
    FieldKept(was, now, o, at + 24, 8, d.offSuperblocks);
    FieldKept(was, now, o, at + 32, 4, d.nSuperblocks);
    FieldKept(was, now, o, at + 36, 4, 0);
  }

  method WriteHead(d: LevelDir, out: array<Byte>, at: nat)
    requires at + 40 <= out.Length
    modifies out
    ensures HeadAt(out[..], at, d) && Kept(old(out[..]), out[..], at) && Spared(old(out[..]), out[..], at + 40)
  {
    hide Field, Kept, Spared;
    ghost var first := out[..];
    KeptSame(first, at);
    SparedSame(first, at);
    var o := Append(out, at, 8, d.offData, at, first);
    ghost var b1 := out[..];
    o := Append(out, o, 4, d.nDatalines, at, first);
    ghost var b2 := out[..];
    o := Append(out, o, 4, 0, at, first);
    ghost var b3 := out[..];
    o := Append(out, o, 8, d.positionBits, at, first);
    ghost var b4 := out[..];
    o := Append(out, o, 8, d.offSuperblocks, at, first);
    ghost var b5 := out[..];
    o := Append(out, o, 4, d.nSuperblocks, at, first);
    ghost var b6 := out[..];
    o := Append(out, o, 4, 0, at, first);
    SevenKept(b1, b2, b3, b4, b5, b6, out[..], at, d);
  }

  /** Each field outlives the writes behind it. */
  lemma SevenKept(b1: seq<Byte>, b2: seq<Byte>, b3: seq<Byte>, b4: seq<Byte>, b5: seq<Byte>, b6: seq<Byte>, b7: seq<Byte>, at: nat, d: LevelDir)
    requires Kept(b1, b2, at + 8) && Kept(b2, b3, at + 12) && Kept(b3, b4, at + 16) && Kept(b4, b5, at + 24)
    requires Kept(b5, b6, at + 32) && Kept(b6, b7, at + 36)
    requires Field(b1, at, 8, d.offData) && Field(b2, at + 8, 4, d.nDatalines) && Field(b3, at + 12, 4, 0)
    requires Field(b4, at + 16, 8, d.positionBits) && Field(b5, at + 24, 8, d.offSuperblocks)
    requires Field(b6, at + 32, 4, d.nSuperblocks) && Field(b7, at + 36, 4, 0)
    ensures HeadAt(b7, at, d)
  {
    hide Field, Kept;
    KeptBoth(b5, b6, b7, at + 32, at + 36);
    KeptBoth(b4, b5, b7, at + 24, at + 32);
    KeptBoth(b3, b4, b7, at + 16, at + 24);
    KeptBoth(b2, b3, b7, at + 12, at + 16);
    KeptBoth(b1, b2, b7, at + 8, at + 12);
    FieldKept(b1, b7, at + 8, at, 8, d.offData);
    FieldKept(b2, b7, at + 12, at + 8, 4, d.nDatalines);
    FieldKept(b3, b7, at + 16, at + 12, 4, 0);
    FieldKept(b4, b7, at + 24, at + 16, 8, d.positionBits);
    FieldKept(b5, b7, at + 32, at + 24, 8, d.offSuperblocks);
    FieldKept(b6, b7, at + 36, at + 32, 4, d.nSuperblocks);
  }

  method WriteDir(d: LevelDir, out: array<Byte>, at: nat)
    requires d.Shape() && at + DIR_SIZE <= out.Length
    modifies out
    ensures DirAt(out[..], at, d) && Kept(old(out[..]), out[..], at) && Spared(old(out[..]), out[..], at + DIR_SIZE)
  {
    hide Field, FieldRow, Kept, HeadAt, Spared;
    WriteHead(d, out, at);
    ghost var b1 := out[..];
    var o := PutFields(out, at + 40, 8, d.offSel);
    ghost var b2 := out[..];
    o := PutFields(out, o, 4, d.nSel);
    ghost var b3 := out[..];
    o := PutFields(out, o, 8, d.nOccsSmaller);
    SparedBoth(old(out[..]), b1, b2, at + 40, at + 72, at + DIR_SIZE);
    SparedBoth(old(out[..]), b2, b3, at + DIR_SIZE, at + 88, at + DIR_SIZE);
    SparedBoth(old(out[..]), b3, out[..], at + DIR_SIZE, at + DIR_SIZE, at + DIR_SIZE);
    KeptBoth(b2, b3, out[..], at + 72, at + 88);
    KeptBoth(b1, b2, out[..], at + 40, at + 72);
    KeptBoth(old(out[..]), b1, out[..], at, at + 40);
    HeadKept(b1, out[..], at + 40, at, d);
    FieldRowKept(b2, out[..], at + 72, at + 40, 8, d.offSel);
    FieldRowKept(b3, out[..], at + 88, at + 72, 4, d.nSel);
    HeadIsDir(out[..], at, d);
  }

  lemma HeadIsDir(bytes: seq<Byte>, at: nat, d: LevelDir)
    requires d.Shape() && at + DIR_SIZE <= |bytes| && HeadAt(bytes, at, d)
    requires FieldRow(bytes, at + 40, 8, d.offSel) && FieldRow(bytes, at + 72, 4, d.nSel) && FieldRow(bytes, at + 88, 8, d.nOccsSmaller)
    ensures DirAt(bytes, at, d)
  {
    hide Field, FieldRow;
  }

  /** The numbers of the entry at `at`, whatever stands in its padding. */
  ghost predicate DirNamed(bytes: seq<Byte>, at: nat, d: LevelDir) {
    && d.Fits() && at + DIR_SIZE <= |bytes|
    && Field(bytes, at, 8, d.offData) && Field(bytes, at + 8, 4, d.nDatalines)
    && Field(bytes, at + 16, 8, d.positionBits) && Field(bytes, at + 24, 8, d.offSuperblocks) && Field(bytes, at + 32, 4, d.nSuperblocks)
    && FieldRow(bytes, at + 40, 8, d.offSel) && FieldRow(bytes, at + 72, 4, d.nSel) && FieldRow(bytes, at + 88, 8, d.nOccsSmaller)
  }

  lemma DirIsNamed(bytes: seq<Byte>, at: nat, d: LevelDir)
    requires DirAt(bytes, at, d) && d.Fits()
    ensures DirNamed(bytes, at, d)
  {
    hide Field, FieldRow, LevelDir.Fits;
  }

  lemma DirOnce(bytes: seq<Byte>, at: nat, a: LevelDir, b: LevelDir)
    requires DirNamed(bytes, at, a) && DirNamed(bytes, at, b)
    ensures a == b
  {
    hide Field, FieldRow, Pow256;
    FieldOnce(bytes, at, 8, a.offData, b.offData);
    FieldOnce(bytes, at + 8, 4, a.nDatalines, b.nDatalines);
    FieldOnce(bytes, at + 16, 8, a.positionBits, b.positionBits);
    FieldOnce(bytes, at + 24, 8, a.offSuperblocks, b.offSuperblocks);
    FieldOnce(bytes, at + 32, 4, a.nSuperblocks, b.nSuperblocks);
    FieldRowOnce(bytes, at + 40, 8, a.offSel, b.offSel);
    FieldRowOnce(bytes, at + 72, 4, a.nSel, b.nSel);
    FieldRowOnce(bytes, at + 88, 8, a.nOccsSmaller, b.nOccsSmaller);
  }

  /** An entry reads back field by field. */
  method ReadDir(buf: seq<Byte>) returns (r: Option<LevelDir>)
    ensures r.None? <==> |buf| < DIR_SIZE
    ensures r.Some? ==> DirNamed(buf, 0, r.value)
  {
    hide Field, FieldRow, GetField;
    if |buf| < DIR_SIZE {
      return None;
    }
    var offData := GetField(buf, 0, 8);
    var nDatalines := GetField(buf, 8, 4);
    var positionBits := GetField(buf, 16, 8);
    var offSuperblocks := GetField(buf, 24, 8);
    var nSuperblocks := GetField(buf, 32, 4);
    var offSel := GetFields(buf, 40, 8, 4);
    var nSel := GetFields(buf, 72, 4, 4);
    var nOccsSmaller := GetFields(buf, 88, 8, 5);
    r := Some(LevelDir(offData, nDatalines, positionBits, offSuperblocks, nSuperblocks, offSel, nSel, nOccsSmaller));
  }

  lemma FieldOfSlice(bytes: seq<Byte>, at: nat, len: nat, o: nat, w: nat, v: nat)
    requires at + len <= |bytes| && o + w <= len && Field(bytes[at..at + len], o, w, v)
    ensures Field(bytes, at + o, w, v)
  {
    forall j | at + o <= j < at + o + w
      ensures bytes[at..at + len][j - at] == bytes[j]
    {}
  }

  lemma FieldRowOfSlice(bytes: seq<Byte>, at: nat, len: nat, o: nat, w: nat, vs: seq<nat>)
    requires at + len <= |bytes| && o + w * |vs| <= len && FieldRow(bytes[at..at + len], o, w, vs)
    ensures FieldRow(bytes, at + o, w, vs)
  {
    hide Field;
    forall k | 0 <= k < |vs|
      ensures Field(bytes, at + o + w * k, w, vs[k])
    {
      MulGap(k, |vs|, w);
      assert Field(bytes[at..at + len], o + w * k, w, vs[k]);
      FieldOfSlice(bytes, at, len, o + w * k, w, vs[k]);
      assert at + (o + w * k) == at + o + w * k;
    }
  }

  lemma DirNamedOfSlice(bytes: seq<Byte>, at: nat, d: LevelDir)
    requires at + DIR_SIZE <= |bytes| && DirNamed(bytes[at..at + DIR_SIZE], 0, d)
    ensures DirNamed(bytes, at, d)
  {
    hide Field, FieldRow, Pow256;
    FieldOfSlice(bytes, at, DIR_SIZE, 0, 8, d.offData);
    FieldOfSlice(bytes, at, DIR_SIZE, 8, 4, d.nDatalines);
    FieldOfSlice(bytes, at, DIR_SIZE, 16, 8, d.positionBits);
    FieldOfSlice(bytes, at, DIR_SIZE, 24, 8, d.offSuperblocks);
    FieldOfSlice(bytes, at, DIR_SIZE, 32, 4, d.nSuperblocks);
    FieldRowOfSlice(bytes, at, DIR_SIZE, 40, 8, d.offSel);
    FieldRowOfSlice(bytes, at, DIR_SIZE, 72, 4, d.nSel);
    FieldRowOfSlice(bytes, at, DIR_SIZE, 88, 8, d.nOccsSmaller);
  }

  // ---- Payloads ----

  function CountsOf(v: RSQVector): (c: LevelCounts)
    requires |v.rsSupport.selectSamples| == 4
    ensures c.Valid()
  {
    var samples := v.rsSupport.selectSamples;
    LevelCounts(|v.qv.data|, |v.rsSupport.superblocks|, [|samples[0]|, |samples[1]|, |samples[2]|, |samples[3]|])
  }

  /** The directory entry of a level at its place. */
  function DirOf(v: RSQVector, p: LevelPlace): LevelDir
    requires |v.rsSupport.selectSamples| == 4
  {
    LevelDir(p.offData, |v.qv.data|, v.qv.position, p.offSuperblocks, |v.rsSupport.superblocks|, p.offSel, CountsOf(v).samples, v.nOccsSmaller)
  }

  ghost predicate LinesAt(bytes: seq<Byte>, at: nat, lines: seq<DataLine>) {
    forall i :: 0 <= i < |lines| ==> LineAt(bytes, at + 64 * i, lines[i])
  }

  ghost predicate SuperblocksAt(bytes: seq<Byte>, at: nat, superblocks: seq<SuperblockPlain>) {
    forall t :: 0 <= t < |superblocks| ==> superblocks[t].Valid() && FieldRow(bytes, at + 64 * t, 16, superblocks[t].counters)
  }

  /** Lines, superblocks and samples of a level stand where the directory says. */
  ghost predicate PayloadAt(bytes: seq<Byte>, p: LevelPlace, v: RSQVector) {
    && |v.rsSupport.selectSamples| == 4 && |p.offSel| == 4
    && LinesAt(bytes, p.offData, v.qv.data)
    && SuperblocksAt(bytes, p.offSuperblocks, v.rsSupport.superblocks)
    && forall s :: 0 <= s < 4 ==> FieldRow(bytes, p.offSel[s], 4, v.rsSupport.selectSamples[s])
  }

  lemma LinesKept(was: seq<Byte>, now: seq<Byte>, o: nat, at: nat, lines: seq<DataLine>)
    requires Kept(was, now, o) && at + 64 * |lines| <= o && LinesAt(was, at, lines)
    ensures LinesAt(now, at, lines)
  {
    hide Kept, LineAt;
    forall i | 0 <= i < |lines|
      ensures LineAt(now, at + 64 * i, lines[i])
    {
      LineKept(was, now, o, at + 64 * i, lines[i]);
    }
  }

  lemma SuperblocksKept(was: seq<Byte>, now: seq<Byte>, o: nat, at: nat, superblocks: seq<SuperblockPlain>)
    requires Kept(was, now, o) && at + 64 * |superblocks| <= o && SuperblocksAt(was, at, superblocks)
    ensures SuperblocksAt(now, at, superblocks)
  {
    hide Kept, FieldRow;
    forall t | 0 <= t < |superblocks|
      ensures FieldRow(now, at + 64 * t, 16, superblocks[t].counters)
    {
      FieldRowKept(was, now, o, at + 64 * t, 16, superblocks[t].counters);
    }
  }

  lemma PayloadKept(was: seq<Byte>, now: seq<Byte>, o: nat, p: LevelPlace, v: RSQVector, start: nat)
    requires Kept(was, now, o) && p.end <= o && PayloadAt(was, p, v) && Placed(p, CountsOf(v), start)
    ensures PayloadAt(now, p, v)
  {
    hide Kept, FieldRow, LinesAt, SuperblocksAt;
    PlacedOrder(p, CountsOf(v), start);
    LinesKept(was, now, o, p.offData, v.qv.data);
    SuperblocksKept(was, now, o, p.offSuperblocks, v.rsSupport.superblocks);
    FieldRowKept(was, now, o, p.offSel[0], 4, v.rsSupport.selectSamples[0]);
    FieldRowKept(was, now, o, p.offSel[1], 4, v.rsSupport.selectSamples[1]);
    FieldRowKept(was, now, o, p.offSel[2], 4, v.rsSupport.selectSamples[2]);
    FieldRowKept(was, now, o, p.offSel[3], 4, v.rsSupport.selectSamples[3]);
  }

  method WriteLines(lines: seq<DataLine>, out: array<Byte>, at: nat)
    requires at + 64 * |lines| <= out.Length && forall i :: 0 <= i < |lines| ==> ValidLine(lines[i])
    modifies out
    ensures LinesAt(out[..], at, lines) && Kept(old(out[..]), out[..], at) && Spared(old(out[..]), out[..], at + 64 * |lines|)
  {
    hide Kept, Stands, LineBytes, LineAt, Spared;
    KeptSame(out[..], at);
    SparedSame(out[..], at);
    var i := 0;
    while i < |lines|
      invariant 0 <= i <= |lines|
      invariant LinesAt(out[..], at, lines[..i]) && Kept(old(out[..]), out[..], at) && Spared(old(out[..]), out[..], at + 64 * i)
    {
      ghost var was := out[..];
      Put(out, at + 64 * i, LineBytes(lines[i]));
      SparedBoth(old(out[..]), was, out[..], at + 64 * i, at + 64 * i + 64, at + 64 * (i + 1));
      LineStands(out[..], at + 64 * i, lines[i]);
      LinesKept(was, out[..], at + 64 * i, at, lines[..i]);
      KeptBoth(old(out[..]), was, out[..], at, at + 64 * i);
      i := i + 1;
    }
    assert lines[..|lines|] == lines;
  }

  method WriteSuperblocks(superblocks: seq<SuperblockPlain>, out: array<Byte>, at: nat)
    requires at + 64 * |superblocks| <= out.Length && forall t :: 0 <= t < |superblocks| ==> superblocks[t].Valid()
    modifies out
    ensures SuperblocksAt(out[..], at, superblocks) && Kept(old(out[..]), out[..], at) && Spared(old(out[..]), out[..], at + 64 * |superblocks|)
  {
    hide Kept, FieldRow, Spared;
    KeptSame(out[..], at);
    SparedSame(out[..], at);
    var t := 0;
    while t < |superblocks|
      invariant 0 <= t <= |superblocks|
      invariant SuperblocksAt(out[..], at, superblocks[..t]) && Kept(old(out[..]), out[..], at) && Spared(old(out[..]), out[..], at + 64 * t)
    {
      ghost var was := out[..];
      var o := PutFields(out, at + 64 * t, 16, superblocks[t].counters);
      SparedBoth(old(out[..]), was, out[..], at + 64 * t, o, at + 64 * (t + 1));
      SuperblocksKept(was, out[..], at + 64 * t, at, superblocks[..t]);
      KeptBoth(old(out[..]), was, out[..], at, at + 64 * t);
      t := t + 1;
    }
    assert superblocks[..|superblocks|] == superblocks;
  }

  method WritePayload(v: RSQVector, p: LevelPlace, out: array<Byte>, ghost start: nat)
    requires v.Valid() && Placed(p, CountsOf(v), start) && p.end <= out.Length
    modifies out
    ensures PayloadAt(out[..], p, v) && Kept(old(out[..]), out[..], p.offData) && Spared(old(out[..]), out[..], p.end)
    ensures Blank(old(out[..]), p.offData) ==> PayloadGaps(out[..], p, v)
  {
    PlacedOrder(p, CountsOf(v), start);
    PartsValid(v);
    hide Kept, FieldRow, LinesAt, SuperblocksAt, RSQVector.Valid, Placed, Spared, Blank, PayloadGaps;
    WriteLines(v.qv.data, out, p.offData);
    ghost var b1 := out[..];
    WriteSuperblocks(v.rsSupport.superblocks, out, p.offSuperblocks);
    ghost var b2 := out[..];
    KeptBoth(old(out[..]), b1, b2, p.offData, p.offSuperblocks);
    var samples := v.rsSupport.selectSamples;
    var o := PutFields(out, p.offSel[0], 4, samples[0]);
    ghost var b3 := out[..];
    o := PutFields(out, p.offSel[1], 4, samples[1]);
    ghost var b4 := out[..];
    o := PutFields(out, p.offSel[2], 4, samples[2]);
    ghost var b5 := out[..];
    o := PutFields(out, p.offSel[3], 4, samples[3]);
    SparedBoth(old(out[..]), b1, b2, p.offSuperblocks, p.offSel[0], p.end);
    SparedBoth(old(out[..]), b2, b3, p.end, p.offSel[1], p.end);
    SparedBoth(old(out[..]), b3, b4, p.end, p.offSel[2], p.end);
    SparedBoth(old(out[..]), b4, b5, p.end, p.offSel[3], p.end);
    SparedBoth(old(out[..]), b5, out[..], p.end, o, p.end);
    if Blank(old(out[..]), p.offData) {
      GapsLeft(old(out[..]), b1, b2, b3, b4, b5, out[..], p, v);
    }
    PartsKept(b1, b2, b3, b4, b5, out[..], p, v);
    KeptBoth(old(out[..]), b1, out[..], p.offData, p.offSuperblocks);
  }

  /** Padding between the sections of a level. */
  ghost predicate PayloadGaps(bytes: seq<Byte>, p: LevelPlace, v: RSQVector) {
    && |p.offSel| == 4
    && Zeros(bytes, p.offData + 64 * |v.qv.data|, p.offSuperblocks)
    && Zeros(bytes, p.offSuperblocks + 64 * |v.rsSupport.superblocks|, p.offSel[0])
  }

  lemma GapsLeft(b0: seq<Byte>, b1: seq<Byte>, b2: seq<Byte>, b3: seq<Byte>, b4: seq<Byte>, b5: seq<Byte>, b6: seq<Byte>, p: LevelPlace, v: RSQVector)
    requires |p.offSel| == 4 && Blank(b0, p.offData)
    requires p.offData + 64 * |v.qv.data| <= p.offSuperblocks && p.offSuperblocks + 64 * |v.rsSupport.superblocks| <= p.offSel[0]
    requires p.offSel[0] <= p.offSel[1] <= p.offSel[2] <= p.offSel[3]
    requires Spared(b0, b1, p.offData + 64 * |v.qv.data|) && Spared(b1, b2, p.offSuperblocks + 64 * |v.rsSupport.superblocks|)
    requires Kept(b1, b2, p.offSuperblocks) && Kept(b2, b3, p.offSel[0]) && Kept(b3, b4, p.offSel[1]) && Kept(b4, b5, p.offSel[2]) && Kept(b5, b6, p.offSel[3])
    ensures PayloadGaps(b6, p, v)
  {
    hide Blank, Spared, Kept, Zeros;
    var x, y := p.offData + 64 * |v.qv.data|, p.offSuperblocks + 64 * |v.rsSupport.superblocks|;
    BlankBehind(b0, b1, p.offData, x);
    BlankSkipped(b1, b2, x, p.offSuperblocks);
    BlankBehind(b1, b2, x, y);
    BlankSkipped(b2, b3, y, p.offSel[0]);
    KeptBoth(b4, b5, b6, p.offSel[2], p.offSel[3]);
    KeptBoth(b3, b4, b6, p.offSel[1], p.offSel[2]);
    KeptBoth(b2, b3, b6, p.offSel[0], p.offSel[1]);
    ZerosKept(b2, b6, p.offSel[0], x, p.offSuperblocks);
    ZerosKept(b3, b6, p.offSel[1], y, p.offSel[0]);
  }

  lemma PartsValid(v: RSQVector)
    requires v.Valid()
    ensures |v.rsSupport.selectSamples| == 4 && (forall i :: 0 <= i < |v.qv.data| ==> ValidLine(v.qv.data[i]))
    ensures forall t :: 0 <= t < |v.rsSupport.superblocks| ==> v.rsSupport.superblocks[t].Valid()
  {
    hide SamplesOk;
  }

  lemma PartsKept(b1: seq<Byte>, b2: seq<Byte>, b3: seq<Byte>, b4: seq<Byte>, b5: seq<Byte>, b6: seq<Byte>, p: LevelPlace, v: RSQVector)
    requires |v.rsSupport.selectSamples| == 4 && |p.offSel| == 4
    requires p.offData + 64 * |v.qv.data| <= p.offSuperblocks && p.offSuperblocks + 64 * |v.rsSupport.superblocks| <= p.offSel[0]
    requires p.offSel[0] + 4 * |v.rsSupport.selectSamples[0]| <= p.offSel[1] && p.offSel[1] + 4 * |v.rsSupport.selectSamples[1]| <= p.offSel[2]
    requires p.offSel[2] + 4 * |v.rsSupport.selectSamples[2]| <= p.offSel[3]
    requires Kept(b1, b2, p.offSuperblocks) && Kept(b2, b3, p.offSel[0]) && Kept(b3, b4, p.offSel[1]) && Kept(b4, b5, p.offSel[2]) && Kept(b5, b6, p.offSel[3])
    requires LinesAt(b1, p.offData, v.qv.data) && SuperblocksAt(b2, p.offSuperblocks, v.rsSupport.superblocks)
    requires FieldRow(b3, p.offSel[0], 4, v.rsSupport.selectSamples[0]) && FieldRow(b4, p.offSel[1], 4, v.rsSupport.selectSamples[1])
    requires FieldRow(b5, p.offSel[2], 4, v.rsSupport.selectSamples[2]) && FieldRow(b6, p.offSel[3], 4, v.rsSupport.selectSamples[3])
    ensures PayloadAt(b6, p, v) && Kept(b1, b6, p.offSuperblocks)
  {
    hide Kept, FieldRow, LinesAt, SuperblocksAt;
    KeptBoth(b4, b5, b6, p.offSel[2], p.offSel[3]);
    KeptBoth(b3, b4, b6, p.offSel[1], p.offSel[2]);
    KeptBoth(b2, b3, b6, p.offSel[0], p.offSel[1]);
    KeptBoth(b1, b2, b6, p.offSuperblocks, p.offSel[0]);
    LinesKept(b1, b6, p.offSuperblocks, p.offData, v.qv.data);
    SuperblocksKept(b2, b6, p.offSel[0], p.offSuperblocks, v.rsSupport.superblocks);
    FieldRowKept(b3, b6, p.offSel[1], p.offSel[0], 4, v.rsSupport.selectSamples[0]);
    FieldRowKept(b4, b6, p.offSel[2], p.offSel[1], 4, v.rsSupport.selectSamples[1]);
    FieldRowKept(b5, b6, p.offSel[3], p.offSel[2], 4, v.rsSupport.selectSamples[2]);
  }

  // ---- Reading a level ----

  /** `checked_region` */
  function InBounds(off: nat, count: nat, size: nat, len: nat): bool {
    off + count * size <= len
  }

  lemma LineIsValid(bytes: seq<Byte>, at: nat, line: DataLine)
    requires LineAt(bytes, at, line)
    ensures ValidLine(line)
  {}

  /** Copies lines out of the buffer. */
  method ReadLines(bytes: seq<Byte>, off: nat, n: nat) returns (lines: seq<DataLine>)
    requires off + n * 64 <= |bytes|
    ensures |lines| == n && LinesAt(bytes, off, lines) && forall i :: 0 <= i < n ==> ValidLine(lines[i])
    ensures forall x: seq<DataLine> :: |x| == n && LinesAt(bytes, off, x) ==> lines == x
  {
    hide LineAt, LineOfBytes;
    lines := [];
    var i := 0;
    while i < n
      invariant 0 <= i <= n && |lines| == i && LinesAt(bytes, off, lines)
    {
      LineInSlice(bytes, off + 64 * i, LineOfBytes(bytes[off + 64 * i..off + 64 * i + 64]));
      lines := lines + [LineOfBytes(bytes[off + 64 * i..off + 64 * i + 64])];
      i := i + 1;
    }
    forall x: seq<DataLine> | |x| == n && LinesAt(bytes, off, x)
      ensures lines == x
    {
      forall k | 0 <= k < n
        ensures lines[k] == x[k]
      {
        assert LineAt(bytes, off + 64 * k, x[k]) && LineAt(bytes, off + 64 * k, lines[k]);
        LineOnce(bytes, off + 64 * k, lines[k], x[k]);
      }
    }
    forall i | 0 <= i < n
      ensures ValidLine(lines[i])
    {
      LineIsValid(bytes, off + 64 * i, lines[i]);
    }
  }

  /** What a reader demands of an entry: aligned regions inside the buffer, and no more symbols than its lines hold. */
  ghost predicate Usable(dir: LevelDir, len: nat)
    requires dir.Shape()
  {
    && dir.offData % 64 == 0 && dir.offData + dir.nDatalines * 64 <= len
    && dir.positionBits % 2 == 0 && dir.positionBits <= dir.nDatalines * 512
    && dir.offSuperblocks % 64 == 0 && dir.offSuperblocks + dir.nSuperblocks * 64 <= len
    && forall s :: 0 <= s < 4 ==> dir.offSel[s] + dir.nSel[s] * 4 <= len
  }

  /** The quad vector that an entry names. */
  ghost predicate VectorNamed(bytes: seq<Byte>, dir: LevelDir, qv: QVector) {
    && dir.Shape() && Usable(dir, |bytes|)
    && |qv.data| == dir.nDatalines && qv.position == dir.positionBits && LinesAt(bytes, dir.offData, qv.data)
  }

  lemma VectorOnce(bytes: seq<Byte>, dir: LevelDir, a: QVector, b: QVector)
    requires VectorNamed(bytes, dir, a) && VectorNamed(bytes, dir, b)
    ensures a == b
  {
    hide LineAt;
    forall i | 0 <= i < |a.data|
      ensures a.data[i] == b.data[i]
    {
      LineOnce(bytes, dir.offData + 64 * i, a.data[i], b.data[i]);
    }
  }

  /**
   The quad vector of a directory entry. The stored counters are only measured:
   rank and select support is rebuilt from the symbols.
   */
  method ReadVector(bytes: seq<Byte>, dir: LevelDir, b: nat) returns (r: Option<RSQVector>)
    requires BlockSize(b) && dir.Fits()
    ensures r.Some? <==> Usable(dir, |bytes|)
    ensures r.Some? ==> Rebuilt(r.value, b) && VectorNamed(bytes, dir, r.value.qv)
  {
    hide IsFinalSuperblocks, IsFinalSamples, RSQVector.Valid, LinesAt;
    if dir.offData % 64 != 0 || !InBounds(dir.offData, dir.nDatalines, 64, |bytes|) {
      return None;
    }
    var lines := ReadLines(bytes, dir.offData, dir.nDatalines);
    if dir.positionBits % 2 != 0 || dir.positionBits > dir.nDatalines * 512 {
      return None;
    }
    var ok := SupportInBounds(dir, |bytes|);
    if !ok {
      return None;
    }
    var qv := QVector(lines, dir.positionBits);
    Widths();
    var vector := FromQVector(qv, b);
    return Some(vector);
  }

  method SupportInBounds(dir: LevelDir, len: nat) returns (ok: bool)
    requires dir.Shape()
    ensures ok <==>
      && dir.offSuperblocks % 64 == 0 && dir.offSuperblocks + dir.nSuperblocks * 64 <= len
      && forall s :: 0 <= s < 4 ==> dir.offSel[s] + dir.nSel[s] * 4 <= len
  {
    if dir.offSuperblocks % 64 != 0 || !InBounds(dir.offSuperblocks, dir.nSuperblocks, 64, len) {
      return false;
    }
    var s := 0;
    while s < 4
      invariant 0 <= s <= 4 && forall k :: 0 <= k < s ==> dir.offSel[k] + dir.nSel[k] * 4 <= len
    {
      if !InBounds(dir.offSel[s], dir.nSel[s], 4, len) {
        return false;
      }
      s := s + 1;
    }
    return true;
  }

  /** The entry and the payload of level `v` at place `p`. */
  ghost predicate Reads(bytes: seq<Byte>, dir: LevelDir, v: RSQVector, p: LevelPlace) {
    && v.Valid() && |v.rsSupport.selectSamples| == 4
    && dir == DirOf(v, p) && PayloadAt(bytes, p, v) && p.end <= |bytes| && exists start: nat :: Placed(p, CountsOf(v), start)
  }

  /** A written level is named by its entry. */
  lemma ReadsNamed(bytes: seq<Byte>, v: RSQVector, p: LevelPlace)
    requires |v.rsSupport.selectSamples| == 4 && DirOf(v, p).Fits() && Reads(bytes, DirOf(v, p), v, p)
    ensures VectorNamed(bytes, DirOf(v, p), v.qv)
  {
    hide SuperblocksAt, LinesAt, FieldRow;
    var start: nat :| Placed(p, CountsOf(v), start);
    PlacedOrder(p, CountsOf(v), start);
  }
}
