/** The container of the Huffman-shaped tree: what is written reads back as the same tree. */
module HqwbFormat {
  import opened Wrappers
  import opened Arithmetic
  import opened RankSelect
  import opened Words
  import opened CraftCodes
  import opened QuadVector
  import opened RankSupport
  import opened BuildSupport
  import opened RSQVectors
  import PartitionInto
  import opened CodeTables
  import opened DecodeTables
  import opened QuadWavelet
  import opened BuildQuadWavelet
  import opened HuffPaths
  import opened HuffWavelet
  import opened HuffParts
  import opened HuffAssembly
  import opened LevelPlaces
  import opened ByteCodec
  import opened LevelBytes
  import opened Containers
  import opened CodeTableBytes
  import opened QwtbFormat

  const HUFF_MAGIC: seq<Byte> := [0x48, 0x51, 0x57, 0x42]

  ghost predicate HuffHeaderAt(bytes: seq<Byte>, b: nat, tWidth: nat, n: nat, nLevels: nat, encodeLen: nat, buckets: nat) {
    && PreambleAt(bytes, HUFF_MAGIC, b, tWidth)
    && Field(bytes, 8, 8, n) && Field(bytes, 16, 2, nLevels) && Field(bytes, 18, 2, encodeLen) && Field(bytes, 20, 2, buckets)
  }

  /** Where the encode table starts, 8-aligned behind the directory. */
  function TablesStart(nLevels: nat): (r: nat)
    ensures HEADER_SIZE + HQWT_DIR_SIZE * nLevels <= r < HEADER_SIZE + HQWT_DIR_SIZE * nLevels + 8 && r % 8 == 0
  {
    AlignUp(HEADER_SIZE + HQWT_DIR_SIZE * nLevels, 8)
  }

  /** Where the payloads may start. */
  ghost function TablesEnd(t: HuffQWaveletTree): nat {
    TablesStart(t.nLevels) + 8 * |t.codesEncode| + TableSize(t.codesDecode)
  }

  /** All bytes that a reader looks at. */
  ghost predicate HuffImage(bytes: seq<Byte>, t: HuffQWaveletTree, b: nat, tWidth: nat, places: seq<LevelPlace>)
    requires |t.qvs| >= t.nLevels && |t.lens| >= t.nLevels
  {
    var qvs := t.qvs[..t.nLevels];
    && TablesEnd(t) <= |bytes|
    && HuffHeaderAt(bytes, b, tWidth, t.n, t.nLevels, |t.codesEncode|, |t.codesDecode|)
    && DirectoryAt(bytes, HQWT_DIR_SIZE, qvs, places, t.lens[..t.nLevels])
    && CodesAt(bytes, TablesStart(t.nLevels), t.codesEncode)
    && TableAt(bytes, TablesStart(t.nLevels) + 8 * |t.codesEncode|, t.codesDecode)
    && PayloadsAt(bytes, qvs, places)
    && (forall l :: 0 <= l < t.nLevels ==> |qvs[l].rsSupport.selectSamples| == 4)
    && AllPlaced(places, AllCountsOf(qvs), TablesEnd(t))
  }

  // ---- Writing ----

  method WriteHeader(out: array<Byte>, b: nat, tWidth: nat, n: nat, nLevels: nat, encodeLen: nat, buckets: nat)
    requires out.Length >= HEADER_SIZE
    modifies out
    ensures HuffHeaderAt(out[..], b, tWidth, n, nLevels, encodeLen, buckets) && Spared(old(out[..]), out[..], 22)
  {
    hide Field, Kept, PreambleAt, Spared;
    WritePreamble(out, HUFF_MAGIC, b, tWidth);
    ghost var b1 := out[..];
    var o := PutField(out, 8, 8, n);
    ghost var b2 := out[..];
    o := PutField(out, o, 2, nLevels);
    ghost var b3 := out[..];
    o := PutField(out, o, 2, encodeLen);
    ghost var b4 := out[..];
    o := PutField(out, o, 2, buckets);
    SparedBoth(old(out[..]), b1, b2, 8, 16, 22);
    SparedBoth(old(out[..]), b2, b3, 22, 18, 22);
    SparedBoth(old(out[..]), b3, b4, 22, 20, 22);
    SparedBoth(old(out[..]), b4, out[..], 22, 22, 22);
    KeptBoth(b3, b4, out[..], 18, 20);
    KeptBoth(b2, b3, out[..], 16, 18);
    KeptBoth(b1, b2, out[..], 8, 16);
    PreambleKept(b1, out[..], 8, HUFF_MAGIC, b, tWidth);
    FieldKept(b2, out[..], 16, 8, 8, n);
    FieldKept(b3, out[..], 18, 16, 2, nLevels);
    FieldKept(b4, out[..], 20, 18, 2, encodeLen);
  }

  lemma HuffHeaderKept(was: seq<Byte>, now: seq<Byte>, o: nat, b: nat, tWidth: nat, n: nat, nLevels: nat, encodeLen: nat, buckets: nat)
    requires HuffHeaderAt(was, b, tWidth, n, nLevels, encodeLen, buckets) && Kept(was, now, o) && HEADER_SIZE <= o
    ensures HuffHeaderAt(now, b, tWidth, n, nLevels, encodeLen, buckets)
  {
    hide Field, Kept, PreambleAt;
    PreambleKept(was, now, o, HUFF_MAGIC, b, tWidth);
    FieldKept(was, now, o, 8, 8, n);
    FieldKept(was, now, o, 16, 2, nLevels);
    FieldKept(was, now, o, 18, 2, encodeLen);
    FieldKept(was, now, o, 20, 2, buckets);
  }

  /** Every byte outside of header fields, entries, tables and payloads is zero. */
  ghost predicate HuffPadded(bytes: seq<Byte>, t: HuffQWaveletTree, places: seq<LevelPlace>)
    requires |t.qvs| >= t.nLevels
  {
    && Zeros(bytes, 22, HEADER_SIZE) && Zeros(bytes, HEADER_SIZE + HQWT_DIR_SIZE * t.nLevels, TablesStart(t.nLevels))
    && PaddedTo(bytes, t.qvs[..t.nLevels], places, TablesEnd(t), t.nLevels)
  }

  /** `None` when a table is too long for its 16-bit length. */
  method ToBytes(t: HuffQWaveletTree, b: nat, tWidth: nat) returns (r: Option<array<Byte>>, places: seq<LevelPlace>)
    requires BlockSize(b) && AllLevelsValid(t.qvs) && |t.qvs| >= t.nLevels && |t.lens| >= t.nLevels
    ensures r.Some? <==> |t.codesEncode| < Pow256(2) && |t.codesDecode| < Pow256(2)
    ensures r.Some? ==> fresh(r.value) && HuffImage(r.value[..], t, b, tWidth, places) && HuffPadded(r.value[..], t, places)
    ensures r.Some? ==> |places| == t.nLevels && r.value.Length == CursorAt(places, TablesEnd(t), t.nLevels)
    ensures r.Some? ==> forall l :: 0 <= l < t.nLevels ==> EntrySpelled(r.value[..], HEADER_SIZE + HQWT_DIR_SIZE * l, t.qvs[l], places[l])
    ensures r.Some? && (forall l :: 0 <= l < t.nLevels ==> |t.qvs[l].rsSupport.selectSamples| == 4 && CountsOf(t.qvs[l]).Bytes() <= LEVEL_BYTES) ==>
      r.value.Length <= TablesEnd(t) + t.nLevels * (LEVEL_BYTES + 128)
  {
    hide Kept, HuffHeaderAt, DirectoryAt, PayloadsAt, AllPlaced, RSQVector.Valid, DirShape, AlignUp, TableSize, CodesAt, TableAt, Spared, Blank, PaddedTo, EntrySpelled, Zeros, LevelCounts.Bytes, CursorAt;
    Widths();
    places := [];
    if |t.codesEncode| > 0xFFFF || |t.codesDecode| > 0xFFFF {
      return None, places;
    }
    var qvs := t.qvs[..t.nLevels];
    LevelsHaveSamples(qvs);
    var offEncode := TablesStart(t.nLevels);
    var offDecode := offEncode + 8 * |t.codesEncode|;
    var start := offDecode + TableSize(t.codesDecode);
    var cursor;
    places, cursor := PlaceLevels(AllCountsOf(qvs), start, LEVEL_BYTES);
    ShapesOf(qvs, places, start);
    var out := new Byte[cursor](_ => 0);
    ghost var b0 := out[..];
    AllZero(b0);
    WriteHeader(out, b, tWidth, t.n, t.nLevels, |t.codesEncode|, |t.codesDecode|);
    ghost var b1 := out[..];
    WriteDirectory(qvs, places, t.lens[..t.nLevels], HQWT_DIR_SIZE, out);
    ghost var b2 := out[..];
    WriteCodes(t.codesEncode, out, offEncode);
    ghost var b3 := out[..];
    WriteTable(t.codesDecode, out, offDecode);
    ghost var b4 := out[..];
    WritePayloads(qvs, places, start, out);
    SectionsKept(t, b, tWidth, places, b1, b2, b3, b4, out[..]);
    TablesPadded(t, b0, b1, b2, b3, b4, out[..]);
    AllSpelled(out[..], HQWT_DIR_SIZE, qvs, places, t.lens[..t.nLevels]);
    r := Some(out);
  }

  /** Padding behind the header and behind the directory; none behind the tables yet. */
  lemma TablesPadded(t: HuffQWaveletTree, b0: seq<Byte>, b1: seq<Byte>, b2: seq<Byte>, b3: seq<Byte>, b4: seq<Byte>, b5: seq<Byte>)
    requires Blank(b0, 0) && Spared(b0, b1, 22) && Kept(b1, b2, HEADER_SIZE) && Spared(b1, b2, HEADER_SIZE + HQWT_DIR_SIZE * t.nLevels)
    requires Kept(b2, b3, TablesStart(t.nLevels)) && Spared(b2, b3, TablesStart(t.nLevels) + 8 * |t.codesEncode|)
    requires Kept(b3, b4, TablesStart(t.nLevels) + 8 * |t.codesEncode|) && Spared(b3, b4, TablesEnd(t)) && Kept(b4, b5, TablesEnd(t))
    ensures Zeros(b5, 22, HEADER_SIZE) && Zeros(b5, HEADER_SIZE + HQWT_DIR_SIZE * t.nLevels, TablesStart(t.nLevels)) && Blank(b4, TablesEnd(t))
  {
    var start := TablesStart(t.nLevels);
    var mid := start + 8 * |t.codesEncode|;
    var end := TablesEnd(t);
    hide TablesStart, TableSize, Blank, Spared, Kept, Zeros;
    StartBehindDirectory(t.nLevels);
    SectionsPadded(b0, b1, b2, b3, 22, HEADER_SIZE + HQWT_DIR_SIZE * t.nLevels, start);
    BlankBehind(b2, b3, start, mid);
    BlankBehind(b3, b4, mid, end);
    KeptBoth(b3, b4, b5, mid, end);
    ZerosKept(b3, b5, mid, 22, HEADER_SIZE);
    ZerosKept(b3, b5, mid, HEADER_SIZE + HQWT_DIR_SIZE * t.nLevels, start);
  }

  /** Every section outlives the writes behind it. */
  lemma SectionsKept(t: HuffQWaveletTree, b: nat, tWidth: nat, places: seq<LevelPlace>,
                     b1: seq<Byte>, b2: seq<Byte>, b3: seq<Byte>, b4: seq<Byte>, b5: seq<Byte>)
    requires |t.qvs| >= t.nLevels && |t.lens| >= t.nLevels
    requires HuffHeaderAt(b1, b, tWidth, t.n, t.nLevels, |t.codesEncode|, |t.codesDecode|) && Kept(b1, b2, HEADER_SIZE)
    requires DirectoryAt(b2, HQWT_DIR_SIZE, t.qvs[..t.nLevels], places, t.lens[..t.nLevels]) && Kept(b2, b3, TablesStart(t.nLevels))
    requires CodesAt(b3, TablesStart(t.nLevels), t.codesEncode) && Kept(b3, b4, TablesStart(t.nLevels) + 8 * |t.codesEncode|)
    requires TableAt(b4, TablesStart(t.nLevels) + 8 * |t.codesEncode|, t.codesDecode) && Kept(b4, b5, TablesEnd(t))
    ensures HuffHeaderAt(b5, b, tWidth, t.n, t.nLevels, |t.codesEncode|, |t.codesDecode|)
    ensures DirectoryAt(b5, HQWT_DIR_SIZE, t.qvs[..t.nLevels], places, t.lens[..t.nLevels])
    ensures CodesAt(b5, TablesStart(t.nLevels), t.codesEncode)
    ensures TableAt(b5, TablesStart(t.nLevels) + 8 * |t.codesEncode|, t.codesDecode)
  {
    var start := TablesStart(t.nLevels);
    var mid := start + 8 * |t.codesEncode|;
    var end := TablesEnd(t);
    hide TablesStart, TableSize, HuffHeaderAt, DirectoryAt, CodesAt, TableAt, Kept;
    StartBehindDirectory(t.nLevels);
    KeptBoth(b3, b4, b5, mid, end);
    KeptBoth(b2, b3, b5, start, mid);
    KeptBoth(b1, b2, b5, HEADER_SIZE, start);
    HuffHeaderKept(b1, b5, HEADER_SIZE, b, tWidth, t.n, t.nLevels, |t.codesEncode|, |t.codesDecode|);
    DirectoryOfTree(b2, b5, start, t, places);
    CodesKept(b3, b5, mid, start, t.codesEncode);
    TableKept(b4, b5, end, mid, t.codesDecode);
  }

  lemma DirectoryOfTree(was: seq<Byte>, now: seq<Byte>, o: nat, t: HuffQWaveletTree, places: seq<LevelPlace>)
    requires |t.qvs| >= t.nLevels && |t.lens| >= t.nLevels && Kept(was, now, o) && HEADER_SIZE + HQWT_DIR_SIZE * t.nLevels <= o
    requires DirectoryAt(was, HQWT_DIR_SIZE, t.qvs[..t.nLevels], places, t.lens[..t.nLevels])
    ensures DirectoryAt(now, HQWT_DIR_SIZE, t.qvs[..t.nLevels], places, t.lens[..t.nLevels])
  {
    hide DirectoryAt, Kept;
    DirectoryKept(was, now, o, HQWT_DIR_SIZE, t.qvs[..t.nLevels], places, t.lens[..t.nLevels]);
  }

  // ---- Reading ----

  /** Numbers of the header: rows, levels, codes, buckets. */
  datatype HuffHeader = HuffHeader(n: nat, nLevels: nat, encodeLen: nat, buckets: nat)

  /** The numbers that the header names. */
  ghost predicate HuffHeaderNamed(bytes: seq<Byte>, b: nat, tWidth: nat, h: HuffHeader) {
    && Preamble(bytes, HUFF_MAGIC, b, tWidth)
    && h.n < Pow256(8) && Field(bytes, 8, 8, h.n)
    && h.nLevels < Pow256(2) && Field(bytes, 16, 2, h.nLevels)
    && h.encodeLen < Pow256(2) && Field(bytes, 18, 2, h.encodeLen)
    && h.buckets < Pow256(2) && Field(bytes, 20, 2, h.buckets)
  }

  lemma HeaderReadOnce(bytes: seq<Byte>, b: nat, tWidth: nat, g: HuffHeader, h: HuffHeader)
    requires HuffHeaderNamed(bytes, b, tWidth, g) && HuffHeaderNamed(bytes, b, tWidth, h)
    ensures g == h
  {
    hide Preamble, Field, Pow256;
    FieldOnce(bytes, 8, 8, g.n, h.n);
    FieldOnce(bytes, 16, 2, g.nLevels, h.nLevels);
    FieldOnce(bytes, 18, 2, g.encodeLen, h.encodeLen);
    FieldOnce(bytes, 20, 2, g.buckets, h.buckets);
  }

  method ReadHeader(bytes: seq<Byte>, b: nat, tWidth: nat) returns (r: Option<HuffHeader>)
    requires BlockSize(b) && TypeWidth(tWidth)
    ensures r.Some? <==> Preamble(bytes, HUFF_MAGIC, b, tWidth)
    ensures r.Some? ==> HuffHeaderNamed(bytes, b, tWidth, r.value)
  {
    hide Field, GetField;
    var ok := ReadPreamble(bytes, HUFF_MAGIC, b, tWidth);
    if !ok {
      return None;
    }
    return Some(HuffHeader(GetField(bytes, 8, 8), GetField(bytes, 16, 2), GetField(bytes, 18, 2), GetField(bytes, 20, 2)));
  }

  /** A tree whose numbers all fit their fields. */
  ghost predicate HuffFieldsFit(t: HuffQWaveletTree, tWidth: nat, places: seq<LevelPlace>)
    requires |t.qvs| >= t.nLevels && |t.lens| >= t.nLevels
  {
    && t.n < Pow256(8) && t.nLevels < Pow256(2) && |t.codesEncode| < Pow256(2) && |t.codesDecode| < Pow256(2)
    && CodesFit(t.codesEncode) && TableFits(t.codesDecode, tWidth) && |places| == t.nLevels
    && forall l :: 0 <= l < t.nLevels ==>
         |t.qvs[l].rsSupport.selectSamples| == 4 && DirOf(t.qvs[l], places[l]).Fits() && t.lens[l] < Pow256(8)
  }

  /** The bytes are the image of an acceptable tree that fits the format. */
  ghost predicate HuffWritten(bytes: seq<Byte>, t: HuffQWaveletTree, b: nat, tWidth: nat, places: seq<LevelPlace>) {
    && AllLevelsValid(t.qvs) && |t.qvs| >= t.nLevels && |t.lens| >= t.nLevels
    && OwnedAcceptable(t.n, t.nLevels, t.codesEncode, t.codesDecode, t.qvs, t.lens)
    && HuffImage(bytes, t, b, tWidth, places) && HuffFieldsFit(t, tWidth, places)
  }

  /** The same code tables, and on every level the same symbols and length. */
  ghost predicate SameParts(a: HuffQWaveletTree, t: HuffQWaveletTree) {
    && a.n == t.n && a.nLevels == t.nLevels && a.codesEncode == t.codesEncode && a.codesDecode == t.codesDecode
    && (t.n > 0 ==> a.lens == t.lens && SameVectors(a.qvs, t.qvs))
  }

  /** Everything that a container names. */
  datatype Parts = Parts(n: nat, nLevels: nat, encode: seq<PrefixCode>, decode: seq<seq<Entry>>, vectors: seq<QVector>, lens: seq<nat>) {
    function Header(): HuffHeader {
      HuffHeader(n, nLevels, |encode|, |decode|)
    }
  }

  /** What the bytes name, before levels and tables are checked as a tree. */
  ghost predicate PartsNamed(bytes: seq<Byte>, b: nat, tWidth: nat, p: Parts) {
    && HuffHeaderNamed(bytes, b, tWidth, p.Header())
    && p.nLevels <= MAX_QUAD_LEVELS && (p.n > 0 ==> p.nLevels > 0)
    && TablesStart(p.nLevels) + 8 * |p.encode| <= |bytes| && HEADER_SIZE + HQWT_DIR_SIZE * p.nLevels <= |bytes|
    && CodesFit(p.encode) && CodesAt(bytes, TablesStart(p.nLevels), p.encode)
    && TableFits(p.decode, tWidth) && TableAt(bytes, TablesStart(p.nLevels) + 8 * |p.encode|, p.decode)
    && |p.vectors| == p.nLevels && LevelsNamed(bytes, HQWT_DIR_SIZE, p.vectors, p.lens)
  }

  lemma PartsOnce(bytes: seq<Byte>, b: nat, tWidth: nat, p: Parts, q: Parts)
    requires PartsNamed(bytes, b, tWidth, p) && PartsNamed(bytes, b, tWidth, q)
    ensures p == q
  {
    hide HuffHeaderNamed, CodesFit, CodesAt, TableFits, TableAt, LevelsNamed, TablesStart;
    HeaderReadOnce(bytes, b, tWidth, p.Header(), q.Header());
    CodesReadOnce(bytes, TablesStart(p.nLevels), p.encode, q.encode);
    TableReadOnce(bytes, TablesStart(p.nLevels) + 8 * |p.encode|, p.decode, q.decode, tWidth, |p.decode|);
    assert p.decode[..|p.decode|] == p.decode && q.decode[..|p.decode|] == q.decode;
    LevelsOnce(bytes, HQWT_DIR_SIZE, p.vectors, p.lens, q.vectors, q.lens);
  }

  /** Header, tables, directory and payload of a container; support is rebuilt from the symbols. */
  method ReadParts(bytes: seq<Byte>, b: nat, tWidth: nat)
    returns (ok: bool, n: nat, nLevels: nat, encode: seq<PrefixCode>, decode: seq<seq<Entry>>, qvs: seq<RSQVector>, lens: seq<nat>)
    requires BlockSize(b) && TypeWidth(tWidth)
    ensures ok ==> PartsNamed(bytes, b, tWidth, Parts(n, nLevels, encode, decode, VectorsOf(qvs), lens)) && forall l :: 0 <= l < |qvs| ==> Rebuilt(qvs[l], b)
    ensures !ok ==> forall p: Parts :: !PartsNamed(bytes, b, tWidth, p)
  {
    hide HuffHeaderNamed, Preamble, LevelsNamed, Pow256, Rebuilt, CodesFit, CodesAt, TableFits, TableAt, TablesStart;
    ok, n, nLevels, encode, decode, qvs, lens := false, 0, 0, [], [], [], [];
    var header := ReadHeader(bytes, b, tWidth);
    forall p: Parts | PartsNamed(bytes, b, tWidth, p)
      ensures header == Some(p.Header())
    {
      HeaderOfParts(bytes, b, tWidth, p);
      if header.Some? {
        HeaderReadOnce(bytes, b, tWidth, p.Header(), header.value);
      }
    }
    if header.None? {
      return;
    }
    var encodeLen, buckets := header.value.encodeLen, header.value.buckets;
    n, nLevels := header.value.n, header.value.nLevels;
    if nLevels > MAX_QUAD_LEVELS || (n > 0 && nLevels == 0) {
      return;
    }
    StartBehindDirectory(nLevels);
    if |bytes| < HEADER_SIZE + HQWT_DIR_SIZE * nLevels {
      return;
    }
    var at := TablesStart(nLevels);
    if !InBounds(at, encodeLen, 8, |bytes|) {
      return;
    }
    encode := ReadCodes(bytes, at, encodeLen);
    var table := ReadTable(bytes, at + 8 * encodeLen, buckets, tWidth);
    if table.None? {
      return;
    }
    decode := table.value;
    var levels;
    levels, lens := ReadLevels(bytes, nLevels, HQWT_DIR_SIZE, b);
    if levels.None? {
      return;
    }
    qvs := levels.value;
    ok := true;
  }

  lemma HeaderOfParts(bytes: seq<Byte>, b: nat, tWidth: nat, p: Parts)
    requires PartsNamed(bytes, b, tWidth, p)
    ensures HuffHeaderNamed(bytes, b, tWidth, p.Header()) && Preamble(bytes, HUFF_MAGIC, b, tWidth)
  {
    hide CodesFit, CodesAt, TableFits, TableAt, LevelsNamed, TablesStart, Preamble;
  }

  /** What a tree keeps of a container; the sentinel level of an empty tree is not written. */
  ghost function PartsOf(t: HuffQWaveletTree): Parts {
    if t.nLevels == 0 then Parts(t.n, 0, t.codesEncode, t.codesDecode, [], [])
    else Parts(t.n, t.nLevels, t.codesEncode, t.codesDecode, VectorsOf(t.qvs), t.lens)
  }

  /** The tree that the bytes describe: their numbers, tables and quad vectors, with fresh support, accepted as a tree. */
  ghost predicate Described(bytes: seq<Byte>, t: HuffQWaveletTree, b: nat, tWidth: nat)
    requires BlockSize(b)
  {
    && AllLevelsValid(t.qvs) && OwnedAcceptable(t.n, t.nLevels, t.codesEncode, t.codesDecode, t.qvs, t.lens)
    && PartsNamed(bytes, b, tWidth, PartsOf(t))
    && if t.nLevels == 0 then Default(t.qvs, b) && t.lens == [0] else forall l :: 0 <= l < |t.qvs| ==> Rebuilt(t.qvs[l], b)
  }

  /**
   Reads a container; everything but symbols, lengths and tables is rebuilt and the tree is checked as untrusted.
   Accepts exactly the bytes that describe a tree, and returns that tree.
   */
  method FromBytes(bytes: seq<Byte>, b: nat, tWidth: nat) returns (r: Option<HuffQWaveletTree>)
    requires BlockSize(b) && TypeWidth(tWidth)
    ensures forall t: HuffQWaveletTree :: r == Some(t) <==> Described(bytes, t, b, tWidth)
    ensures r.Some? && r.value.n == 0 ==> r.value.Serves([])
    ensures r.Some? && r.value.n > 0 ==>
      && AllLevelsValid(r.value.qvs)
      && OwnedAcceptable(r.value.n, r.value.nLevels, r.value.codesEncode, r.value.codesDecode, r.value.qvs, r.value.lens)
      && r.value.Serves(TextOf(r.value.codesDecode, PathRows(ContentsOf(r.value.qvs), r.value.n)))
    ensures forall t: HuffQWaveletTree, places: seq<LevelPlace> :: HuffWritten(bytes, t, b, tWidth, places) ==> r.Some? && SameParts(r.value, t)
  {
    hide HuffWritten, Described, PartsNamed, Rebuilt, Default, OwnedAcceptable, HuffQWaveletTree.Serves, TextOf, PathRows, RowsDecode, PartsOf, VectorsOf, SameParts;
    r := None;
    var ok, n, nLevels, encode, decode, levels, lens := ReadParts(bytes, b, tWidth);
    ghost var p := Parts(n, nLevels, encode, decode, VectorsOf(levels), lens);
    forall t: HuffQWaveletTree, places: seq<LevelPlace> | HuffWritten(bytes, t, b, tWidth, places)
      ensures ok
    {
      WrittenParts(bytes, t, b, tWidth, places);
    }
    if !ok {
      forall t: HuffQWaveletTree
        ensures !Described(bytes, t, b, tWidth)
      {
        DescribedParts(bytes, t, b, tWidth);
      }
      return;
    }
    RebuiltValid(levels, b);
    PartsShape(bytes, b, tWidth, p);
    ContentsFit(encode);
    r := OwnedFromParts(n, nLevels, encode, decode, levels, lens, b);
    EmptyIsFlat(n, nLevels, encode, decode, levels, lens);
    if r.Some? {
      IsDescribed(bytes, b, tWidth, r.value, levels, lens);
    }
    forall t: HuffQWaveletTree | Described(bytes, t, b, tWidth)
      ensures r.Some? && r.value == t
    {
      OnlyDescribed(bytes, t, b, tWidth, n, nLevels, encode, decode, levels, lens);
      SameTreeRead(r.value, t, b, levels, lens);
    }
    forall t: HuffQWaveletTree, places: seq<LevelPlace> | HuffWritten(bytes, t, b, tWidth, places)
      ensures r.Some? && SameParts(r.value, t)
    {
      WrittenIsRead(bytes, t, b, tWidth, places, p, levels);
      HuffWrittenAcceptable(bytes, t, b, tWidth, places, levels, lens);
      WrittenSame(r.value, t, levels, lens);
    }
  }

  lemma PartsShape(bytes: seq<Byte>, b: nat, tWidth: nat, p: Parts)
    requires PartsNamed(bytes, b, tWidth, p)
    ensures |p.vectors| == |p.lens| == p.nLevels && CodesFit(p.encode) && (p.n > 0 ==> p.nLevels > 0)
  {
    hide HuffHeaderNamed, CodesFit, CodesAt, TableFits, TableAt, TablesStart, LevelNamed;
  }

  lemma IsDescribed(bytes: seq<Byte>, b: nat, tWidth: nat, t: HuffQWaveletTree, levels: seq<RSQVector>, lens: seq<nat>)
    requires BlockSize(b) && PartsNamed(bytes, b, tWidth, Parts(t.n, t.nLevels, t.codesEncode, t.codesDecode, VectorsOf(levels), lens))
    requires |levels| == |lens| == t.nLevels && AllLevelsValid(levels) && forall l :: 0 <= l < |levels| ==> Rebuilt(levels[l], b)
    requires OwnedAcceptable(t.n, t.nLevels, t.codesEncode, t.codesDecode, levels, lens)
    requires if t.n == 0 then t.nLevels == 0 && Default(t.qvs, b) && t.lens == [0] else t.qvs == levels && t.lens == lens
    ensures Described(bytes, t, b, tWidth)
  {
    hide PartsNamed, Rebuilt, TablesAgree, RowsDecode, PathsFit, LengthsMatch, PathRows, RSQVector.Valid;
    if t.n == 0 {
      assert VectorsOf(levels) == [] && lens == [];
      RebuiltIsValid(t.qvs[0], b);
    }
  }

  lemma RebuiltIsValid(v: RSQVector, b: nat)
    requires BlockSize(b) && Rebuilt(v, b)
    ensures v.Valid()
  {}

  lemma DescribedParts(bytes: seq<Byte>, t: HuffQWaveletTree, b: nat, tWidth: nat)
    requires BlockSize(b)
    ensures Described(bytes, t, b, tWidth) ==> PartsNamed(bytes, b, tWidth, PartsOf(t))
  {
    hide PartsNamed, Rebuilt, Default, OwnedAcceptable, PartsOf;
  }

  lemma OnlyDescribed(bytes: seq<Byte>, t: HuffQWaveletTree, b: nat, tWidth: nat, n: nat, nLevels: nat, encode: seq<PrefixCode>,
                      decode: seq<seq<Entry>>, levels: seq<RSQVector>, lens: seq<nat>)
    requires BlockSize(b) && Described(bytes, t, b, tWidth) && AllLevelsValid(levels) && |levels| == |lens| == nLevels
    requires PartsNamed(bytes, b, tWidth, Parts(n, nLevels, encode, decode, VectorsOf(levels), lens))
    requires forall l :: 0 <= l < |levels| ==> Rebuilt(levels[l], b)
    ensures t.n == n && t.nLevels == nLevels && t.codesEncode == encode && t.codesDecode == decode
    ensures OwnedAcceptable(n, nLevels, encode, decode, levels, lens)
    ensures if nLevels == 0 then Default(t.qvs, b) && t.lens == [0] && n == 0 else t.qvs == levels && t.lens == lens && n > 0
  {
    hide PartsNamed, Rebuilt, Default, TablesAgree, RowsDecode, PathsFit, LengthsMatch, PathRows, RSQVector.Valid;
    PartsOnce(bytes, b, tWidth, Parts(n, nLevels, encode, decode, VectorsOf(levels), lens), PartsOf(t));
    if nLevels > 0 {
      assert |t.qvs| == |VectorsOf(t.qvs)| == |levels|;
      forall l | 0 <= l < |levels|
        ensures levels[l] == t.qvs[l]
      {
        assert levels[l].qv == VectorsOf(levels)[l] == VectorsOf(t.qvs)[l] == t.qvs[l].qv;
        SameVector(levels[l], t.qvs[l], b);
      }
      assert levels == t.qvs;
    }
  }

  lemma SameTreeRead(a: HuffQWaveletTree, t: HuffQWaveletTree, b: nat, levels: seq<RSQVector>, lens: seq<nat>)
    requires BlockSize(b) && a.n == t.n && a.nLevels == t.nLevels && a.codesEncode == t.codesEncode && a.codesDecode == t.codesDecode
    requires if a.n == 0 then Default(a.qvs, b) && a.lens == [0] else a.qvs == levels && a.lens == lens
    requires if t.n == 0 then Default(t.qvs, b) && t.lens == [0] else t.qvs == levels && t.lens == lens
    ensures a == t
  {
    hide Default;
    if t.n == 0 {
      SameDefault(a.qvs, t.qvs, b);
    }
  }

  lemma WrittenSame(a: HuffQWaveletTree, t: HuffQWaveletTree, levels: seq<RSQVector>, lens: seq<nat>)
    requires a.n == t.n && a.nLevels == t.nLevels && a.codesEncode == t.codesEncode && a.codesDecode == t.codesDecode
    requires t.n > 0 ==> a.qvs == levels && a.lens == lens && SameVectors(levels, t.qvs) && lens == t.lens
    ensures SameParts(a, t)
  {}

  lemma EmptyIsFlat(n: nat, nLevels: nat, encode: seq<PrefixCode>, decode: seq<seq<Entry>>, qvs: seq<RSQVector>, lens: seq<nat>)
    requires AllLevelsValid(qvs)
    ensures OwnedAcceptable(n, nLevels, encode, decode, qvs, lens) && n == 0 ==> nLevels == 0
  {}

  lemma ContentsFit(codes: seq<PrefixCode>)
    requires CodesFit(codes)
    ensures forall x :: 0 <= x < |codes| ==> codes[x].content < 0x1_0000_0000
  {
    Widths();
  }

  lemma StartBehindDirectory(nLevels: nat)
    ensures HEADER_SIZE + HQWT_DIR_SIZE * nLevels <= TablesStart(nLevels)
  {}

  lemma WrittenHeader(bytes: seq<Byte>, t: HuffQWaveletTree, b: nat, tWidth: nat, places: seq<LevelPlace>)
    requires TypeWidth(tWidth) && HuffWritten(bytes, t, b, tWidth, places)
    ensures HuffHeaderNamed(bytes, b, tWidth, HuffHeader(t.n, t.nLevels, |t.codesEncode|, |t.codesDecode|))
  {
    hide DirectoryAt, PayloadsAt, AllPlaced, Pow256, OwnedAcceptable, CodesFit, TableFits, TableAt, CodesAt, PreambleAt, Preamble, Field, TablesStart;
    StartBehindDirectory(t.nLevels);
    PreambleWritten(bytes, HUFF_MAGIC, b, tWidth);
  }

  lemma WrittenShape(bytes: seq<Byte>, t: HuffQWaveletTree, b: nat, tWidth: nat, places: seq<LevelPlace>)
    requires HuffWritten(bytes, t, b, tWidth, places)
    ensures t.nLevels <= MAX_QUAD_LEVELS && (t.n > 0 ==> t.nLevels > 0) && t.nLevels <= |t.qvs| && t.nLevels <= |t.lens|
    ensures TablesStart(t.nLevels) + 8 * |t.codesEncode| <= |bytes| && HEADER_SIZE + HQWT_DIR_SIZE * t.nLevels <= |bytes|
  {
    hide HuffHeaderAt, DirectoryAt, PayloadsAt, AllPlaced, Pow256, TablesAgree, RowsDecode, CodesFit, TableFits, TableAt, CodesAt, LengthsMatch, TablesStart;
    StartBehindDirectory(t.nLevels);
  }

  lemma WrittenTables(bytes: seq<Byte>, t: HuffQWaveletTree, b: nat, tWidth: nat, places: seq<LevelPlace>)
    requires HuffWritten(bytes, t, b, tWidth, places)
    ensures CodesFit(t.codesEncode) && TableFits(t.codesDecode, tWidth)
    ensures CodesAt(bytes, TablesStart(t.nLevels), t.codesEncode)
    ensures TableAt(bytes, TablesStart(t.nLevels) + 8 * |t.codesEncode|, t.codesDecode)
  {
    hide HuffHeaderAt, DirectoryAt, PayloadsAt, AllPlaced, Pow256, OwnedAcceptable, CodesFit, TableFits, TableAt, CodesAt;
  }

  lemma WrittenLevels(bytes: seq<Byte>, t: HuffQWaveletTree, b: nat, tWidth: nat, places: seq<LevelPlace>)
    requires HuffWritten(bytes, t, b, tWidth, places)
    ensures Readable(bytes, HQWT_DIR_SIZE, t.qvs[..t.nLevels], places, t.lens[..t.nLevels])
  {
    hide HuffHeaderAt, DirectoryAt, AllPlaced, OwnedAcceptable, PayloadAt, RSQVector.Valid, LevelDir.Fits, Placed, CodesFit, TableFits, TableAt, CodesAt;
    var qvs := t.qvs[..t.nLevels];
    forall l | 0 <= l < |qvs|
      ensures Reads(bytes, DirOf(qvs[l], places[l]), qvs[l], places[l])
    {
      PlaceOf(qvs, places, TablesEnd(t), l);
      assert PayloadAt(bytes, places[l], qvs[l]) && qvs[l] == t.qvs[l];
    }
  }

  /** The image of a tree names the parts of that tree. */
  lemma WrittenParts(bytes: seq<Byte>, t: HuffQWaveletTree, b: nat, tWidth: nat, places: seq<LevelPlace>)
    requires TypeWidth(tWidth) && HuffWritten(bytes, t, b, tWidth, places)
    ensures t.nLevels <= |t.qvs| && t.nLevels <= |t.lens|
    ensures PartsNamed(bytes, b, tWidth, Parts(t.n, t.nLevels, t.codesEncode, t.codesDecode, VectorsOf(t.qvs[..t.nLevels]), t.lens[..t.nLevels]))
  {
    hide HuffWritten, HuffHeaderNamed, LevelsNamed, Pow256, Readable, CodesFit, CodesAt, TableFits, TableAt, TablesStart;
    WrittenHeader(bytes, t, b, tWidth, places);
    WrittenShape(bytes, t, b, tWidth, places);
    WrittenTables(bytes, t, b, tWidth, places);
    WrittenLevels(bytes, t, b, tWidth, places);
    ReadableNamed(bytes, HQWT_DIR_SIZE, t.qvs[..t.nLevels], places, t.lens[..t.nLevels]);
  }

  lemma WrittenIsRead(bytes: seq<Byte>, t: HuffQWaveletTree, b: nat, tWidth: nat, places: seq<LevelPlace>, p: Parts, levels: seq<RSQVector>)
    requires TypeWidth(tWidth) && HuffWritten(bytes, t, b, tWidth, places) && PartsNamed(bytes, b, tWidth, p) && p.vectors == VectorsOf(levels)
    ensures t.nLevels <= |t.qvs| && t.nLevels <= |t.lens| && t.n == p.n && t.nLevels == p.nLevels
    ensures t.codesEncode == p.encode && t.codesDecode == p.decode && p.lens == t.lens[..t.nLevels] && SameVectors(levels, t.qvs[..t.nLevels])
  {
    hide HuffWritten, PartsNamed;
    WrittenParts(bytes, t, b, tWidth, places);
    var qvs := t.qvs[..t.nLevels];
    PartsOnce(bytes, b, tWidth, p, Parts(t.n, t.nLevels, t.codesEncode, t.codesDecode, VectorsOf(qvs), t.lens[..t.nLevels]));
    forall l | 0 <= l < |levels|
      ensures levels[l].qv == qvs[l].qv
    {
      assert VectorsOf(levels)[l] == VectorsOf(qvs)[l];
    }
  }

  lemma HuffWrittenAcceptable(bytes: seq<Byte>, t: HuffQWaveletTree, b: nat, tWidth: nat, places: seq<LevelPlace>, qvs: seq<RSQVector>, lens: seq<nat>)
    requires HuffWritten(bytes, t, b, tWidth, places) && AllLevelsValid(qvs)
    requires SameVectors(qvs, t.qvs[..t.nLevels]) && lens == t.lens[..t.nLevels]
    ensures OwnedAcceptable(t.n, t.nLevels, t.codesEncode, t.codesDecode, qvs, lens)
    ensures t.n > 0 ==> SameVectors(qvs, t.qvs) && lens == t.lens
  {
    hide HuffImage, HuffFieldsFit, TablesAgree, RowsDecode, PathsFit, PathRows;
    if t.n > 0 {
      assert t.qvs[..t.nLevels] == t.qvs && t.lens[..t.nLevels] == t.lens;
      SameContents(qvs, t.qvs);
    }
  }

  // ---- The round trip ----

  /** Writing a tree from construction and reading it back gives the same tree, word for word. */
  method Reload(t: HuffQWaveletTree, s: seq<nat>, b: nat, tWidth: nat) returns (r: Option<HuffQWaveletTree>)
    requires BlockSize(b) && TypeWidth(tWidth) && t.Represents(s)
    requires |s| > 0 ==> PartitionInto.CodesCover(s, t.codesEncode) && BuiltLevels(t.qvs, CodeRows(s, t.codesEncode), b)
    requires |s| == 0 ==> Default(t.qvs, b)
    requires t.n < Pow256(8) && CodesFit(t.codesEncode) && TableFits(t.codesDecode, tWidth)
    requires |t.codesEncode| < Pow256(2) && |t.codesDecode| < Pow256(2) && TableSize(t.codesDecode) < Pow256(4)
    requires forall l :: 0 <= l < t.nLevels <= |t.qvs| ==> CountsFit(t.qvs[l])
    ensures r == Some(t)
  {
    hide HuffQWaveletTree.Represents, BuiltLevels, Level, OwnedAcceptable, HuffWritten, HuffImage, Rebuilt, Default, CursorAt, HuffQWaveletTree.Serves, CodesFit, TableFits, Described, TextOf, RowsDecode;
    if |s| == 0 {
      DefaultValid(t.qvs, b);
    }
    BuiltIsAccepted(t, s);
    HuffShape(t, s);
    var out, places := ToBytes(t, b, tWidth);
    HuffFitsWritten(out.value[..], t, b, tWidth, places);
    r := FromBytes(out.value[..], b, tWidth);
    FreshLevels(out.value[..], r.value, b, tWidth);
    if |s| > 0 {
      HuffSameTree(r.value, t, s, b);
    } else {
      SameDefault(r.value.qvs, t.qvs, b);
    }
  }

  lemma FreshLevels(bytes: seq<Byte>, t: HuffQWaveletTree, b: nat, tWidth: nat)
    requires BlockSize(b) && Described(bytes, t, b, tWidth)
    ensures if t.n > 0 then forall l :: 0 <= l < |t.qvs| ==> Rebuilt(t.qvs[l], b) else Default(t.qvs, b) && t.lens == [0]
  {
    hide PartsNamed, Rebuilt, Default, TablesAgree, RowsDecode, PathsFit, LengthsMatch, PathRows;
  }

  lemma DefaultValid(qvs: seq<RSQVector>, b: nat)
    requires BlockSize(b) && Default(qvs, b)
    ensures AllLevelsValid(qvs)
  {}

  lemma HuffShape(t: HuffQWaveletTree, s: seq<nat>)
    requires t.Represents(s)
    ensures t.n == |s| && |t.qvs| >= t.nLevels && |t.lens| >= t.nLevels && t.nLevels <= MAX_QUAD_LEVELS
    ensures |s| > 0 ==> t.Indexes(s) && |t.qvs| == t.nLevels == |t.lens|
    ensures |s| == 0 ==> t.nLevels == 0 && t.lens == [0]
  {}

  lemma HuffFitsWritten(bytes: seq<Byte>, t: HuffQWaveletTree, b: nat, tWidth: nat, places: seq<LevelPlace>)
    requires AllLevelsValid(t.qvs) && |t.qvs| >= t.nLevels && |t.lens| >= t.nLevels && t.nLevels <= MAX_QUAD_LEVELS
    requires OwnedAcceptable(t.n, t.nLevels, t.codesEncode, t.codesDecode, t.qvs, t.lens)
    requires HuffImage(bytes, t, b, tWidth, places) && |places| == t.nLevels
    requires t.n < Pow256(8) && CodesFit(t.codesEncode) && TableFits(t.codesDecode, tWidth)
    requires |t.codesEncode| < Pow256(2) && |t.codesDecode| < Pow256(2) && TableSize(t.codesDecode) < Pow256(4)
    requires forall l :: 0 <= l < t.nLevels ==> CountsFit(t.qvs[l])
    requires |bytes| == CursorAt(places, TablesEnd(t), t.nLevels)
    requires (forall l :: 0 <= l < t.nLevels ==> |t.qvs[l].rsSupport.selectSamples| == 4 && CountsOf(t.qvs[l]).Bytes() <= LEVEL_BYTES) ==>
      |bytes| <= TablesEnd(t) + t.nLevels * (LEVEL_BYTES + 128)
    ensures HuffWritten(bytes, t, b, tWidth, places)
  {
    hide RSQVector.Valid, HuffHeaderAt, DirectoryAt, PayloadsAt, AllPlaced, CursorAt, CountsFit, LevelDir.Fits, DirOf, TablesAgree, RowsDecode, PathsFit, CodesAt, TableAt, CodesFit, TableFits;
    Widths();
    var qvs := t.qvs[..t.nLevels];
    forall l | 0 <= l < t.nLevels
      ensures |t.qvs[l].rsSupport.selectSamples| == 4 && CountsOf(t.qvs[l]).Bytes() <= LEVEL_BYTES
    {
      assert |qvs[l].rsSupport.selectSamples| == 4;
      BytesFit(t.qvs[l]);
    }
    forall l | 0 <= l < t.nLevels
      ensures DirOf(t.qvs[l], places[l]).Fits() && t.lens[l] < Pow256(8)
    {
      assert t.n > 0 && qvs[l] == t.qvs[l];
      OffsetsFit(qvs, places, TablesEnd(t), l);
      LengthFits(t, l);
    }
  }

  lemma LengthFits(t: HuffQWaveletTree, l: nat)
    requires AllLevelsValid(t.qvs) && LengthsMatch(t.nLevels, t.qvs, t.lens) && l < t.nLevels && CountsFit(t.qvs[l])
    ensures t.lens[l] < Pow256(8)
  {
    Widths();
    SmallCounts(t.qvs[l]);
  }

  lemma HuffSameTree(a: HuffQWaveletTree, t: HuffQWaveletTree, s: seq<nat>, b: nat)
    requires BlockSize(b) && SameParts(a, t) && t.n > 0
    requires t.Indexes(s) && PartitionInto.CodesCover(s, t.codesEncode) && BuiltLevels(t.qvs, CodeRows(s, t.codesEncode), b)
    requires forall l :: 0 <= l < |a.qvs| ==> Rebuilt(a.qvs[l], b)
    ensures a == t
  {
    hide Level, LevelDigits, IsFinalSuperblocks, IsFinalSamples, HuffQWaveletTree.Indexes;
    forall l | 0 <= l < |a.qvs|
      ensures a.qvs[l] == t.qvs[l]
    {
      assert a.qvs[l].qv == t.qvs[l].qv;
      assert BuiltLevel(t.qvs[l], CodeRows(s, t.codesEncode), l, b);
      assert Rebuilt(a.qvs[l], b);
      SameVector(a.qvs[l], t.qvs[l], b);
    }
  }
}
