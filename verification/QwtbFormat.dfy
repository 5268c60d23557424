/** The container of the plain tree: what is written reads back as the same tree. */
module QwtbFormat {
  import opened Wrappers
  import opened Arithmetic
  import opened RankSelect
  import opened StablePartition
  import opened Words
  import opened QuadVector
  import opened Superblock
  import opened RankSupport
  import opened BuildSupport
  import opened RSQVectors
  import opened SymbolWords
  import opened QuadWavelet
  import opened BuildQuadWavelet
  import opened LevelStacks
  import opened PlainParts
  import opened LevelPlaces
  import opened ByteCodec
  import opened LevelBytes
  import opened Containers

  /** Generous bound on the bytes of a level whose counts fit 32 bits. */
  const LEVEL_BYTES: nat := 0x1000_0000_0000

  const MAGIC: seq<Byte> := [0x51, 0x57, 0x54, 0x42]

  /** Width of the symbol type, and the digits that a symbol of that width can have. */
  ghost predicate TypeWidth(tWidth: nat) {
    0 < tWidth <= 16
  }

  ghost predicate HeaderAt(bytes: seq<Byte>, b: nat, tWidth: nat, n: nat, sigma: nat, nLevels: nat) {
    && PreambleAt(bytes, MAGIC, b, tWidth)
    && Field(bytes, 8, 8, n) && Field(bytes, 16, 8, sigma) && Field(bytes, 24, 2, nLevels)
  }

  /** All bytes that a reader looks at. */
  ghost predicate Image(bytes: seq<Byte>, t: QWaveletTree, b: nat, tWidth: nat, places: seq<LevelPlace>)
    requires |t.qvs| >= t.nLevels
  {
    var qvs := t.qvs[..t.nLevels];
    && HEADER_SIZE + DIR_SIZE * t.nLevels <= |bytes|
    && HeaderAt(bytes, b, tWidth, t.n, t.sigma, t.nLevels)
    && DirectoryAt(bytes, DIR_SIZE, qvs, places, NoLens(t.nLevels))
    && PayloadsAt(bytes, qvs, places)
    && (forall l :: 0 <= l < t.nLevels ==> |qvs[l].rsSupport.selectSamples| == 4)
    && AllPlaced(places, AllCountsOf(qvs), PayloadStart(t.nLevels))
  }

  /** Payloads start behind the directory, at a multiple of 64. */
  function PayloadStart(nLevels: nat): (r: nat)
    ensures HEADER_SIZE + DIR_SIZE * nLevels <= r < HEADER_SIZE + DIR_SIZE * nLevels + 64 && r % 64 == 0
  {
    AlignUp(HEADER_SIZE + DIR_SIZE * nLevels, 64)
  }

  function NoLens(n: nat): seq<nat> {
    seq(n, _ => 0)
  }

  // ---- Writing ----

  method WriteHeader(out: array<Byte>, b: nat, tWidth: nat, n: nat, sigma: nat, nLevels: nat)
    requires out.Length >= HEADER_SIZE
    modifies out
    ensures HeaderAt(out[..], b, tWidth, n, sigma, nLevels) && Spared(old(out[..]), out[..], 26)
  {
    hide Field, Kept, PreambleAt, Spared;
    WritePreamble(out, MAGIC, b, tWidth);
    ghost var b1 := out[..];
    var o := PutField(out, 8, 8, n);
    ghost var b2 := out[..];
    o := PutField(out, o, 8, sigma);
    ghost var b3 := out[..];
    o := PutField(out, o, 2, nLevels);
    SparedBoth(old(out[..]), b1, b2, 8, 16, 26);
    SparedBoth(old(out[..]), b2, b3, 26, 24, 26);
    SparedBoth(old(out[..]), b3, out[..], 26, 26, 26);
    KeptBoth(b2, b3, out[..], 16, 24);
    KeptBoth(b1, b2, out[..], 8, 16);
    PreambleKept(b1, out[..], 8, MAGIC, b, tWidth);
    FieldKept(b2, out[..], 16, 8, 8, n);
    FieldKept(b3, out[..], 24, 16, 8, sigma);
  }

  lemma HeaderKept(was: seq<Byte>, now: seq<Byte>, b: nat, tWidth: nat, n: nat, sigma: nat, nLevels: nat)
    requires HeaderAt(was, b, tWidth, n, sigma, nLevels) && Kept(was, now, HEADER_SIZE)
    ensures HeaderAt(now, b, tWidth, n, sigma, nLevels)
  {
    hide Field, Kept, PreambleAt;
    PreambleKept(was, now, HEADER_SIZE, MAGIC, b, tWidth);
    FieldKept(was, now, HEADER_SIZE, 8, 8, n);
    FieldKept(was, now, HEADER_SIZE, 16, 8, sigma);
    FieldKept(was, now, HEADER_SIZE, 24, 2, nLevels);
  }

  /** Every byte outside of header fields, entries and payloads is zero. */
  ghost predicate Padded(bytes: seq<Byte>, t: QWaveletTree, places: seq<LevelPlace>)
    requires |t.qvs| >= t.nLevels
  {
    && Zeros(bytes, 26, HEADER_SIZE) && Zeros(bytes, HEADER_SIZE + DIR_SIZE * t.nLevels, PayloadStart(t.nLevels))
    && PaddedTo(bytes, t.qvs[..t.nLevels], places, PayloadStart(t.nLevels), t.nLevels)
  }

  /** Measures all levels, then fills one buffer from front to back. */
  method ToBytes(t: QWaveletTree, b: nat, tWidth: nat) returns (out: array<Byte>, places: seq<LevelPlace>)
    requires BlockSize(b) && AllLevelsValid(t.qvs) && |t.qvs| >= t.nLevels
    ensures fresh(out) && Image(out[..], t, b, tWidth, places) && Padded(out[..], t, places)
    ensures |places| == t.nLevels && forall l :: 0 <= l < t.nLevels ==> EntrySpelled(out[..], HEADER_SIZE + DIR_SIZE * l, t.qvs[l], places[l])
    ensures |places| == t.nLevels && out.Length == CursorAt(places, PayloadStart(t.nLevels), t.nLevels)
    ensures (forall l :: 0 <= l < t.nLevels ==> |t.qvs[l].rsSupport.selectSamples| == 4 && CountsOf(t.qvs[l]).Bytes() <= LEVEL_BYTES) ==>
      out.Length <= PayloadStart(t.nLevels) + t.nLevels * (LEVEL_BYTES + 128)
  {
    hide Kept, HeaderAt, DirectoryAt, PayloadsAt, AllPlaced, RSQVector.Valid, DirShape, AlignUp, Spared, Blank, PaddedTo, EntrySpelled, Zeros;
    var qvs := t.qvs[..t.nLevels];
    LevelsHaveSamples(qvs);
    var start := PayloadStart(t.nLevels);
    var cursor;
    places, cursor := PlaceLevels(AllCountsOf(qvs), start, LEVEL_BYTES);
    ShapesOf(qvs, places, start);
    out := new Byte[cursor](_ => 0);
    ghost var b0 := out[..];
    AllZero(b0);
    WriteHeader(out, b, tWidth, t.n, t.sigma, t.nLevels);
    ghost var b1 := out[..];
    WriteDirectory(qvs, places, NoLens(t.nLevels), DIR_SIZE, out);
    ghost var b2 := out[..];
    HeaderKept(b1, b2, b, tWidth, t.n, t.sigma, t.nLevels);
    WritePayloads(qvs, places, start, out);
    KeptLess(b2, out[..], start, HEADER_SIZE);
    HeaderKept(b2, out[..], b, tWidth, t.n, t.sigma, t.nLevels);
    DirectoryKept(b2, out[..], start, DIR_SIZE, qvs, places, NoLens(t.nLevels));
    SectionsPadded(b0, b1, b2, out[..], 26, HEADER_SIZE + DIR_SIZE * t.nLevels, start);
    AllSpelled(out[..], DIR_SIZE, qvs, places, NoLens(t.nLevels));
  }

  lemma AllZero(bytes: seq<Byte>)
    requires forall k :: 0 <= k < |bytes| ==> bytes[k] == 0
    ensures Blank(bytes, 0)
  {}

  /** Padding behind the header and behind the directory. */
  lemma SectionsPadded(b0: seq<Byte>, b1: seq<Byte>, b2: seq<Byte>, b3: seq<Byte>, header: nat, directory: nat, start: nat)
    requires Blank(b0, 0) && Spared(b0, b1, header) && Kept(b1, b2, HEADER_SIZE) && Spared(b1, b2, directory) && Kept(b2, b3, start)
    requires header <= HEADER_SIZE <= directory <= start
    ensures Zeros(b3, header, HEADER_SIZE) && Zeros(b3, directory, start) && Blank(b2, directory) && Blank(b2, start)
  {
    hide Blank, Spared, Kept, Zeros;
    BlankBehind(b0, b1, 0, header);
    BlankSkipped(b1, b2, header, HEADER_SIZE);
    BlankBehind(b1, b2, header, directory);
    BlankSkipped(b2, b3, directory, start);
    BlankLess(b2, directory, start);
    ZerosKept(b2, b3, start, header, HEADER_SIZE);
  }

  lemma AllSpelled(bytes: seq<Byte>, entry: nat, qvs: seq<RSQVector>, places: seq<LevelPlace>, lens: seq<nat>)
    requires AllLevelsValid(qvs) && DirectoryAt(bytes, entry, qvs, places, lens) && forall l :: 0 <= l < |qvs| ==> DirShape(qvs[l], places[l])
    ensures forall l :: 0 <= l < |qvs| ==> EntrySpelled(bytes, HEADER_SIZE + entry * l, qvs[l], places[l])
  {
    hide DirAt, DirOf, EntrySpelled, DirShape, RSQVector.Valid;
    forall l: nat | l < |qvs|
      ensures EntrySpelled(bytes, HEADER_SIZE + entry * l, qvs[l], places[l])
    {
      assert EntryAt(bytes, entry, l, qvs[l], places[l], lens[l]);
      EntryIsSpelled(bytes, HEADER_SIZE + entry * l, qvs[l], places[l]);
    }
  }

  lemma ShapesOf(qvs: seq<RSQVector>, places: seq<LevelPlace>, start: nat)
    requires forall l :: 0 <= l < |qvs| ==> |qvs[l].rsSupport.selectSamples| == 4 && |qvs[l].nOccsSmaller| == 5
    requires AllPlaced(places, AllCountsOf(qvs), start)
    ensures |places| == |qvs| && forall l :: 0 <= l < |qvs| ==> DirShape(qvs[l], places[l])
  {
    PlacesMatch(qvs, places, start);
    forall l | 0 <= l < |qvs|
      ensures DirShape(qvs[l], places[l])
    {
      PlaceOf(qvs, places, start, l);
    }
  }

  // ---- Reading ----

  /** The numbers that the header names. */
  ghost predicate HeaderNamed(bytes: seq<Byte>, b: nat, tWidth: nat, n: nat, sigma: nat, nLevels: nat) {
    && Preamble(bytes, MAGIC, b, tWidth)
    && n < Pow256(8) && Field(bytes, 8, 8, n)
    && sigma < Pow256(8) && Field(bytes, 16, 8, sigma)
    && nLevels < Pow256(2) && Field(bytes, 24, 2, nLevels)
  }

  lemma HeaderOnce(bytes: seq<Byte>, b: nat, tWidth: nat, n: nat, sigma: nat, nLevels: nat, n': nat, sigma': nat, nLevels': nat)
    requires HeaderNamed(bytes, b, tWidth, n, sigma, nLevels) && HeaderNamed(bytes, b, tWidth, n', sigma', nLevels')
    ensures n == n' && sigma == sigma' && nLevels == nLevels'
  {
    hide Preamble, Field, Pow256;
    FieldOnce(bytes, 8, 8, n, n');
    FieldOnce(bytes, 16, 8, sigma, sigma');
    FieldOnce(bytes, 24, 2, nLevels, nLevels');
  }

  /** The numbers of the header. */
  method ReadHeader(bytes: seq<Byte>, b: nat, tWidth: nat) returns (r: Option<(nat, nat, nat)>)
    requires BlockSize(b) && TypeWidth(tWidth)
    ensures r.Some? <==> Preamble(bytes, MAGIC, b, tWidth)
    ensures r.Some? ==> HeaderNamed(bytes, b, tWidth, r.value.0, r.value.1, r.value.2)
  {
    hide Field, GetField;
    var ok := ReadPreamble(bytes, MAGIC, b, tWidth);
    if !ok {
      return None;
    }
    return Some((GetField(bytes, 8, 8), GetField(bytes, 16, 8), GetField(bytes, 24, 2)));
  }

  /** A tree whose numbers all fit their fields. */
  ghost predicate FieldsFit(t: QWaveletTree, tWidth: nat, places: seq<LevelPlace>)
    requires |t.qvs| >= t.nLevels
  {
    && t.n < Pow256(8) && t.sigma < Pow256(8) && t.sigma < Pow256(tWidth) && t.nLevels < Pow256(2)
    && |places| == t.nLevels
    && forall l :: 0 <= l < t.nLevels ==> |t.qvs[l].rsSupport.selectSamples| == 4 && DirOf(t.qvs[l], places[l]).Fits()
  }

  /** The same quad vectors on every level. */
  ghost predicate SameVectors(a: seq<RSQVector>, c: seq<RSQVector>) {
    |a| == |c| && forall l :: 0 <= l < |a| ==> a[l].qv == c[l].qv
  }

  /** What the bytes name, before the levels are checked as a tree. */
  ghost predicate PartsNamed(bytes: seq<Byte>, b: nat, tWidth: nat, n: nat, sigma: nat, nLevels: nat, vectors: seq<QVector>) {
    && HeaderNamed(bytes, b, tWidth, n, sigma, nLevels)
    && sigma < Pow256(tWidth) && nLevels <= MAX_QUAD_LEVELS && nLevels <= 4 * tWidth && (n > 0 ==> nLevels > 0)
    && HEADER_SIZE + DIR_SIZE * nLevels <= |bytes|
    && |vectors| == nLevels && LevelsNamed(bytes, DIR_SIZE, vectors, NoLens(nLevels))
  }

  lemma PartsOnce(bytes: seq<Byte>, b: nat, tWidth: nat, n: nat, sigma: nat, nLevels: nat, x: seq<QVector>,
                  n': nat, sigma': nat, nLevels': nat, x': seq<QVector>)
    requires PartsNamed(bytes, b, tWidth, n, sigma, nLevels, x) && PartsNamed(bytes, b, tWidth, n', sigma', nLevels', x')
    ensures n == n' && sigma == sigma' && nLevels == nLevels' && x == x'
  {
    hide HeaderNamed, LevelsNamed, Pow256;
    HeaderOnce(bytes, b, tWidth, n, sigma, nLevels, n', sigma', nLevels');
    LevelsOnce(bytes, DIR_SIZE, x, NoLens(nLevels), x', NoLens(nLevels));
  }

  /** Header, directory and payload of a container; support is rebuilt from the symbols. */
  method ReadParts(bytes: seq<Byte>, b: nat, tWidth: nat) returns (ok: bool, n: nat, sigma: nat, nLevels: nat, qvs: seq<RSQVector>)
    requires BlockSize(b) && TypeWidth(tWidth)
    ensures ok ==> PartsNamed(bytes, b, tWidth, n, sigma, nLevels, VectorsOf(qvs)) && forall l :: 0 <= l < |qvs| ==> Rebuilt(qvs[l], b)
    ensures !ok ==> forall n': nat, sigma': nat, nLevels': nat, x: seq<QVector> :: !PartsNamed(bytes, b, tWidth, n', sigma', nLevels', x)
  {
    hide HeaderNamed, Preamble, LevelsNamed, Pow256, Rebuilt;
    n, sigma, nLevels, qvs := 0, 0, 0, [];
    var header := ReadHeader(bytes, b, tWidth);
    if header.None? {
      forall n': nat, sigma': nat, nLevels': nat
        ensures !HeaderNamed(bytes, b, tWidth, n', sigma', nLevels')
      {
        NoHeader(bytes, b, tWidth, n', sigma', nLevels');
      }
      return false, n, sigma, nLevels, qvs;
    }
    n, sigma, nLevels := header.value.0, header.value.1, header.value.2;
    forall n': nat, sigma': nat, nLevels': nat | HeaderNamed(bytes, b, tWidth, n', sigma', nLevels')
      ensures n' == n && sigma' == sigma && nLevels' == nLevels
    {
      HeaderOnce(bytes, b, tWidth, n, sigma, nLevels, n', sigma', nLevels');
    }
    if sigma >= Pow256(tWidth) || nLevels > MAX_QUAD_LEVELS || nLevels > 4 * tWidth || (n > 0 && nLevels == 0) {
      return false, n, sigma, nLevels, qvs;
    }
    if |bytes| < HEADER_SIZE + DIR_SIZE * nLevels {
      return false, n, sigma, nLevels, qvs;
    }
    var levels, lens := ReadLevels(bytes, nLevels, DIR_SIZE, b);
    if levels.None? {
      return false, n, sigma, nLevels, qvs;
    }
    NoLengths(bytes, VectorsOf(levels.value), lens);
    return true, n, sigma, nLevels, levels.value;
  }

  lemma NoHeader(bytes: seq<Byte>, b: nat, tWidth: nat, n: nat, sigma: nat, nLevels: nat)
    requires !Preamble(bytes, MAGIC, b, tWidth)
    ensures !HeaderNamed(bytes, b, tWidth, n, sigma, nLevels)
  {}

  /** Entries of the plain directory name no lengths. */
  lemma NoLengths(bytes: seq<Byte>, x: seq<QVector>, lens: seq<nat>)
    requires LevelsNamed(bytes, DIR_SIZE, x, lens)
    ensures lens == NoLens(|x|)
  {
    forall l | 0 <= l < |x|
      ensures lens[l] == 0
    {
      assert LevelNamed(bytes, DIR_SIZE, l, x[l], lens[l]);
    }
  }

  /** The tree that the bytes describe: their numbers and quad vectors, with fresh support, accepted as a tree. */
  ghost predicate Described(bytes: seq<Byte>, t: QWaveletTree, b: nat, tWidth: nat)
    requires BlockSize(b)
  {
    && AllLevelsValid(t.qvs) && Acceptable(t.n, t.nLevels, t.sigma, t.qvs, 4 * tWidth)
    && if t.nLevels == 0 then PartsNamed(bytes, b, tWidth, t.n, t.sigma, 0, []) && Default(t.qvs, b)
       else PartsNamed(bytes, b, tWidth, t.n, t.sigma, t.nLevels, VectorsOf(t.qvs)) && forall l :: 0 <= l < |t.qvs| ==> Rebuilt(t.qvs[l], b)
  }

  /**
   Reads a container; everything but the symbols is rebuilt and the tree is checked as untrusted.
   Accepts exactly the bytes that describe a tree, and returns that tree.
   */
  method FromBytes(bytes: seq<Byte>, b: nat, tWidth: nat) returns (r: Option<QWaveletTree>)
    requires BlockSize(b) && TypeWidth(tWidth)
    ensures forall t: QWaveletTree :: r == Some(t) <==> Described(bytes, t, b, tWidth)
    ensures r.Some? ==> AllLevelsValid(r.value.qvs) && Acceptable(r.value.n, r.value.nLevels, r.value.sigma, r.value.qvs, 4 * tWidth)
    ensures r.Some? ==> r.value.Represents(TextOf(r.value.n, r.value.qvs))
    ensures forall t: QWaveletTree, places: seq<LevelPlace> :: Written(bytes, t, b, tWidth, places) ==>
      r.Some? && r.value.n == t.n && r.value.nLevels == t.nLevels && r.value.sigma == t.sigma && (t.n > 0 ==> SameVectors(r.value.qvs, t.qvs))
  {
    hide Written, Described, PartsNamed, Rebuilt, Default, Acceptable, QWaveletTree.Represents;
    r := None;
    var ok, n, sigma, nLevels, levels := ReadParts(bytes, b, tWidth);
    forall t: QWaveletTree, places: seq<LevelPlace> | Written(bytes, t, b, tWidth, places)
      ensures ok && t.n == n && t.nLevels == nLevels && t.sigma == sigma
    {
      WrittenParts(bytes, t, b, tWidth, places);
      if ok {
        PartsOnce(bytes, b, tWidth, n, sigma, nLevels, VectorsOf(levels), t.n, t.sigma, t.nLevels, VectorsOf(t.qvs[..t.nLevels]));
      }
    }
    if !ok {
      forall t: QWaveletTree
        ensures !Described(bytes, t, b, tWidth)
      {
        DescribedParts(bytes, t, b, tWidth);
      }
      return;
    }
    RebuiltValid(levels, b);
    var qvs := levels;
    assert |levels| == nLevels by { PartsLength(bytes, b, tWidth, n, sigma, nLevels, levels); }
    if n == 0 && |qvs| == 0 {
      var default := EmptyLevel(b);
      qvs := [default];
    }
    r := OwnedFromParts(n, nLevels, sigma, qvs, 4 * tWidth);
    if r.Some? {
      IsDescribed(bytes, b, tWidth, r.value, levels);
    }
    forall t: QWaveletTree | Described(bytes, t, b, tWidth)
      ensures r == Some(t)
    {
      OnlyDescribed(bytes, t, b, tWidth, n, sigma, nLevels, levels, qvs);
    }
    forall t: QWaveletTree, places: seq<LevelPlace> | Written(bytes, t, b, tWidth, places)
      ensures Acceptable(n, nLevels, sigma, qvs, 4 * tWidth) && (t.n > 0 ==> SameVectors(qvs, t.qvs))
    {
      WrittenLevels(bytes, t, b, tWidth, places, levels);
      WrittenAcceptable(bytes, t, b, tWidth, places, qvs);
    }
  }

  lemma PartsLength(bytes: seq<Byte>, b: nat, tWidth: nat, n: nat, sigma: nat, nLevels: nat, levels: seq<RSQVector>)
    requires PartsNamed(bytes, b, tWidth, n, sigma, nLevels, VectorsOf(levels))
    ensures |levels| == nLevels && (n > 0 ==> nLevels > 0)
  {
    hide HeaderNamed, LevelsNamed;
  }

  lemma IsDescribed(bytes: seq<Byte>, b: nat, tWidth: nat, t: QWaveletTree, levels: seq<RSQVector>)
    requires BlockSize(b) && PartsNamed(bytes, b, tWidth, t.n, t.sigma, t.nLevels, VectorsOf(levels))
    requires |levels| == t.nLevels && (forall l :: 0 <= l < |levels| ==> Rebuilt(levels[l], b)) && AllLevelsValid(t.qvs)
    requires Acceptable(t.n, t.nLevels, t.sigma, t.qvs, 4 * tWidth)
    requires if t.n == 0 && |levels| == 0 then Default(t.qvs, b) else t.qvs == levels
    ensures Described(bytes, t, b, tWidth)
  {
    hide PartsNamed, Rebuilt, Default, Stack, MaxSymbol, LevelsFor;
    if t.nLevels == 0 {
      assert VectorsOf(levels) == [];
    }
  }

  lemma DescribedParts(bytes: seq<Byte>, t: QWaveletTree, b: nat, tWidth: nat)
    requires BlockSize(b)
    ensures Described(bytes, t, b, tWidth) ==>
      PartsNamed(bytes, b, tWidth, t.n, t.sigma, t.nLevels, if t.nLevels == 0 then [] else VectorsOf(t.qvs))
  {
    hide PartsNamed, Rebuilt, Default, Acceptable;
  }

  lemma OnlyDescribed(bytes: seq<Byte>, t: QWaveletTree, b: nat, tWidth: nat, n: nat, sigma: nat, nLevels: nat,
                      levels: seq<RSQVector>, qvs: seq<RSQVector>)
    requires BlockSize(b) && Described(bytes, t, b, tWidth) && AllLevelsValid(qvs)
    requires PartsNamed(bytes, b, tWidth, n, sigma, nLevels, VectorsOf(levels)) && |levels| == nLevels
    requires forall l :: 0 <= l < |levels| ==> Rebuilt(levels[l], b)
    requires if n == 0 && |levels| == 0 then Default(qvs, b) else qvs == levels
    ensures t == QWaveletTree(n, nLevels, sigma, qvs) && Acceptable(n, nLevels, sigma, qvs, 4 * tWidth)
  {
    hide PartsNamed, Rebuilt, Default, Acceptable;
    DescribedParts(bytes, t, b, tWidth);
    PartsOnce(bytes, b, tWidth, n, sigma, nLevels, VectorsOf(levels), t.n, t.sigma, t.nLevels, if t.nLevels == 0 then [] else VectorsOf(t.qvs));
    if t.nLevels == 0 {
      assert n == 0 by { PartsLength(bytes, b, tWidth, n, sigma, nLevels, levels); }
      SameDefault(qvs, t.qvs, b);
    } else {
      forall l | 0 <= l < |levels|
        ensures levels[l] == t.qvs[l]
      {
        assert levels[l].qv == VectorsOf(levels)[l] == VectorsOf(t.qvs)[l] == t.qvs[l].qv;
        SameVector(levels[l], t.qvs[l], b);
      }
    }
  }

  lemma EmptyIsFlat(n: nat, nLevels: nat, sigma: nat, qvs: seq<RSQVector>, typeLevels: nat)
    requires AllLevelsValid(qvs)
    ensures Acceptable(n, nLevels, sigma, qvs, typeLevels) && n == 0 ==> nLevels == 0
  {}

  /** The bytes are the image of an acceptable tree that fits the format. */
  ghost predicate Written(bytes: seq<Byte>, t: QWaveletTree, b: nat, tWidth: nat, places: seq<LevelPlace>) {
    && AllLevelsValid(t.qvs) && |t.qvs| >= t.nLevels && Acceptable(t.n, t.nLevels, t.sigma, t.qvs, 4 * tWidth)
    && Image(bytes, t, b, tWidth, places) && FieldsFit(t, tWidth, places)
  }

  lemma WrittenHeader(bytes: seq<Byte>, t: QWaveletTree, b: nat, tWidth: nat, places: seq<LevelPlace>)
    requires TypeWidth(tWidth) && Written(bytes, t, b, tWidth, places)
    ensures HeaderNamed(bytes, b, tWidth, t.n, t.sigma, t.nLevels) && t.sigma < Pow256(tWidth)
  {
    hide DirectoryAt, PayloadsAt, AllPlaced, Acceptable, Pow256, PreambleAt, Preamble, Field;
    PreambleWritten(bytes, MAGIC, b, tWidth);
  }

  lemma WrittenShape(bytes: seq<Byte>, t: QWaveletTree, b: nat, tWidth: nat, places: seq<LevelPlace>)
    requires Written(bytes, t, b, tWidth, places)
    ensures t.nLevels <= MAX_QUAD_LEVELS && t.nLevels <= 4 * tWidth && (t.n > 0 ==> t.nLevels > 0)
    ensures HEADER_SIZE + DIR_SIZE * t.nLevels <= |bytes| && t.nLevels <= |t.qvs|
  {
    hide HeaderAt, DirectoryAt, PayloadsAt, AllPlaced, Stack, FieldsFit;
  }

  lemma WrittenReadable(bytes: seq<Byte>, t: QWaveletTree, b: nat, tWidth: nat, places: seq<LevelPlace>)
    requires Written(bytes, t, b, tWidth, places)
    ensures Readable(bytes, DIR_SIZE, t.qvs[..t.nLevels], places, NoLens(t.nLevels))
  {
    hide HeaderAt, DirectoryAt, AllPlaced, Acceptable, PayloadAt, RSQVector.Valid, LevelDir.Fits, Placed;
    var qvs := t.qvs[..t.nLevels];
    var start := PayloadStart(t.nLevels);
    forall l | 0 <= l < |qvs|
      ensures Reads(bytes, DirOf(qvs[l], places[l]), qvs[l], places[l])
    {
      PlaceOf(qvs, places, start, l);
      assert PayloadAt(bytes, places[l], qvs[l]) && qvs[l] == t.qvs[l];
    }
  }

  /** The image of a tree names the parts of that tree. */
  lemma WrittenParts(bytes: seq<Byte>, t: QWaveletTree, b: nat, tWidth: nat, places: seq<LevelPlace>)
    requires TypeWidth(tWidth) && Written(bytes, t, b, tWidth, places)
    ensures t.nLevels <= |t.qvs| && PartsNamed(bytes, b, tWidth, t.n, t.sigma, t.nLevels, VectorsOf(t.qvs[..t.nLevels]))
  {
    hide Written, HeaderNamed, LevelsNamed, Pow256, Readable;
    WrittenHeader(bytes, t, b, tWidth, places);
    WrittenShape(bytes, t, b, tWidth, places);
    WrittenReadable(bytes, t, b, tWidth, places);
    ReadableNamed(bytes, DIR_SIZE, t.qvs[..t.nLevels], places, NoLens(t.nLevels));
  }

  lemma WrittenLevels(bytes: seq<Byte>, t: QWaveletTree, b: nat, tWidth: nat, places: seq<LevelPlace>, levels: seq<RSQVector>)
    requires TypeWidth(tWidth) && Written(bytes, t, b, tWidth, places)
    requires PartsNamed(bytes, b, tWidth, t.n, t.sigma, t.nLevels, VectorsOf(levels))
    ensures t.nLevels <= |t.qvs| && SameVectors(levels, t.qvs[..t.nLevels])
  {
    hide Written, PartsNamed;
    WrittenParts(bytes, t, b, tWidth, places);
    var qvs := t.qvs[..t.nLevels];
    PartsOnce(bytes, b, tWidth, t.n, t.sigma, t.nLevels, VectorsOf(levels), t.n, t.sigma, t.nLevels, VectorsOf(qvs));
    forall l | 0 <= l < |levels|
      ensures levels[l].qv == qvs[l].qv
    {
      assert VectorsOf(levels)[l] == VectorsOf(qvs)[l];
    }
  }

  lemma RebuiltValid(qvs: seq<RSQVector>, b: nat)
    requires BlockSize(b) && forall l :: 0 <= l < |qvs| ==> Rebuilt(qvs[l], b)
    ensures AllLevelsValid(qvs)
  {
    hide RSQVector.Valid, IsFinalSuperblocks, IsFinalSamples;
  }

  lemma WrittenAcceptable(bytes: seq<Byte>, t: QWaveletTree, b: nat, tWidth: nat, places: seq<LevelPlace>, qvs: seq<RSQVector>)
    requires Written(bytes, t, b, tWidth, places) && AllLevelsValid(qvs)
    requires t.n > 0 ==> SameVectors(qvs, t.qvs[..t.nLevels])
    ensures Acceptable(t.n, t.nLevels, t.sigma, qvs, 4 * tWidth) && (t.n > 0 ==> SameVectors(qvs, t.qvs))
  {
    hide Image, FieldsFit, Stack, MaxSymbol, DecodedText, LevelsFor;
    if t.n > 0 {
      assert t.qvs[..t.nLevels] == t.qvs;
      SameContents(qvs, t.qvs);
    }
  }

  lemma SameContents(a: seq<RSQVector>, c: seq<RSQVector>)
    requires AllLevelsValid(a) && AllLevelsValid(c) && SameVectors(a, c)
    ensures ContentsOf(a) == ContentsOf(c)
  {
    forall l | 0 <= l < |a|
      ensures a[l].Contents() == c[l].Contents()
    {
      assert a[l].qv == c[l].qv;
    }
  }

  // ---- The round trip ----

  /** Counts that fit the 32-bit fields of the directory. */
  ghost predicate CountsFit(v: RSQVector) {
    && |v.rsSupport.selectSamples| == 4 && |v.qv.data| < Pow256(4) && |v.rsSupport.superblocks| < Pow256(4)
    && forall s :: 0 <= s < 4 ==> |v.rsSupport.selectSamples[s]| < Pow256(4)
  }

  /** Then all offsets fit as well. */
  lemma OffsetsFit(qvs: seq<RSQVector>, places: seq<LevelPlace>, start: nat, l: nat)
    requires AllLevelsValid(qvs) && |qvs| <= MAX_QUAD_LEVELS && start <= 0x2_0000_0000 && forall k :: 0 <= k < |qvs| ==> CountsFit(qvs[k])
    requires AllPlaced(places, AllCountsOf(qvs), start) && l < |qvs|
    requires CursorAt(places, start, |places|) <= start + |qvs| * (LEVEL_BYTES + 128)
    ensures |places| == |qvs| && DirOf(qvs[l], places[l]).Fits()
  {
    hide RSQVector.Valid, AllPlaced;
    PlaceOf(qvs, places, start, l);
    PlacedOrder(places[l], CountsOf(qvs[l]), CursorAt(places, start, l));
    Widths();
    SmallCounts(qvs[l]);
    hide Placed, CursorAt, CountsOf;
    MulMonotone(LEVEL_BYTES + 128, |qvs|, MAX_QUAD_LEVELS);
  }

  lemma SmallCounts(v: RSQVector)
    requires v.Valid() && |v.qv.data| < Pow256(4)
    ensures |v.nOccsSmaller| == 5 && v.qv.position < 0x1000_0000_0000 && forall d :: 0 <= d < 5 ==> v.nOccsSmaller[d] < 0x1000_0000_0000
  {
    hide SuperblocksOk, SamplesOk;
    Widths();
    var q := v.Contents();
    OccsBelowTotal(q, 4);
    forall d: nat | d < 5
      ensures v.nOccsSmaller[d] <= |q|
    {
      assert v.nOccsSmaller[d] == OccsBelow(q, d);
      if d < 4 {
        OccsBelowMonotone(q, d, 4);
      }
    }
  }

  /** The bytes of levels whose counts fit. */
  lemma BytesFit(v: RSQVector)
    requires CountsFit(v)
    ensures CountsOf(v).Bytes() <= LEVEL_BYTES
  {
    Widths();
  }

  /** Writing a tree from construction and reading it back gives the same tree, word for word. */
  method Reload(t: QWaveletTree, s: seq<nat>, b: nat, tWidth: nat) returns (r: Option<QWaveletTree>)
    requires BlockSize(b) && TypeWidth(tWidth) && t.Represents(s)
    requires |s| > 0 ==> MaxSymbol(s, t.sigma) && t.nLevels == LevelsFor(t.sigma) <= 4 * tWidth && BuiltLevels(t.qvs, Rows(s, t.nLevels), b)
    requires |s| == 0 ==> Default(t.qvs, b)
    requires t.n < Pow256(8) && t.sigma < Pow256(8) && t.sigma < Pow256(tWidth)
    requires forall l :: 0 <= l < t.nLevels <= |t.qvs| ==> CountsFit(t.qvs[l])
    ensures r == Some(t)
  {
    hide QWaveletTree.Represents, BuiltLevels, Level, Acceptable, Written, Image, Rebuilt, Default, LevelsFor, FieldsFit, CursorAt, AlignUp, Described;
    TreeAcceptable(t, s, b, tWidth);
    var out, places := ToBytes(t, b, tWidth);
    FitsWritten(out[..], t, b, tWidth, places);
    r := FromBytes(out[..], b, tWidth);
    assert r.Some?;
    FreshLevels(out[..], r.value, b, tWidth);
    if |s| > 0 {
      TreeIsText(t, s);
      SameTree(r.value, t, s, b);
    } else {
      TreeIsEmpty(t, s);
      SameDefault(r.value.qvs, t.qvs, b);
    }
  }

  lemma FreshLevels(bytes: seq<Byte>, t: QWaveletTree, b: nat, tWidth: nat)
    requires BlockSize(b) && Described(bytes, t, b, tWidth)
    ensures if t.n > 0 then forall l :: 0 <= l < |t.qvs| ==> Rebuilt(t.qvs[l], b) else Default(t.qvs, b)
  {
    hide PartsNamed, Rebuilt, Default, Stack, MaxSymbol, LevelsFor;
  }

  lemma TreeIsEmpty(t: QWaveletTree, s: seq<nat>)
    requires t.Represents(s) && |s| == 0
    ensures t.n == t.nLevels == t.sigma == 0
  {}

  lemma SameDefault(a: seq<RSQVector>, c: seq<RSQVector>, b: nat)
    requires BlockSize(b) && Default(a, b) && Default(c, b)
    ensures a == c
  {
    hide Rebuilt;
    SameVector(a[0], c[0], b);
  }

  lemma TreeIsText(t: QWaveletTree, s: seq<nat>)
    requires t.Represents(s) && |s| > 0
    ensures t.n > 0 && t.Indexes(s)
  {}

  lemma TreeAcceptable(t: QWaveletTree, s: seq<nat>, b: nat, tWidth: nat)
    requires BlockSize(b) && t.Represents(s) && TypeWidth(tWidth)
    requires |s| > 0 ==> MaxSymbol(s, t.sigma) && t.nLevels == LevelsFor(t.sigma) <= 4 * tWidth
    requires |s| == 0 ==> Default(t.qvs, b)
    ensures AllLevelsValid(t.qvs) && |t.qvs| >= t.nLevels && Acceptable(t.n, t.nLevels, t.sigma, t.qvs, 4 * tWidth)
  {
    hide LevelsFor, Level, RSQVector.Valid;
    if |s| > 0 {
      BuiltIsAcceptable(t, s, 4 * tWidth);
    }
  }

  lemma FitsWritten(bytes: seq<Byte>, t: QWaveletTree, b: nat, tWidth: nat, places: seq<LevelPlace>)
    requires AllLevelsValid(t.qvs) && |t.qvs| >= t.nLevels && Acceptable(t.n, t.nLevels, t.sigma, t.qvs, 4 * tWidth)
    requires Image(bytes, t, b, tWidth, places) && |places| == t.nLevels
    requires t.n < Pow256(8) && t.sigma < Pow256(8) && t.sigma < Pow256(tWidth)
    requires forall l :: 0 <= l < t.nLevels ==> CountsFit(t.qvs[l])
    requires |bytes| == CursorAt(places, PayloadStart(t.nLevels), t.nLevels) <= PayloadStart(t.nLevels) + t.nLevels * (LEVEL_BYTES + 128)
    ensures Written(bytes, t, b, tWidth, places)
  {
    hide Acceptable, RSQVector.Valid, HeaderAt, DirectoryAt, PayloadsAt, AllPlaced, CursorAt, CountsFit, LevelDir.Fits, DirOf;
    assert t.nLevels <= MAX_QUAD_LEVELS by { FewLevelsAccepted(t, tWidth); }
    Widths();
    var qvs := t.qvs[..t.nLevels];
    assert PayloadStart(t.nLevels) <= 0x1_0000;
    forall l | 0 <= l < t.nLevels
      ensures |t.qvs[l].rsSupport.selectSamples| == 4 && DirOf(t.qvs[l], places[l]).Fits()
    {
      assert qvs[l] == t.qvs[l];
      OffsetsFit(qvs, places, PayloadStart(t.nLevels), l);
    }
  }

  lemma FewLevelsAccepted(t: QWaveletTree, tWidth: nat)
    requires AllLevelsValid(t.qvs) && Acceptable(t.n, t.nLevels, t.sigma, t.qvs, 4 * tWidth)
    ensures t.nLevels <= MAX_QUAD_LEVELS
  {}

  lemma SameTree(a: QWaveletTree, t: QWaveletTree, s: seq<nat>, b: nat)
    requires BlockSize(b) && a.n == t.n && a.nLevels == t.nLevels && a.sigma == t.sigma && SameVectors(a.qvs, t.qvs)
    requires t.Indexes(s) && BuiltLevels(t.qvs, Rows(s, t.nLevels), b)
    requires forall l :: 0 <= l < |a.qvs| ==> Rebuilt(a.qvs[l], b)
    ensures a == t
  {
    hide Level, LevelDigits, IsFinalSuperblocks, IsFinalSamples, QWaveletTree.Indexes;
    forall l | 0 <= l < |a.qvs|
      ensures a.qvs[l] == t.qvs[l]
    {
      assert a.qvs[l].qv == t.qvs[l].qv;
      assert BuiltLevel(t.qvs[l], Rows(s, t.nLevels), l, b);
      assert Rebuilt(a.qvs[l], b);
      SameVector(a.qvs[l], t.qvs[l], b);
    }
  }

  /** Equal symbols have equal support. */
  lemma SameVector(a: RSQVector, c: RSQVector, b: nat)
    requires BlockSize(b) && Rebuilt(a, b) && Rebuilt(c, b) && a.qv == c.qv
    ensures a == c
  {
    hide IsFinalSuperblocks, IsFinalSamples, SuperblocksOk, SamplesOk;
    var q := a.Contents();
    assert q == c.Contents();
    SameSuperblocks(q, b, a.rsSupport.superblocks, c.rsSupport.superblocks);
    SameSamples(q, b, a.rsSupport.selectSamples, c.rsSupport.selectSamples);
    assert a.nOccsSmaller == c.nOccsSmaller;
  }
}
