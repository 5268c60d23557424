/** Little-endian fields in a byte buffer that is filled from front to back. */
module ByteCodec {
  import opened Arithmetic
  import opened Bits
  import opened QuadVector
  import opened Superblock

  type Byte = x: int | 0 <= x < 256 witness 0

  function Pow256(w: nat): (r: nat)
    ensures r > 0
  {
    if w == 0 then 1 else 256 * Pow256(w - 1)
  }

  /** The `w` bytes of a number, lowest first. */
  function Le(v: nat, w: nat): (r: seq<Byte>)
    ensures |r| == w
  {
    if w == 0 then [] else [v % 256] + Le(v / 256, w - 1)
  }

  function FromLe(x: seq<Byte>): nat {
    if |x| == 0 then 0 else x[0] + 256 * FromLe(x[1..])
  }

  /** A number that fits its field reads back. */
  lemma {:induction false} LeReads(v: nat, w: nat)
    requires v < Pow256(w)
    ensures FromLe(Le(v, w)) == v
  {
    if w > 0 {
      assert v / 256 < Pow256(w - 1);
      LeReads(v / 256, w - 1);
      assert Le(v, w)[1..] == Le(v / 256, w - 1);
    }
  }

  lemma Widths()
    ensures Pow256(2) == 0x1_0000 && Pow256(4) == 0x1_0000_0000 && Pow256(8) == 0x1_0000_0000_0000_0000
  {
    assert Pow256(1) == 256;
    assert Pow256(3) == 0x100_0000;
    assert Pow256(6) == 0x1_0000_0000_0000;
  }

  /** Byte `k` of a number is its `k`-th digit to the base 256. */
  lemma {:induction false} LeDigit(v: nat, w: nat, k: nat)
    requires k < w
    ensures Le(v, w)[k] == v / Pow256(k) % 256
  {
    if k > 0 {
      LeDigit(v / 256, w - 1, k - 1);
      DivDiv(v, 256, Pow256(k - 1));
    }
  }

  /** Bytes are the digits of the number they are read as. */
  lemma {:induction false} LeOfBytes(x: seq<Byte>)
    ensures Le(FromLe(x), |x|) == x
  {
    if |x| > 0 {
      LeOfBytes(x[1..]);
      assert FromLe(x) % 256 == x[0] && FromLe(x) / 256 == FromLe(x[1..]);
      assert x == [x[0]] + x[1..];
    }
  }

  // ---- Fields ----

  /** The bytes `x` stand at `at`. */
  ghost predicate Stands(bytes: seq<Byte>, at: nat, x: seq<Byte>) {
    at + |x| <= |bytes| && bytes[at..at + |x|] == x
  }

  /** The lowest `w` bytes of a number stand at `at`, the lowest first. */
  ghost predicate Field(bytes: seq<Byte>, at: nat, w: nat, v: nat) {
    at + w <= |bytes| && forall k :: 0 <= k < w ==> bytes[at + k] == v / Pow256(k) % 256
  }

  lemma FieldIsLe(bytes: seq<Byte>, at: nat, w: nat, v: nat)
    ensures Field(bytes, at, w, v) <==> Stands(bytes, at, Le(v, w))
  {
    hide Le, Pow256;
    if at + w <= |bytes| {
      var x, le := bytes[at..at + w], Le(v, w);
      forall k | 0 <= k < w
        ensures x[k] == bytes[at + k] && le[k] == v / Pow256(k) % 256
      {
        LeDigit(v, w, k);
      }
      assert x == le <==> forall k :: 0 <= k < w ==> x[k] == le[k];
    }
  }

  ghost predicate FieldRow(bytes: seq<Byte>, at: nat, w: nat, vs: seq<nat>) {
    forall k :: 0 <= k < |vs| ==> Field(bytes, at + w * k, w, vs[k])
  }

  /** Nothing below `o` has changed. */
  ghost predicate Kept(was: seq<Byte>, now: seq<Byte>, o: nat) {
    |was| == |now| && o <= |was| && was[..o] == now[..o]
  }

  /** Nothing from `e` on has changed. */
  ghost predicate Spared(was: seq<Byte>, now: seq<Byte>, e: nat) {
    |was| == |now| && forall k :: e <= k < |was| ==> was[k] == now[k]
  }

  /** Two writes that both end before `e`. */
  lemma SparedBoth(a: seq<Byte>, b: seq<Byte>, c: seq<Byte>, e: nat, f: nat, g: nat)
    requires Spared(a, b, e) && Spared(b, c, f) && e <= g && f <= g
    ensures Spared(a, c, g)
  {}

  /** Nothing has been written from `o` on: the buffer starts with zeros. */
  ghost predicate Blank(bytes: seq<Byte>, o: nat) {
    forall k :: o <= k < |bytes| ==> bytes[k] == 0
  }

  /** The bytes between two sections. */
  ghost predicate Zeros(bytes: seq<Byte>, a: nat, e: nat) {
    e <= |bytes| && forall k :: a <= k < e ==> bytes[k] == 0
  }

  lemma BlankBehind(was: seq<Byte>, now: seq<Byte>, o: nat, e: nat)
    requires Blank(was, o) && Spared(was, now, e) && o <= e
    ensures Blank(now, e)
  {}

  lemma BlankLess(bytes: seq<Byte>, o: nat, e: nat)
    requires Blank(bytes, o) && o <= e
    ensures Blank(bytes, e)
  {}

  /** What a write skips stays zero. */
  lemma BlankSkipped(was: seq<Byte>, now: seq<Byte>, a: nat, o: nat)
    requires Blank(was, a) && Kept(was, now, o) && a <= o
    ensures Zeros(now, a, o)
  {
    forall k | a <= k < o
      ensures now[k] == 0
    {
      assert now[k] == now[..o][k] == was[..o][k];
    }
  }

  lemma ZerosKept(was: seq<Byte>, now: seq<Byte>, o: nat, a: nat, e: nat)
    requires Zeros(was, a, e) && Kept(was, now, o) && e <= o
    ensures Zeros(now, a, e)
  {
    forall k | a <= k < e
      ensures now[k] == 0
    {
      assert now[k] == now[..o][k] == was[..o][k];
    }
  }

  lemma StandsKept(was: seq<Byte>, now: seq<Byte>, o: nat, at: nat, x: seq<Byte>)
    requires Kept(was, now, o) && at + |x| <= o && Stands(was, at, x)
    ensures Stands(now, at, x)
  {
    assert now[at..at + |x|] == now[..o][at..at + |x|];
    assert was[at..at + |x|] == was[..o][at..at + |x|];
  }

  lemma FieldKept(was: seq<Byte>, now: seq<Byte>, o: nat, at: nat, w: nat, v: nat)
    requires Kept(was, now, o) && at + w <= o && Field(was, at, w, v)
    ensures Field(now, at, w, v)
  {
    forall j | at <= j < at + w
      ensures now[j] == was[j]
    {
      assert now[j] == now[..o][j] == was[..o][j];
    }
  }

  lemma FieldRowKept(was: seq<Byte>, now: seq<Byte>, o: nat, at: nat, w: nat, vs: seq<nat>)
    requires Kept(was, now, o) && at + w * |vs| <= o && FieldRow(was, at, w, vs)
    ensures FieldRow(now, at, w, vs)
  {
    hide Kept, Field;
    forall k | 0 <= k < |vs|
      ensures Field(now, at + w * k, w, vs[k])
    {
      assert Field(was, at + w * k, w, vs[k]);
      MulGap(k, |vs|, w);
      FieldKept(was, now, o, at + w * k, w, vs[k]);
    }
  }

  lemma KeptLess(was: seq<Byte>, now: seq<Byte>, o: nat, p: nat)
    requires Kept(was, now, o) && p <= o
    ensures Kept(was, now, p)
  {
    assert was[..p] == was[..o][..p] && now[..p] == now[..o][..p];
  }

  lemma KeptBoth(a: seq<Byte>, b: seq<Byte>, c: seq<Byte>, o: nat, p: nat)
    requires Kept(a, b, o) && Kept(b, c, p) && o <= p
    ensures Kept(a, c, o)
  {
    KeptLess(b, c, p, o);
  }

  lemma KeptSame(a: seq<Byte>, o: nat)
    requires o <= |a|
    ensures Kept(a, a, o)
  {}

  /** `copy_from_slice` */
  method Put(out: array<Byte>, o: nat, x: seq<Byte>)
    requires o + |x| <= out.Length
    modifies out
    ensures Stands(out[..], o, x) && Kept(old(out[..]), out[..], o) && Spared(old(out[..]), out[..], o + |x|)
  {
    var i := 0;
    while i < |x|
      invariant 0 <= i <= |x|
      invariant forall k :: 0 <= k < o ==> out[k] == old(out[k])
      invariant forall k :: o + |x| <= k < out.Length ==> out[k] == old(out[k])
      invariant forall k :: 0 <= k < i ==> out[o + k] == x[k]
    {
      out[o + i] := x[i];
      i := i + 1;
    }
    assert out[..][o..o + |x|] == x;
    assert out[..][..o] == old(out[..])[..o];
  }

  /** `put_u16`, `put_u32`, `put_u64` */
  method PutField(out: array<Byte>, o: nat, w: nat, v: nat) returns (next: nat)
    requires o + w <= out.Length
    modifies out
    ensures next == o + w && Field(out[..], o, w, v) && Kept(old(out[..]), out[..], o) && Spared(old(out[..]), out[..], next)
  {
    hide Stands, Kept, Field, Spared;
    Put(out, o, Le(v, w));
    FieldIsLe(out[..], o, w, v);
    next := o + w;
  }

  /** Several fields of one width in a row. */
  method PutFields(out: array<Byte>, o: nat, w: nat, vs: seq<nat>) returns (next: nat)
    requires o + w * |vs| <= out.Length
    modifies out
    ensures next == o + w * |vs| && FieldRow(out[..], o, w, vs) && Kept(old(out[..]), out[..], o) && Spared(old(out[..]), out[..], next)
  {
    hide Stands, Kept, Field;
    next := o;
    assert w * 0 == 0;
    KeptSame(out[..], o);
    var k := 0;
    while k < |vs|
      invariant 0 <= k <= |vs| && next == o + w * k
      invariant FieldRow(out[..], o, w, vs[..k]) && Kept(old(out[..]), out[..], o) && Spared(old(out[..]), out[..], next)
    {
      ghost var was := out[..];
      MulGap(k, |vs|, w);
      MulSuccessor(w, k);
      next := PutField(out, next, w, vs[k]);
      SparedBoth(old(out[..]), was, out[..], o + w * k, next, next);
      OneMoreField(was, out[..], o, w, vs, k);
      KeptBoth(old(out[..]), was, out[..], o, o + w * k);
      k := k + 1;
    }
    assert vs[..|vs|] == vs;
  }

  lemma MulSuccessor(w: nat, k: nat)
    ensures w * (k + 1) == w * k + w && w * k >= 0
  {}

  lemma OneMoreField(was: seq<Byte>, now: seq<Byte>, o: nat, w: nat, vs: seq<nat>, k: nat)
    requires k < |vs| && FieldRow(was, o, w, vs[..k]) && Kept(was, now, o + w * k) && Field(now, o + w * k, w, vs[k])
    ensures FieldRow(now, o, w, vs[..k + 1])
  {
    hide Field, Kept;
    FieldRowKept(was, now, o + w * k, o, w, vs[..k]);
    var next := vs[..k + 1];
    forall j | 0 <= j < |next|
      ensures Field(now, o + w * j, w, next[j])
    {
      if j < k {
        assert Field(now, o + w * j, w, vs[..k][j]);
      }
    }
  }

  /** `get_u16`, `get_u32`, `get_u64` */
  function GetField(bytes: seq<Byte>, o: nat, w: nat): (r: nat)
    requires o + w <= |bytes|
    ensures r < Pow256(w) && Field(bytes, o, w, r)
    ensures forall v: nat :: v < Pow256(w) && Field(bytes, o, w, v) ==> r == v
  {
    FieldReads(bytes, o, w);
    FromLeBound(bytes[o..o + w]);
    FromLe(bytes[o..o + w])
  }

  lemma {:induction false} FromLeBound(x: seq<Byte>)
    ensures FromLe(x) < Pow256(|x|)
  {
    if |x| > 0 {
      FromLeBound(x[1..]);
    }
  }

  lemma FieldReads(bytes: seq<Byte>, o: nat, w: nat)
    requires o + w <= |bytes|
    ensures Field(bytes, o, w, FromLe(bytes[o..o + w]))
    ensures forall v: nat :: v < Pow256(w) && Field(bytes, o, w, v) ==> FromLe(bytes[o..o + w]) == v
  {
    hide Field, Le, FromLe, Pow256;
    LeOfBytes(bytes[o..o + w]);
    FieldIsLe(bytes, o, w, FromLe(bytes[o..o + w]));
    forall v: nat | v < Pow256(w) && Field(bytes, o, w, v)
      ensures FromLe(bytes[o..o + w]) == v
    {
      FieldIsLe(bytes, o, w, v);
      LeReads(v, w);
    }
  }

  /** A number that fits is determined by its bytes. */
  lemma FieldOnce(bytes: seq<Byte>, at: nat, w: nat, a: nat, b: nat)
    requires Field(bytes, at, w, a) && Field(bytes, at, w, b) && a < Pow256(w) && b < Pow256(w)
    ensures a == b
  {
    hide Field, Pow256;
    FieldInside(bytes, at, w, a);
    FieldReads(bytes, at, w);
  }

  lemma FieldInside(bytes: seq<Byte>, at: nat, w: nat, v: nat)
    requires Field(bytes, at, w, v)
    ensures at + w <= |bytes|
  {}

  lemma FieldRowOnce(bytes: seq<Byte>, at: nat, w: nat, a: seq<nat>, b: seq<nat>)
    requires FieldRow(bytes, at, w, a) && FieldRow(bytes, at, w, b) && |a| == |b|
    requires forall k :: 0 <= k < |a| ==> a[k] < Pow256(w) && b[k] < Pow256(w)
    ensures a == b
  {
    hide Field, Pow256;
    forall k | 0 <= k < |a|
      ensures a[k] == b[k]
    {
      FieldOnce(bytes, at + w * k, w, a[k], b[k]);
    }
  }

  method GetFields(bytes: seq<Byte>, o: nat, w: nat, n: nat) returns (r: seq<nat>)
    requires o + w * n <= |bytes|
    ensures |r| == n && FieldRow(bytes, o, w, r) && forall k :: 0 <= k < n ==> r[k] < Pow256(w)
    ensures forall vs: seq<nat> :: |vs| == n && FieldRow(bytes, o, w, vs) && (forall k :: 0 <= k < n ==> vs[k] < Pow256(w)) ==> r == vs
  {
    hide GetField, Field;
    r := [];
    var k := 0;
    while k < n
      invariant 0 <= k <= n && |r| == k && FieldRow(bytes, o, w, r) && forall j :: 0 <= j < k ==> r[j] < Pow256(w)
      invariant forall vs: seq<nat> :: |vs| == n && FieldRow(bytes, o, w, vs) && (forall j :: 0 <= j < n ==> vs[j] < Pow256(w)) ==>
        forall j :: 0 <= j < k ==> r[j] == vs[j]
    {
      MulGap(k, n, w);
      r := r + [GetField(bytes, o + w * k, w)];
      k := k + 1;
    }
  }

  // ---- Data lines as bytes ----

  /** Bit `i` of a number. */
  ghost predicate Bit(x: nat, i: nat) {
    x / Pow2(i) % 2 == 1
  }

  /** The number whose binary digits, lowest first, are `b`. */
  function NumberOfBits(b: seq<bool>): nat {
    if |b| == 0 then 0 else (if b[0] then 1 else 0) + 2 * NumberOfBits(b[1..])
  }

  function BitsOfNumber(x: nat, n: nat): (r: seq<bool>)
    ensures |r| == n
  {
    if n == 0 then [] else [x % 2 == 1] + BitsOfNumber(x / 2, n - 1)
  }

  lemma {:induction false} BitsRead(b: seq<bool>)
    ensures BitsOfNumber(NumberOfBits(b), |b|) == b
    ensures NumberOfBits(b) < Pow2(|b|)
  {
    if |b| > 0 {
      BitsRead(b[1..]);
      assert NumberOfBits(b) / 2 == NumberOfBits(b[1..]);
      assert b == [b[0]] + b[1..];
    }
  }

  lemma {:induction false} BitOfNumber(x: nat, n: nat, i: nat)
    requires i < n
    ensures BitsOfNumber(x, n)[i] <==> Bit(x, i)
  {
    if i > 0 {
      BitOfNumber(x / 2, n - 1, i - 1);
      DivDiv(x, 2, Pow2(i - 1));
    }
  }

  /** Eight bits as a byte, lowest first. */
  function ByteOfBits(b: seq<bool>): (r: Byte)
    requires |b| == 8
    ensures forall i :: 0 <= i < 8 ==> (b[i] <==> Bit(r, i))
  {
    BitsRead(b);
    assert Pow2(4) == 16;
    assert forall i :: 0 <= i < 8 ==> (b[i] <==> Bit(NumberOfBits(b), i)) by { ByteBits(NumberOfBits(b), b); }
    NumberOfBits(b)
  }

  lemma ByteBits(x: nat, b: seq<bool>)
    requires |b| == 8 && BitsOfNumber(x, 8) == b
    ensures forall i :: 0 <= i < 8 ==> (b[i] <==> Bit(x, i))
  {
    hide BitsOfNumber, Bit;
    forall i: nat | i < 8
      ensures b[i] <==> Bit(x, i)
    {
      BitOfNumber(x, 8, i);
    }
  }

  function BitsOfByte(x: Byte): (r: seq<bool>)
    ensures |r| == 8 && forall i :: 0 <= i < 8 ==> (r[i] <==> Bit(x, i))
  {
    ByteBits(x, BitsOfNumber(x, 8));
    BitsOfNumber(x, 8)
  }

  /** The 64 bytes of a line stand at `at`: bit `i` of word `t` is bit `i % 8` of byte `16 * t + i / 8`. */
  ghost predicate LineAt(bytes: seq<Byte>, at: nat, line: DataLine) {
    && ValidLine(line) && at + 64 <= |bytes|
    && forall t, i :: 0 <= t < 4 && 0 <= i < 128 ==> (line.words[t][i] <==> Bit(bytes[at + 16 * t + i / 8], i % 8))
  }

  /** The 64 bytes of a line: four 128-bit words, lowest byte first. */
  function LineBytes(line: DataLine): (r: seq<Byte>)
    requires ValidLine(line)
    ensures |r| == 64
  {
    seq(64, k requires 0 <= k < 64 => ByteOfBits(line.words[k / 16][8 * (k % 16)..8 * (k % 16) + 8]))
  }

  lemma LineStands(bytes: seq<Byte>, at: nat, line: DataLine)
    requires ValidLine(line) && Stands(bytes, at, LineBytes(line))
    ensures LineAt(bytes, at, line)
  {
    hide ByteOfBits, Bit;
    forall t, i | 0 <= t < 4 && 0 <= i < 128
      ensures line.words[t][i] <==> Bit(bytes[at + 16 * t + i / 8], i % 8)
    {
      var k := 16 * t + i / 8;
      assert k / 16 == t && k % 16 == i / 8;
      var b := line.words[t][8 * (i / 8)..8 * (i / 8) + 8];
      assert bytes[at + k] == bytes[at..at + 64][k] == LineBytes(line)[k] == ByteOfBits(b);
      assert b[i % 8] == line.words[t][i];
    }
  }

  /** A symbol straight from the file: its high bit is in the first half of the line, its low bit 32 bytes further. */
  lemma SymbolInBytes(bytes: seq<Byte>, at: nat, line: DataLine, o: nat)
    requires LineAt(bytes, at, line) && o < 256
    ensures SymbolAt(line, o) / 2 == 1 <==> Bit(bytes[at + o / 8], o % 8)
    ensures SymbolAt(line, o) % 2 == 1 <==> Bit(bytes[at + 32 + o / 8], o % 8)
  {
    hide Bit;
    var t, i := o / 128, o % 128;
    assert line.words[t][i] <==> Bit(bytes[at + 16 * t + i / 8], i % 8);
    assert line.words[t + 2][i] <==> Bit(bytes[at + 16 * (t + 2) + i / 8], i % 8);
    assert 16 * t + i / 8 == o / 8 && i % 8 == o % 8;
  }

  function WordOfBytes(x: seq<Byte>): (r: Bits128)
    requires |x| == 16
  {
    seq(128, i requires 0 <= i < 128 => BitsOfByte(x[i / 8])[i % 8])
  }

  /** The line that stands in 64 bytes. */
  function LineOfBytes(x: seq<Byte>): (r: DataLine)
    requires |x| == 64
    ensures LineAt(x, 0, r)
  {
    var r := DataLine([WordOfBytes(x[..16]), WordOfBytes(x[16..32]), WordOfBytes(x[32..48]), WordOfBytes(x[48..])]);
    assert LineAt(x, 0, r) by { WordsRead(x, r); }
    r
  }

  lemma WordsRead(x: seq<Byte>, r: DataLine)
    requires |x| == 64 && r == DataLine([WordOfBytes(x[..16]), WordOfBytes(x[16..32]), WordOfBytes(x[32..48]), WordOfBytes(x[48..])])
    ensures LineAt(x, 0, r)
  {
    hide Bit, BitsOfByte;
    forall t, i | 0 <= t < 4 && 0 <= i < 128
      ensures r.words[t][i] <==> Bit(x[16 * t + i / 8], i % 8)
    {
      assert r.words[t] == WordOfBytes(x[16 * t..16 * t + 16]);
      assert x[16 * t..16 * t + 16][i / 8] == x[16 * t + i / 8];
    }
  }

  /** Bytes determine the line. */
  lemma LineOnce(bytes: seq<Byte>, at: nat, a: DataLine, b: DataLine)
    requires LineAt(bytes, at, a) && LineAt(bytes, at, b)
    ensures a == b
  {
    hide Bit;
    forall t | 0 <= t < 4
      ensures a.words[t] == b.words[t]
    {
      forall i | 0 <= i < 128
        ensures a.words[t][i] == b.words[t][i]
      {}
    }
    assert a.words == b.words;
  }

  lemma LineKept(was: seq<Byte>, now: seq<Byte>, o: nat, at: nat, line: DataLine)
    requires Kept(was, now, o) && at + 64 <= o && LineAt(was, at, line)
    ensures LineAt(now, at, line)
  {
    hide Bit;
    forall j | at <= j < at + 64
      ensures now[j] == was[j]
    {
      assert now[j] == now[..o][j] == was[..o][j];
    }
  }

  lemma LineInSlice(bytes: seq<Byte>, at: nat, line: DataLine)
    requires at + 64 <= |bytes| && LineAt(bytes[at..at + 64], 0, line)
    ensures LineAt(bytes, at, line)
  {
    hide Bit;
    forall j | at <= j < at + 64
      ensures bytes[at..at + 64][j - at] == bytes[j]
    {}
  }
}
