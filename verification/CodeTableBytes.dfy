/** Code tables in a byte buffer: 8 bytes for a code, 12 for a decode entry, 4 in front of every bucket. */
module CodeTableBytes {
  import opened Wrappers
  import opened Arithmetic
  import opened CraftCodes
  import opened DecodeTables
  import opened ByteCodec
  import opened LevelBytes

  // ---- Codes ----

  ghost predicate CodeAt(bytes: seq<Byte>, at: nat, c: PrefixCode) {
    Field(bytes, at, 4, c.content) && Field(bytes, at + 4, 4, c.len)
  }

  ghost predicate CodesAt(bytes: seq<Byte>, at: nat, codes: seq<PrefixCode>) {
    forall i :: 0 <= i < |codes| ==> CodeAt(bytes, at + 8 * i, codes[i])
  }

  ghost predicate CodesFit(codes: seq<PrefixCode>) {
    forall i :: 0 <= i < |codes| ==> codes[i].content < Pow256(4) && codes[i].len < Pow256(4)
  }

  lemma CodesKept(was: seq<Byte>, now: seq<Byte>, o: nat, at: nat, codes: seq<PrefixCode>)
    requires Kept(was, now, o) && at + 8 * |codes| <= o && CodesAt(was, at, codes)
    ensures CodesAt(now, at, codes)
  {
    hide Kept, Field;
    forall i | 0 <= i < |codes|
      ensures CodeAt(now, at + 8 * i, codes[i])
    {
      assert CodeAt(was, at + 8 * i, codes[i]);
      FieldKept(was, now, o, at + 8 * i, 4, codes[i].content);
      FieldKept(was, now, o, at + 8 * i + 4, 4, codes[i].len);
    }
  }

  method WriteCode(c: PrefixCode, out: array<Byte>, at: nat)
    requires at + 8 <= out.Length
    modifies out
    ensures CodeAt(out[..], at, c) && Kept(old(out[..]), out[..], at) && Spared(old(out[..]), out[..], at + 8)
  {
    hide Kept, Field, Spared;
    var o := PutField(out, at, 4, c.content);
    ghost var was := out[..];
    o := PutField(out, o, 4, c.len);
    SparedBoth(old(out[..]), was, out[..], at + 4, o, at + 8);
    FieldKept(was, out[..], at + 4, at, 4, c.content);
    KeptBoth(old(out[..]), was, out[..], at, at + 4);
  }

  method WriteCodes(codes: seq<PrefixCode>, out: array<Byte>, at: nat)
    requires at + 8 * |codes| <= out.Length
    modifies out
    ensures CodesAt(out[..], at, codes) && Kept(old(out[..]), out[..], at) && Spared(old(out[..]), out[..], at + 8 * |codes|)
  {
    hide Kept, CodeAt, Spared;
    KeptSame(out[..], at);
    SparedSame(out[..], at);
    var i := 0;
    while i < |codes|
      invariant 0 <= i <= |codes|
      invariant CodesAt(out[..], at, codes[..i]) && Kept(old(out[..]), out[..], at) && Spared(old(out[..]), out[..], at + 8 * i)
    {
      ghost var was := out[..];
      WriteCode(codes[i], out, at + 8 * i);
      SparedBoth(old(out[..]), was, out[..], at + 8 * i, at + 8 * i + 8, at + 8 * (i + 1));
      CodesKept(was, out[..], at + 8 * i, at, codes[..i]);
      KeptBoth(old(out[..]), was, out[..], at, at + 8 * i);
      i := i + 1;
    }
    assert codes[..|codes|] == codes;
  }

  /** Bytes determine the codes. */
  lemma CodesReadOnce(bytes: seq<Byte>, at: nat, a: seq<PrefixCode>, b: seq<PrefixCode>)
    requires |a| == |b| && CodesFit(a) && CodesFit(b) && CodesAt(bytes, at, a) && CodesAt(bytes, at, b)
    ensures a == b
  {
    hide Field, Pow256;
    forall i | 0 <= i < |a|
      ensures a[i] == b[i]
    {
      assert CodeAt(bytes, at + 8 * i, a[i]) && CodeAt(bytes, at + 8 * i, b[i]);
      FieldOnce(bytes, at + 8 * i, 4, a[i].content, b[i].content);
      FieldOnce(bytes, at + 8 * i + 4, 4, a[i].len, b[i].len);
    }
  }

  method ReadCodes(bytes: seq<Byte>, at: nat, n: nat) returns (codes: seq<PrefixCode>)
    requires at + 8 * n <= |bytes|
    ensures |codes| == n && CodesFit(codes) && CodesAt(bytes, at, codes)
  {
    hide Field, GetField, Pow256;
    codes := [];
    var i := 0;
    while i < n
      invariant 0 <= i <= n && |codes| == i && CodesFit(codes) && CodesAt(bytes, at, codes)
    {
      var base := at + i * 8;
      var code := PrefixCode(GetField(bytes, base, 4), GetField(bytes, base + 4, 4));
      codes := codes + [code];
      i := i + 1;
    }
  }

  // ---- One bucket ----

  ghost predicate EntryAt(bytes: seq<Byte>, at: nat, e: Entry) {
    Field(bytes, at, 4, e.content) && Field(bytes, at + 4, 8, e.symbol)
  }

  ghost predicate EntriesAt(bytes: seq<Byte>, at: nat, bucket: seq<Entry>) {
    forall i :: 0 <= i < |bucket| ==> EntryAt(bytes, at + 12 * i, bucket[i])
  }

  ghost predicate BucketAt(bytes: seq<Byte>, at: nat, bucket: seq<Entry>) {
    Field(bytes, at, 4, |bucket|) && EntriesAt(bytes, at + 4, bucket) && at + BucketSize(bucket) <= |bytes|
  }

  function BucketSize(bucket: seq<Entry>): nat {
    4 + 12 * |bucket|
  }

  /** Numbers that fit, and symbols of the requested type. */
  ghost predicate BucketFits(bucket: seq<Entry>, tWidth: nat) {
    |bucket| < Pow256(4) && forall i :: 0 <= i < |bucket| ==> bucket[i].content < Pow256(4) && bucket[i].symbol < Pow256(8) && bucket[i].symbol < Pow256(tWidth)
  }

  lemma EntriesKept(was: seq<Byte>, now: seq<Byte>, o: nat, at: nat, bucket: seq<Entry>)
    requires Kept(was, now, o) && at + 12 * |bucket| <= o && EntriesAt(was, at, bucket)
    ensures EntriesAt(now, at, bucket)
  {
    hide Kept, Field;
    forall i | 0 <= i < |bucket|
      ensures EntryAt(now, at + 12 * i, bucket[i])
    {
      assert EntryAt(was, at + 12 * i, bucket[i]);
      FieldKept(was, now, o, at + 12 * i, 4, bucket[i].content);
      FieldKept(was, now, o, at + 12 * i + 4, 8, bucket[i].symbol);
    }
  }

  lemma BucketKept(was: seq<Byte>, now: seq<Byte>, o: nat, at: nat, bucket: seq<Entry>)
    requires Kept(was, now, o) && at + BucketSize(bucket) <= o && BucketAt(was, at, bucket)
    ensures BucketAt(now, at, bucket)
  {
    hide Field, EntriesAt;
    FieldKept(was, now, o, at, 4, |bucket|);
    EntriesKept(was, now, o, at + 4, bucket);
  }

  method WriteEntry(e: Entry, out: array<Byte>, at: nat)
    requires at + 12 <= out.Length
    modifies out
    ensures EntryAt(out[..], at, e) && Kept(old(out[..]), out[..], at) && Spared(old(out[..]), out[..], at + 12)
  {
    hide Kept, Field, Spared;
    var o := PutField(out, at, 4, e.content);
    ghost var was := out[..];
    o := PutField(out, o, 8, e.symbol);
    SparedBoth(old(out[..]), was, out[..], at + 4, o, at + 12);
    FieldKept(was, out[..], at + 4, at, 4, e.content);
    KeptBoth(old(out[..]), was, out[..], at, at + 4);
  }

  method WriteBucket(bucket: seq<Entry>, out: array<Byte>, at: nat) returns (next: nat)
    requires at + BucketSize(bucket) <= out.Length
    modifies out
    ensures next == at + BucketSize(bucket) && BucketAt(out[..], at, bucket) && Kept(old(out[..]), out[..], at)
    ensures Spared(old(out[..]), out[..], next)
  {
    hide Kept, Field, EntryAt, Spared;
    next := PutField(out, at, 4, |bucket|);
    var i := 0;
    while i < |bucket|
      invariant 0 <= i <= |bucket| && next == at + 4 + 12 * i
      invariant Field(out[..], at, 4, |bucket|) && EntriesAt(out[..], at + 4, bucket[..i]) && Kept(old(out[..]), out[..], at)
      invariant Spared(old(out[..]), out[..], next)
    {
      ghost var was := out[..];
      WriteEntry(bucket[i], out, next);
      SparedBoth(old(out[..]), was, out[..], next, next + 12, next + 12);
      FieldKept(was, out[..], next, at, 4, |bucket|);
      EntriesKept(was, out[..], next, at + 4, bucket[..i]);
      KeptBoth(old(out[..]), was, out[..], at, next);
      next := next + 12;
      i := i + 1;
    }
    assert bucket[..|bucket|] == bucket;
  }

  /** Reads a bucket; a symbol that does not fit the type, or a bucket past the end, is refused. */
  method ReadBucket(bytes: seq<Byte>, at: nat, tWidth: nat) returns (r: Option<seq<Entry>>, next: nat)
    ensures r.Some? ==> next == at + BucketSize(r.value) <= |bytes| && BucketFits(r.value, tWidth) && BucketAt(bytes, at, r.value)
    ensures forall x: seq<Entry> :: BucketFits(x, tWidth) && BucketAt(bytes, at, x) ==> r == Some(x) && next == at + BucketSize(x)
  {
    hide Field, GetField, Pow256;
    next := at;
    if !InBounds(at, 1, 4, |bytes|) {
      return None, next;
    }
    var nEntries := GetField(bytes, at, 4);
    next := at + 4;
    if !InBounds(next, nEntries, 12, |bytes|) {
      return None, next;
    }
    var bucket: seq<Entry> := [];
    while |bucket| < nEntries
      invariant |bucket| <= nEntries && next == at + 4 + 12 * |bucket| && EntriesAt(bytes, at + 4, bucket)
      invariant forall i :: 0 <= i < |bucket| ==> bucket[i].content < Pow256(4) && bucket[i].symbol < Pow256(8) && bucket[i].symbol < Pow256(tWidth)
      invariant forall x: seq<Entry> :: BucketFits(x, tWidth) && BucketAt(bytes, at, x) ==> |x| == nEntries && bucket == x[..|bucket|]
      decreases nEntries - |bucket|
    {
      var content := GetField(bytes, next, 4);
      var symbol := GetField(bytes, next + 4, 8);
      forall x: seq<Entry> | BucketFits(x, tWidth) && BucketAt(bytes, at, x)
        ensures Entry(content, symbol) == x[|bucket|] && symbol < Pow256(tWidth)
      {
        assert EntryAt(bytes, at + 4 + 12 * |bucket|, x[|bucket|]);
      }
      if symbol >= Pow256(tWidth) {
        return None, next;
      }
      bucket := bucket + [Entry(content, symbol)];
      next := next + 12;
    }
    r := Some(bucket);
    forall x: seq<Entry> | BucketFits(x, tWidth) && BucketAt(bytes, at, x)
      ensures r == Some(x)
    {
      assert x[..nEntries] == x;
    }
  }

  // ---- All buckets ----

  function TableSize(decode: seq<seq<Entry>>): nat {
    if |decode| == 0 then 0 else TableSize(decode[..|decode| - 1]) + BucketSize(decode[|decode| - 1])
  }

  ghost predicate TableAt(bytes: seq<Byte>, at: nat, decode: seq<seq<Entry>>) {
    forall k :: 0 <= k < |decode| ==> BucketAt(bytes, at + TableSize(decode[..k]), decode[k])
  }

  ghost predicate TableFits(decode: seq<seq<Entry>>, tWidth: nat) {
    forall k :: 0 <= k < |decode| ==> BucketFits(decode[k], tWidth)
  }

  lemma {:induction false} TableGrows(decode: seq<seq<Entry>>, k: nat)
    requires k < |decode|
    ensures TableSize(decode[..k]) + BucketSize(decode[k]) == TableSize(decode[..k + 1]) <= TableSize(decode)
    decreases |decode| - k
  {
    assert decode[..k + 1][..k] == decode[..k];
    if k + 1 < |decode| {
      TableGrows(decode, k + 1);
    } else {
      assert decode[..k + 1] == decode;
    }
  }

  lemma TableKept(was: seq<Byte>, now: seq<Byte>, o: nat, at: nat, decode: seq<seq<Entry>>)
    requires Kept(was, now, o) && at + TableSize(decode) <= o && TableAt(was, at, decode)
    ensures TableAt(now, at, decode)
  {
    hide Kept, BucketAt, BucketSize, TableSize;
    forall k | 0 <= k < |decode|
      ensures BucketAt(now, at + TableSize(decode[..k]), decode[k])
    {
      TableGrows(decode, k);
      BucketKept(was, now, o, at + TableSize(decode[..k]), decode[k]);
    }
  }

  lemma TableNext(bytes: seq<Byte>, at: nat, decode: seq<seq<Entry>>, k: nat)
    requires k < |decode| && TableAt(bytes, at, decode[..k]) && BucketAt(bytes, at + TableSize(decode[..k]), decode[k])
    ensures TableAt(bytes, at, decode[..k + 1])
  {
    hide BucketAt, TableSize;
    var next := decode[..k + 1];
    forall j | 0 <= j < |next|
      ensures BucketAt(bytes, at + TableSize(next[..j]), next[j])
    {
      assert next[..j] == decode[..j];
      if j < k {
        assert decode[..k][..j] == decode[..j] && decode[..k][j] == next[j];
      }
    }
  }

  method WriteTable(decode: seq<seq<Entry>>, out: array<Byte>, at: nat)
    requires at + TableSize(decode) <= out.Length
    modifies out
    ensures TableAt(out[..], at, decode) && Kept(old(out[..]), out[..], at) && Spared(old(out[..]), out[..], at + TableSize(decode))
  {
    hide Kept, BucketAt, BucketSize, Spared;
    KeptSame(out[..], at);
    SparedSame(out[..], at);
    var next, k := at, 0;
    while k < |decode|
      invariant 0 <= k <= |decode| && next == at + TableSize(decode[..k])
      invariant TableAt(out[..], at, decode[..k]) && Kept(old(out[..]), out[..], at) && Spared(old(out[..]), out[..], next)
    {
      ghost var was := out[..];
      TableGrows(decode, k);
      ghost var o := next;
      next := WriteBucket(decode[k], out, next);
      SparedBoth(old(out[..]), was, out[..], o, next, next);
      TableKept(was, out[..], o, at, decode[..k]);
      TableNext(out[..], at, decode, k);
      KeptBoth(old(out[..]), was, out[..], at, o);
      k := k + 1;
    }
    assert decode[..|decode|] == decode;
  }

  method ReadTable(bytes: seq<Byte>, at: nat, n: nat, tWidth: nat) returns (r: Option<seq<seq<Entry>>>)
    ensures r.Some? ==> |r.value| == n && TableFits(r.value, tWidth) && TableAt(bytes, at, r.value)
    ensures forall x: seq<seq<Entry>> :: |x| == n && TableFits(x, tWidth) && TableAt(bytes, at, x) ==> r == Some(x)
  {
    hide BucketAt, BucketFits, BucketSize, TableSize;
    var decode: seq<seq<Entry>> := [];
    var next := at;
    EmptyTable();
    while |decode| < n
      invariant |decode| <= n && next == at + TableSize(decode) && TableFits(decode, tWidth) && TableAt(bytes, at, decode)
      invariant forall x: seq<seq<Entry>> :: |x| == n && TableFits(x, tWidth) && TableAt(bytes, at, x) ==>
        decode == x[..|decode|] && next == at + TableSize(decode)
      decreases n - |decode|
    {
      ghost var k, o := |decode|, next;
      var bucket;
      bucket, next := ReadBucket(bytes, next, tWidth);
      forall x: seq<seq<Entry>> | |x| == n && TableFits(x, tWidth) && TableAt(bytes, at, x)
        ensures bucket == Some(x[k]) && next == at + TableSize(x[..k + 1])
      {
        assert BucketAt(bytes, at + TableSize(x[..k]), x[k]);
        TableGrows(x, k);
      }
      if bucket.None? {
        return None;
      }
      assert decode[..k] == decode && (decode + [bucket.value])[..k] == decode && (decode + [bucket.value])[..k + 1] == decode + [bucket.value];
      TableNext(bytes, at, decode + [bucket.value], k);
      TableGrows(decode + [bucket.value], k);
      decode := decode + [bucket.value];
      forall x: seq<seq<Entry>> | |x| == n && TableFits(x, tWidth) && TableAt(bytes, at, x)
        ensures decode == x[..k + 1]
      {}
    }
    r := Some(decode);
    forall x: seq<seq<Entry>> | |x| == n && TableFits(x, tWidth) && TableAt(bytes, at, x)
      ensures r == Some(x)
    {
      assert x[..n] == x;
    }
  }

  lemma BucketReadOnce(bytes: seq<Byte>, at: nat, a: seq<Entry>, b: seq<Entry>, tWidth: nat)
    requires BucketFits(a, tWidth) && BucketFits(b, tWidth) && BucketAt(bytes, at, a) && BucketAt(bytes, at, b)
    ensures a == b
  {
    hide Field, Pow256;
    FieldOnce(bytes, at, 4, |a|, |b|);
    forall i | 0 <= i < |a|
      ensures a[i] == b[i]
    {
      assert EntryAt(bytes, at + 4 + 12 * i, a[i]) && EntryAt(bytes, at + 4 + 12 * i, b[i]);
      FieldOnce(bytes, at + 4 + 12 * i, 4, a[i].content, b[i].content);
      FieldOnce(bytes, at + 4 + 12 * i + 4, 8, a[i].symbol, b[i].symbol);
    }
  }

  /** Bytes determine the decode table. */
  lemma {:induction false} TableReadOnce(bytes: seq<Byte>, at: nat, a: seq<seq<Entry>>, b: seq<seq<Entry>>, tWidth: nat, k: nat)
    requires |a| == |b| && TableFits(a, tWidth) && TableFits(b, tWidth) && TableAt(bytes, at, a) && TableAt(bytes, at, b) && k <= |a|
    ensures a[..k] == b[..k]
  {
    hide BucketAt, BucketFits, TableSize;
    if k > 0 {
      TableReadOnce(bytes, at, a, b, tWidth, k - 1);
      BucketReadOnce(bytes, at + TableSize(a[..k - 1]), a[k - 1], b[k - 1], tWidth);
      assert a[..k] == a[..k - 1] + [a[k - 1]] && b[..k] == b[..k - 1] + [b[k - 1]];
    }
  }

  lemma EmptyTable()
    ensures TableSize([]) == 0
  {}
}
