/** The decode table of the Huffman-shaped tree: one bucket per code length, searched by content. */
module DecodeTables {
  import opened Wrappers
  import opened CraftCodes
  import opened SortByKey

  /** A code content and its symbol. */
  datatype Entry = Entry(content: nat, symbol: nat)

  ghost predicate Ascending(bucket: seq<Entry>) {
    forall i, j :: 0 <= i < j < |bucket| ==> bucket[i].content < bucket[j].content
  }

  /** Every entry of bucket `len` is the code of its symbol. */
  ghost predicate EntriesOf(bucket: seq<Entry>, len: nat, encode: seq<PrefixCode>) {
    forall i :: 0 <= i < |bucket| ==> bucket[i].symbol < |encode| && encode[bucket[i].symbol] == PrefixCode(bucket[i].content, len)
  }

  /** Bucket `len` holds the symbols below `upTo` that have a code of that length, and nothing else. */
  ghost predicate BucketOf(bucket: seq<Entry>, len: nat, encode: seq<PrefixCode>, upTo: nat)
    requires upTo <= |encode|
  {
    && EntriesOf(bucket, len, encode)
    && forall x :: 0 <= x < upTo && len > 0 && encode[x].len == len ==> Entry(encode[x].content, x) in bucket
  }

  /** The decode table is the encode table read backwards. */
  ghost predicate Decodes(decode: seq<seq<Entry>>, encode: seq<PrefixCode>) {
    && (forall x :: 0 <= x < |encode| && encode[x].len > 0 ==> encode[x].len < |decode|)
    && forall len: nat :: len < |decode| ==> Ascending(decode[len]) && BucketOf(decode[len], len, encode, |encode|)
  }

  /** Codes that are read backwards through one table differ. */
  lemma DecodedOnce(decode: seq<seq<Entry>>, encode: seq<PrefixCode>, x: nat, y: nat)
    requires Decodes(decode, encode) && x < |encode| && y < |encode| && encode[x].len > 0 && encode[x] == encode[y]
    ensures x == y
  {
    var len, content := encode[x].len, encode[x].content;
    var bucket := decode[len];
    assert Entry(content, x) in bucket && Entry(content, y) in bucket;
    var i :| 0 <= i < |bucket| && bucket[i] == Entry(content, x);
    var j :| 0 <= j < |bucket| && bucket[j] == Entry(content, y);
    assert i == j;
  }

  /**
   Binary search. On an unordered bucket a hit is still a hit; a miss then says
   nothing.
   */
  method Search(bucket: seq<Entry>, key: nat) returns (r: Option<nat>)
    ensures r.Some? ==> r.value < |bucket| && bucket[r.value].content == key
    ensures r.None? && Ascending(bucket) ==> forall i :: 0 <= i < |bucket| ==> bucket[i].content != key
  {
    var lo, hi := 0, |bucket|;
    while lo < hi
      invariant 0 <= lo <= hi <= |bucket|
      invariant Ascending(bucket) ==> forall i :: 0 <= i < |bucket| && !(lo <= i < hi) ==> bucket[i].content != key
    {
      var mid := (lo + hi) / 2;
      if bucket[mid].content == key {
        return Some(mid);
      } else if bucket[mid].content < key {
        lo := mid + 1;
      } else {
        hi := mid;
      }
    }
    return None;
  }

  /** The code of a symbol is found, and stands for no other symbol. */
  method Decode(decode: seq<seq<Entry>>, ghost encode: seq<PrefixCode>, len: nat, content: nat, ghost x: nat) returns (r: Option<nat>)
    requires Decodes(decode, encode) && x < |encode| && encode[x] == PrefixCode(content, len) && len > 0
    requires forall y :: 0 <= y < |encode| && encode[y] == encode[x] ==> y == x
    ensures r == Some(x)
  {
    var idx := Search(decode[len], content);
    assert Entry(content, x) in decode[len];
    r := Some(decode[len][idx.value].symbol);
  }

  function ContentKey(e: Entry): Key3 {
    (e.content, 0, 0)
  }

  lemma PushEntry(bucket: seq<Entry>, len: nat, encode: seq<PrefixCode>, x: nat)
    requires x < |encode| && BucketOf(bucket, len, encode, x)
    ensures encode[x].len == len > 0 ==> BucketOf(bucket + [Entry(encode[x].content, x)], len, encode, x + 1)
    ensures encode[x].len != len ==> BucketOf(bucket, len, encode, x + 1)
    ensures len == 0 && bucket == [] ==> BucketOf([], len, encode, x + 1)
  {
    var next := bucket + [Entry(encode[x].content, x)];
    assert forall e :: e in bucket ==> e in next;
    assert next[|bucket|] == Entry(encode[x].content, x);
  }

  /** Sorting a bucket by content keeps its entries; different codes make the order strict. */
  lemma {:induction false} SortedBucket(bucket: seq<Entry>, len: nat, encode: seq<PrefixCode>)
    requires BucketOf(bucket, len, encode, |encode|) && (len == 0 ==> bucket == [])
    requires forall i, j :: 0 <= i < j < |bucket| ==> bucket[i].symbol < bucket[j].symbol
    requires forall x, y :: 0 <= x < |encode| && 0 <= y < |encode| && encode[x].len > 0 && encode[x] == encode[y] ==> x == y
    ensures var r := Sort(bucket, ContentKey);
      Ascending(r) && BucketOf(r, len, encode, |encode|) && (len == 0 ==> r == [])
  {
    var r := Sort(bucket, ContentKey);
    SortInOrder(bucket, ContentKey);
    SortElements(bucket, ContentKey);
    forall i | 0 <= i < |r|
      ensures r[i].symbol < |encode| && encode[r[i].symbol] == PrefixCode(r[i].content, len)
    {
      assert r[i] in bucket;
    }
    forall i, j | 0 <= i < j < |r|
      ensures r[i].content < r[j].content
    {
      assert KeyLe(ContentKey(r[i]), ContentKey(r[j]));
      SortedOnce(bucket, r, i, j);
      ContentsDiffer(r[i], r[j], len, encode);
    }
  }

  lemma ContentsDiffer(a: Entry, b: Entry, len: nat, encode: seq<PrefixCode>)
    requires a.symbol < |encode| && encode[a.symbol] == PrefixCode(a.content, len)
    requires b.symbol < |encode| && encode[b.symbol] == PrefixCode(b.content, len)
    requires len > 0 && a != b
    requires forall x, y :: 0 <= x < |encode| && 0 <= y < |encode| && encode[x].len > 0 && encode[x] == encode[y] ==> x == y
    ensures a.content != b.content
  {
    assert a.symbol != b.symbol ==> encode[a.symbol] != encode[b.symbol];
  }

  lemma SortedOnce(bucket: seq<Entry>, r: seq<Entry>, i: nat, j: nat)
    requires multiset(r) == multiset(bucket) && i < j < |r|
    requires forall a, b :: 0 <= a < b < |bucket| ==> bucket[a].symbol < bucket[b].symbol
    ensures r[i] != r[j]
  {
    EntryOnce(bucket, r[i]);
    if r[i] == r[j] {
      EntryTwice(r, i, j);
    }
  }

  lemma EntryTwice(r: seq<Entry>, i: nat, j: nat)
    requires i < j < |r| && r[i] == r[j]
    ensures multiset(r)[r[i]] >= 2
  {
    assert r == r[..j] + [r[j]] + r[j + 1..];
    assert r[i] in r[..j];
  }

  lemma {:induction false} EntryOnce(bucket: seq<Entry>, e: Entry)
    requires forall a, b :: 0 <= a < b < |bucket| ==> bucket[a].symbol < bucket[b].symbol
    ensures multiset(bucket)[e] <= 1
  {
    if |bucket| > 0 {
      var n := |bucket| - 1;
      EntryOnce(bucket[..n], e);
      assert bucket == bucket[..n] + [bucket[n]];
      if e == bucket[n] {
        assert e !in bucket[..n];
      }
    }
  }

  ghost predicate Unsorted(decode: seq<seq<Entry>>, encode: seq<PrefixCode>, maxLen: nat, x: nat)
    requires x <= |encode|
  {
    && |decode| == maxLen + 1
    && forall len: nat :: len < |decode| ==> PartBucket(decode[len], len, encode, x)
  }

  ghost predicate PartBucket(bucket: seq<Entry>, len: nat, encode: seq<PrefixCode>, x: nat)
    requires x <= |encode|
  {
    && BucketOf(bucket, len, encode, x) && (len == 0 ==> bucket == [])
    && (forall i :: 0 <= i < |bucket| ==> bucket[i].symbol < x)
    && forall i, j :: 0 <= i < j < |bucket| ==> bucket[i].symbol < bucket[j].symbol
  }

  lemma PushPart(bucket: seq<Entry>, len: nat, encode: seq<PrefixCode>, x: nat)
    requires x < |encode| && PartBucket(bucket, len, encode, x)
    ensures encode[x].len == len > 0 ==> PartBucket(bucket + [Entry(encode[x].content, x)], len, encode, x + 1)
    ensures encode[x].len != len || len == 0 ==> PartBucket(bucket, len, encode, x + 1)
  {
    PushEntry(bucket, len, encode, x);
  }

  /** Buckets are filled in symbol order and then sorted by content. */
  method FillDecode(encode: seq<PrefixCode>, maxLen: nat) returns (decode: seq<seq<Entry>>)
    requires forall x :: 0 <= x < |encode| ==> encode[x].len <= maxLen
    requires forall x, y :: 0 <= x < |encode| && 0 <= y < |encode| && encode[x].len > 0 && encode[x] == encode[y] ==> x == y
    ensures Decodes(decode, encode) && |decode| == maxLen + 1 && decode[0] == []
  {
    hide PartBucket, BucketOf, Ascending;
    decode := seq(maxLen + 1, _ => []);
    EmptyParts(encode);
    var x := 0;
    while x < |encode|
      invariant 0 <= x <= |encode| && Unsorted(decode, encode, maxLen, x)
    {
      ghost var was := decode;
      var c := encode[x];
      forall len: nat | len < |decode|
        ensures c.len == len > 0 ==> PartBucket(was[len] + [Entry(c.content, x)], len, encode, x + 1)
        ensures c.len != len || len == 0 ==> PartBucket(was[len], len, encode, x + 1)
      {
        PushPart(was[len], len, encode, x);
      }
      if c.len != 0 {
        decode := decode[c.len := decode[c.len] + [Entry(c.content, x)]];
      }
      x := x + 1;
    }
    decode := SortBuckets(decode, encode, maxLen);
  }

  method SortBuckets(decode: seq<seq<Entry>>, ghost encode: seq<PrefixCode>, maxLen: nat) returns (r: seq<seq<Entry>>)
    requires forall x :: 0 <= x < |encode| ==> encode[x].len <= maxLen
    requires forall x, y :: 0 <= x < |encode| && 0 <= y < |encode| && encode[x].len > 0 && encode[x] == encode[y] ==> x == y
    requires Unsorted(decode, encode, maxLen, |encode|)
    ensures Decodes(r, encode) && |r| == maxLen + 1 && r[0] == []
  {
    hide BucketOf, Ascending, Sort;
    r := decode;
    var v := 0;
    while v < |r|
      invariant 0 <= v <= |r| == |decode|
      invariant forall len: nat :: v <= len < |r| ==> r[len] == decode[len]
      invariant forall len: nat :: len < v ==>
        Ascending(r[len]) && BucketOf(r[len], len, encode, |encode|) && (len == 0 ==> r[len] == [])
    {
      assert PartBucket(decode[v], v, encode, |encode|);
      SortedBucket(decode[v], v, encode);
      r := r[v := Sort(r[v], ContentKey)];
      v := v + 1;
    }
  }

  lemma EmptyParts(encode: seq<PrefixCode>)
    ensures forall len: nat :: PartBucket([], len, encode, 0)
  {}

  // ---- One table for given codes ----

  /** Ascending buckets with the same entries are the same. */
  lemma {:induction false} SameUpTo(a: seq<Entry>, c: seq<Entry>, i: nat)
    requires Ascending(a) && Ascending(c) && i <= |a|
    requires (forall e :: e in a ==> e in c) && forall e :: e in c ==> e in a
    ensures i <= |c| && a[..i] == c[..i]
  {
    if i > 0 {
      SameUpTo(a, c, i - 1);
      var m := i - 1;
      forall h | 0 <= h < m
        ensures a[h] == c[h]
      {
        assert a[h] == a[..m][h] == c[..m][h] == c[h];
      }
      assert a[m] in c;
      var j :| 0 <= j < |c| && c[j] == a[m];
      assert j >= m;
      assert c[m] in a;
      var k :| 0 <= k < |a| && a[k] == c[m];
      assert k >= m;
      assert a[m] == c[m];
      assert a[..i] == a[..m] + [a[m]] && c[..i] == c[..m] + [c[m]];
    }
  }

  lemma BucketOnce(a: seq<Entry>, c: seq<Entry>, len: nat, encode: seq<PrefixCode>)
    requires Ascending(a) && Ascending(c) && BucketOf(a, len, encode, |encode|) && BucketOf(c, len, encode, |encode|) && len > 0
    ensures a == c
  {
    SameEntries(a, c, len, encode);
    SameEntries(c, a, len, encode);
    SameUpTo(a, c, |a|);
    SameUpTo(c, a, |c|);
  }

  lemma SameEntries(a: seq<Entry>, c: seq<Entry>, len: nat, encode: seq<PrefixCode>)
    requires BucketOf(a, len, encode, |encode|) && BucketOf(c, len, encode, |encode|) && len > 0
    ensures forall e :: e in a ==> e in c
  {
    forall e | e in a
      ensures e in c
    {
      var i :| 0 <= i < |a| && a[i] == e;
      assert encode[a[i].symbol] == PrefixCode(a[i].content, len);
    }
  }

  /** The codes and the number of buckets determine the decode table. */
  lemma TableOnce(a: seq<seq<Entry>>, c: seq<seq<Entry>>, encode: seq<PrefixCode>)
    requires Decodes(a, encode) && Decodes(c, encode) && |a| == |c| > 0 && a[0] == c[0] == []
    ensures a == c
  {
    hide BucketOf, Ascending;
    forall len | 0 < len < |a|
      ensures a[len] == c[len]
    {
      BucketOnce(a[len], c[len], len, encode);
    }
  }

  // ---- Number of entries ----

  /** The symbols of a bucket differ. */
  lemma {:induction false} BucketSymbols(bucket: seq<Entry>, len: nat, encode: seq<PrefixCode>, k: nat) returns (b: set<nat>)
    requires Ascending(bucket) && EntriesOf(bucket, len, encode) && k <= |bucket|
    ensures |b| == k && forall x :: x in b ==> x < |encode| && encode[x].len == len
    ensures k > 0 ==> forall x :: x in b ==> encode[x].content <= bucket[k - 1].content
  {
    if k == 0 {
      b := {};
    } else {
      var m := k - 1;
      var x := bucket[m].symbol;
      assert encode[x] == PrefixCode(bucket[m].content, len);
      b := BucketSymbols(bucket, len, encode, m);
      if m > 0 {
        assert bucket[m - 1].content < bucket[m].content;
      }
      assert x !in b;
      b := b + {x};
    }
  }

  /** A table has at most one entry for every symbol. */
  lemma {:induction false} TableSymbols(decode: seq<seq<Entry>>, encode: seq<PrefixCode>, m: nat) returns (total: nat, b: set<nat>)
    requires Decodes(decode, encode) && m <= |decode|
    ensures total == EntriesIn(decode[..m]) == |b| && forall x :: x in b ==> x < |encode| && encode[x].len < m
  {
    hide BucketOf, Ascending, EntriesOf;
    if m == 0 {
      total, b := 0, {};
    } else {
      var l := m - 1;
      var t, s := TableSymbols(decode, encode, l);
      assert EntriesOf(decode[l], l, encode) by { BucketEntries(decode[l], l, encode); }
      var c := BucketSymbols(decode[l], l, encode, |decode[l]|);
      assert s !! c;
      total, b := t + |decode[l]|, s + c;
      assert decode[..m][..m - 1] == decode[..l];
    }
  }

  lemma BucketEntries(bucket: seq<Entry>, len: nat, encode: seq<PrefixCode>)
    requires BucketOf(bucket, len, encode, |encode|)
    ensures EntriesOf(bucket, len, encode)
  {}

  ghost function EntriesIn(decode: seq<seq<Entry>>): nat {
    if |decode| == 0 then 0 else EntriesIn(decode[..|decode| - 1]) + |decode[|decode| - 1]|
  }

  lemma {:induction false} SetBelow(b: set<nat>, n: nat)
    requires forall x :: x in b ==> x < n
    ensures |b| <= n
  {
    if n == 0 {
      assert b == {};
    } else {
      SetBelow(b - {n - 1}, n - 1);
    }
  }

  lemma FewEntries(decode: seq<seq<Entry>>, encode: seq<PrefixCode>)
    requires Decodes(decode, encode)
    ensures EntriesIn(decode) <= |encode|
  {
    var total, b := TableSymbols(decode, encode, |decode|);
    assert decode[..|decode|] == decode;
    SetBelow(b, |encode|);
  }
}
