/** Bucket files: every run of rows with one id is written at once. */
module BucketRuns {
  import opened RankSelect
  import opened StablePartition

  /** Rows that all have key `id` go to that bucket and to no other. */
  lemma {:induction false} OneBucket<T>(s: seq<T>, keys: seq<int>, id: int, d: int)
    requires |s| == |keys| && forall i :: 0 <= i < |keys| ==> keys[i] == id
    ensures Bucket(s, keys, d) == if d == id then s else []
  {
    if |s| > 0 {
      var n := |s| - 1;
      OneBucket(s[..n], keys[..n], id, d);
      if d == id {
        assert s == s[..n] + [s[n]];
      }
    }
  }

  lemma RunBucket<T>(s: seq<T>, keys: seq<int>, start: nat, end: nat, d: int)
    requires |s| == |keys| && start <= end <= |s| && forall i :: start <= i < end ==> keys[i] == keys[start]
    requires start < |keys|
    ensures Bucket(s[..end], keys[..end], d) == Bucket(s[..start], keys[..start], d) + if d == keys[start] then s[start..end] else []
  {
    BucketSplit(s, keys, d, start, end);
    OneBucket(s[start..end], keys[start..end], keys[start], d);
  }

  /** Bucket `d` has received the rows of `s[..i]` with key `d`. */
  ghost predicate Received<T>(was: seq<seq<T>>, now: seq<seq<T>>, s: seq<T>, keys: seq<int>, i: nat)
    requires |s| == |keys| && i <= |s|
  {
    |now| == |was| && forall d: nat :: d < |was| ==> now[d] == was[d] + Bucket(s[..i], keys[..i], d)
  }

  lemma ReceiveRun<T>(was: seq<seq<T>>, now: seq<seq<T>>, s: seq<T>, keys: seq<int>, start: nat, end: nat)
    requires |s| == |keys| && start < end <= |s| && Received(was, now, s, keys, start)
    requires 0 <= keys[start] < |was| && forall i :: start <= i < end ==> keys[i] == keys[start]
    ensures Received(was, now[keys[start] := now[keys[start]] + s[start..end]], s, keys, end)
  {
    hide Bucket;
    var next := now[keys[start] := now[keys[start]] + s[start..end]];
    forall d: nat | d < |was|
      ensures next[d] == was[d] + Bucket(s[..end], keys[..end], d)
    {
      RunBucket(s, keys, start, end, d);
    }
  }

  lemma ReceiveNone<T>(was: seq<seq<T>>, s: seq<T>, keys: seq<int>)
    requires |s| == |keys|
    ensures Received(was, was, s, keys, 0)
  {}

  lemma ReceivedAll<T>(was: seq<seq<T>>, now: seq<seq<T>>, s: seq<T>, keys: seq<int>)
    requires |s| == |keys| && Received(was, now, s, keys, |s|)
    ensures |now| == |was| && forall d: nat :: d < |was| ==> now[d] == was[d] + Bucket(s, keys, d)
  {
    hide Bucket;
    var t, k := s[..|s|], keys[..|s|];
    assert t == s && k == keys;
    forall d: nat | d < |was|
      ensures now[d] == was[d] + Bucket(s, keys, d)
    {
      SameBucket(s, keys, t, k, d);
    }
  }

  lemma SameBucket<T>(s: seq<T>, keys: seq<int>, t: seq<T>, k: seq<int>, d: int)
    requires |s| == |keys| && t == s && k == keys
    ensures Bucket(t, k, d) == Bucket(s, keys, d)
  {}

  method WriteBucketRuns<T>(writers: seq<seq<T>>, ids: seq<nat>, symbols: seq<T>) returns (r: seq<seq<T>>)
    requires |ids| == |symbols| && forall i :: 0 <= i < |ids| ==> ids[i] < |writers|
    ensures |r| == |writers| && forall d: nat :: d < |writers| ==> r[d] == writers[d] + Bucket(symbols, ids, d)
  {
    hide Received, Bucket;
    r := writers;
    ReceiveNone(writers, symbols, ids);
    ghost var n := |writers|;
    var start := 0;
    while start < |ids|
      invariant 0 <= start <= |ids| && |r| == n && Received(writers, r, symbols, ids, start)
    {
      var id := ids[start];
      var end := start + 1;
      while end < |ids| && ids[end] == id
        invariant start < end <= |ids|
        invariant forall i :: start <= i < end ==> ids[i] == id
      {
        end := end + 1;
      }
      ReceiveRun(writers, r, symbols, ids, start, end);
      r := r[id := r[id] + symbols[start..end]];
      start := end;
    }
    ReceivedAll(writers, r, symbols, ids);
  }

  /** The bucket files one after the other are the next source. */
  ghost function Concat<T>(files: seq<seq<T>>): seq<T> {
    if files == [] then [] else files[0] + Concat(files[1..])
  }

  lemma FourFiles<T>(files: seq<seq<T>>, s: seq<T>, keys: seq<int>)
    requires |s| == |keys| && |files| == 4 && forall d: nat :: d < 4 ==> files[d] == Bucket(s, keys, d)
    ensures Concat(files) == Partition(s, keys, 4)
  {
    hide Bucket;
    ConcatFour(files);
    assert Partition(s, keys, 1) == Bucket(s, keys, 0);
    assert Partition(s, keys, 2) == Bucket(s, keys, 0) + Bucket(s, keys, 1);
    assert Partition(s, keys, 3) == Partition(s, keys, 2) + Bucket(s, keys, 2);
  }

  lemma FiveFiles<T>(files: seq<seq<T>>, s: seq<T>, keys: seq<int>)
    requires |s| == |keys| && |files| == 5 && forall d: nat :: d < 5 ==> files[d] == Bucket(s, keys, d)
    ensures Concat(files) == Partition(s, keys, 5)
  {
    hide Bucket;
    FourFiles(files[..4], s, keys);
    ConcatFour(files[..4]);
    ConcatFive(files);
    assert Partition(s, keys, 5) == Partition(s, keys, 4) + Bucket(s, keys, 4);
  }

  lemma ConcatFour<T>(files: seq<seq<T>>)
    requires |files| == 4
    ensures Concat(files) == files[0] + files[1] + files[2] + files[3]
  {
    assert Concat(files[1..]) == files[1] + Concat(files[1..][1..]);
    assert files[1..][1..] == files[2..];
    assert Concat(files[2..]) == files[2] + Concat(files[2..][1..]);
    assert files[2..][1..] == [files[3]];
    assert Concat([files[3]]) == files[3] + Concat([]);
  }

  lemma ConcatFive<T>(files: seq<seq<T>>)
    requires |files| == 5
    ensures Concat(files) == files[0] + files[1] + files[2] + files[3] + files[4]
  {
    ConcatFour(files[1..]);
    Regroup(files[0], files[1], files[2], files[3], files[4]);
  }

  lemma Regroup<T>(a: seq<T>, b: seq<T>, c: seq<T>, d: seq<T>, e: seq<T>)
    ensures a + (b + c + d + e) == a + b + c + d + e
  {}
}
