/**
 The assignment loop itself: exact bookkeeping of the code space, and the order
 of the codes it hands out.
 */
module AssignCodes {
  import opened Wrappers
  import opened Words
  import opened CodeOrder
  import opened Arithmetic
  import opened CraftCodes

  // ---- Code space ----

  /** Code lengths in digits, in the order codes are handed out. */
  ghost predicate Lengths(d: seq<nat>) {
    && (forall t :: 0 <= t < |d| ==> d[t] > 0)
    && forall s, t :: 0 <= s < t < |d| ==> d[s] <= d[t]
  }

  /** Prefixes of `depth` digits covered by the first `j` codes. */
  ghost function Units(d: seq<nat>, j: nat, depth: nat): nat
    requires j <= |d| && forall t :: 0 <= t < j ==> d[t] <= depth
  {
    if j == 0 then 0 else Units(d, j - 1, depth) + Pow4(depth - d[j - 1])
  }

  /** Kraft's inequality, counted at the depth of the longest code. */
  ghost predicate Kraft(d: seq<nat>)
    requires Lengths(d)
  {
    |d| > 0 ==> Units(d, |d|, d[|d| - 1]) <= Pow4(d[|d| - 1])
  }

  lemma {:induction false} UnitsDeeper(d: seq<nat>, j: nat, depth: nat)
    requires j <= |d| && forall t :: 0 <= t < j ==> d[t] <= depth
    ensures Units(d, j, depth + 1) == 4 * Units(d, j, depth)
  {
    if j > 0 {
      UnitsDeeper(d, j - 1, depth);
      assert depth + 1 - d[j - 1] == (depth - d[j - 1]) + 1;
    }
  }

  lemma {:induction false} UnitsScale(d: seq<nat>, j: nat, depth: nat, more: nat)
    requires j <= |d| && forall t :: 0 <= t < j ==> d[t] <= depth
    ensures Units(d, j, depth + more) == Pow4(more) * Units(d, j, depth)
  {
    hide Units;
    if more > 0 {
      UnitsScale(d, j, depth, more - 1);
      UnitsDeeper(d, j, depth + more - 1);
      MulAssociates(4, Pow4(more - 1), Units(d, j, depth));
    }
  }

  lemma {:induction false} UnitsMonotone(d: seq<nat>, i: nat, j: nat, depth: nat)
    requires i <= j <= |d| && forall t :: 0 <= t < j ==> d[t] <= depth
    ensures Units(d, i, depth) <= Units(d, j, depth)
  {
    if i < j {
      UnitsMonotone(d, i, j - 1, depth);
    }
  }

  /** Kraft's inequality leaves an open prefix for every code still to come. */
  lemma RoomForNext(d: seq<nat>, j: nat, depth: nat)
    requires Lengths(d) && Kraft(d) && j < |d| && depth <= d[j]
    requires forall t :: 0 <= t < j ==> d[t] <= depth
    ensures Units(d, j, depth) < Pow4(depth)
  {
    hide Units, Pow4;
    var n, last := |d|, d[|d| - 1];
    UnitsMonotone(d, j + 1, n, last);
    UnitsGrow(d, j, last);
    UnitsScale(d, j, depth, last - depth);
    Pow4Add(last - depth, depth);
    LessFactor(Pow4(last - depth), Units(d, j, depth), Pow4(depth));
  }

  lemma UnitsGrow(d: seq<nat>, j: nat, depth: nat)
    requires j < |d| && forall t :: 0 <= t <= j ==> d[t] <= depth
    ensures Units(d, j, depth) < Units(d, j + 1, depth)
  {}

  /** Open prefixes when the next code to be assigned is number `j`. */
  ghost function OpenAt(d: seq<nat>, j: nat, depth: nat): int
    requires j <= |d| && forall t :: 0 <= t < j ==> d[t] <= depth
  {
    Pow4(depth) - Units(d, j, depth)
  }

  /** Depth at which code `j - 1` was assigned. */
  ghost function DepthBefore(d: seq<nat>, j: nat): nat
    requires j <= |d|
  {
    if j == 0 then 0 else d[j - 1]
  }

  /** Whether splitting at (`j`, `depth`) stays within the `4 * |d|` slots of the scratch array. */
  ghost predicate SplitFits(d: seq<nat>, j: nat, depth: nat)
    requires Lengths(d) && j < |d| && DepthBefore(d, j) <= depth
  {
    4 * OpenAt(d, j, depth) + j <= 4 * |d|
  }

  /** The lengths for which the scratch array is large enough. */
  ghost predicate Fits(d: seq<nat>)
    requires Lengths(d)
  {
    forall j, depth: nat :: 0 <= j < |d| && DepthBefore(d, j) <= depth < d[j] ==> SplitFits(d, j, depth)
  }

  /**
   A code that wastes less than one node of its next-to-last depth always fits.
   Optimal four-way Huffman lengths are of this kind.
   */
  lemma NearlyFullFits(d: seq<nat>)
    requires Lengths(d) && |d| > 0 && Kraft(d)
    requires Units(d, |d|, d[|d| - 1]) > Pow4(d[|d| - 1]) - 4
    ensures Fits(d)
  {
    forall j, depth: nat | 0 <= j < |d| && DepthBefore(d, j) <= depth < d[j]
      ensures SplitFits(d, j, depth)
    {
      var n, last := |d|, d[|d| - 1];
      RestUnits(d, j, n, depth);
      UnitsScale(d, j, depth, last - depth);
      Pow4Add(last - depth, depth);
      var k, e := Pow4(last - depth), Pow4(last - depth - 1);
      assert k == 4 * e;
      // k * open < (n - j) * e + 4 <= (n - j) * e + k
      NearlyFullStep(k, e, Pow4(depth), Units(d, j, depth), Units(d, n, last) - Units(d, j, last), n - j);
    }
  }

  lemma NearlyFullStep(k: nat, e: nat, full: nat, used: nat, rest: int, count: nat)
    requires k == 4 * e && e > 0 && count > 0
    requires k * used + rest > k * full - 4
    requires rest <= count * e
    ensures 4 * (full - used) < count + 4
  {
    var open := full - used;
    assert k * full - k * used == open * k == e * (4 * open);
    assert e * (4 * open) < count * e + 4;
    assert e * (count + 4) == count * e + 4 * e;
    if count + 4 <= 4 * open {
      MulMonotone(e, count + 4, 4 * open);
    }
  }

  /** Each code longer than `depth` takes at most a quarter of a prefix of that depth. */
  lemma {:induction false} RestUnits(d: seq<nat>, j: nat, n: nat, depth: nat)
    requires Lengths(d) && j <= n <= |d| && j < |d| && depth < d[j]
    ensures depth < d[|d| - 1]
    ensures Units(d, n, d[|d| - 1]) - Units(d, j, d[|d| - 1]) <= (n - j) * Pow4(d[|d| - 1] - depth - 1)
  {
    var last := d[|d| - 1];
    assert depth < d[j] <= last;
    if n > j {
      var e := Pow4(last - depth - 1);
      RestUnits(d, j, n - 1, depth);
      assert d[j] <= d[n - 1];
      Pow4Monotone(last - d[n - 1], last - depth - 1);
      assert (n - j) * e == (n - 1 - j) * e + e;
    }
  }

  /** Lengths with slack can outgrow the scratch array: one symbol with a two-digit code does. */
  lemma LooseLengthsOverflow()
    ensures Lengths([2]) && Kraft([2]) && !Fits([2])
  {
    var d: seq<nat> := [2];
    assert Units(d, 1, 2) == 1;
    assert Pow4(1) == 4 && Pow4(2) == 16;
    assert !SplitFits(d, 0, 1);
  }

  // ---- Order of the codes ----

  /** `key`, handed out at `depth`, exceeds what `o` shows of itself at that depth. */
  ghost predicate Over(key: nat, o: nat, depth: nat) {
    key > o % Pow4(depth)
  }

  /** Keys handed out so far, in the order of their lengths: each exceeds all later ones at its own depth. */
  ghost predicate Assigned(keys: seq<nat>, d: seq<nat>)
    requires |keys| <= |d|
  {
    && (forall t :: 0 <= t < |keys| ==> keys[t] < Pow4(d[t]))
    && forall s, t :: 0 <= s < t < |keys| ==> Over(keys[s], keys[t], d[s])
  }

  /** Every key handed out exceeds every open prefix at its own depth. */
  ghost predicate Exceed(keys: seq<nat>, d: seq<nat>, open: seq<nat>)
    requires |keys| <= |d|
  {
    forall t, i :: 0 <= t < |keys| && 0 <= i < |open| ==> Over(keys[t], open[i], d[t])
  }

  /** No code handed out so far begins the prefix with this key. */
  ghost predicate Free(key: nat, keys: seq<nat>, d: seq<nat>)
    requires |keys| <= |d|
  {
    forall t :: 0 <= t < |keys| ==> key % Pow4(d[t]) != keys[t]
  }

  /** Every free prefix is open. */
  ghost predicate Complete(keys: seq<nat>, d: seq<nat>, open: seq<nat>, depth: nat)
    requires |keys| <= |d|
  {
    forall k: nat :: k < Pow4(depth) && Free(k, keys, d) ==> k in open
  }

  /** Every code handed out was the greatest free prefix of its length. */
  ghost predicate Greatest(keys: seq<nat>, d: seq<nat>)
    requires |keys| <= |d|
  {
    forall j, k: nat :: 0 <= j < |keys| && k < Pow4(d[j]) && Free(k, keys[..j], d) ==> k <= keys[j]
  }

  lemma CompleteSplit(keys: seq<nat>, d: seq<nat>, open: seq<nat>, depth: nat)
    requires |keys| <= |d| && Complete(keys, d, open, depth) && forall t :: 0 <= t < |keys| ==> d[t] <= depth
    ensures Complete(keys, d, Split(open, Pow4(depth)), depth + 1)
  {
    forall k: nat | k < Pow4(depth + 1) && Free(k, keys, d)
      ensures k in Split(open, Pow4(depth))
    {
      SplitHolds(keys, d, open, depth, k);
    }
  }

  lemma SplitHolds(keys: seq<nat>, d: seq<nat>, open: seq<nat>, depth: nat, k: nat)
    requires |keys| <= |d| && Complete(keys, d, open, depth) && forall t :: 0 <= t < |keys| ==> d[t] <= depth
    requires k < Pow4(depth + 1) && Free(k, keys, d)
    ensures k in Split(open, Pow4(depth))
  {
    var p := Pow4(depth);
    var o, x := k % p, k / p;
    assert k == o + x * p;
    assert x < 4 by { TopQuarter(k, p, x); }
    forall t | 0 <= t < |keys|
      ensures o % Pow4(d[t]) != keys[t]
    {
      ModMultiple(o, x, depth, d[t]);
    }
    assert Free(o, keys, d);
    var i :| 0 <= i < |open| && open[i] == o;
    InSplit(open, p, x, i);
  }

  lemma TopQuarter(k: nat, p: nat, x: nat)
    requires p > 0 && k < 4 * p && x == k / p
    ensures x < 4
  {
    if x >= 4 {
      MulMonotone(p, 4, x);
    }
  }

  lemma InSplit(open: seq<nat>, p: nat, x: nat, i: nat)
    requires x < 4 && i < |open|
    ensures open[i] + x * p in Split(open, p)
  {
    var s, n := Split(open, p), |open|;
    assert s[(3 - x) * n + i] == open[i] + x * p;
  }

  lemma CompleteNext(keys: seq<nat>, d: seq<nat>, open: seq<nat>)
    requires |keys| < |d| && |open| > 0 && Complete(keys, d, open, d[|keys|]) && Descending(open, Pow4(d[|keys|]))
    ensures Complete(keys + [open[0]], d, open[1..], d[|keys|])
    ensures forall k: nat :: k < Pow4(d[|keys|]) && Free(k, keys, d) ==> k <= open[0]
  {
    var next := keys + [open[0]];
    forall k: nat | k < Pow4(d[|keys|]) && Free(k, keys, d)
      ensures k <= open[0] && (Free(k, next, d) ==> k in open[1..])
    {
      var i :| 0 <= i < |open| && open[i] == k;
      ModUnique(k, Pow4(d[|keys|]), 0, k);
      if Free(k, next, d) {
        assert k % Pow4(d[|keys|]) != next[|keys|];
        assert open[1..][i - 1] == k;
      }
    }
    forall k: nat | k < Pow4(d[|keys|]) && Free(k, next, d)
      ensures Free(k, keys, d)
    {
      forall t | 0 <= t < |keys|
        ensures k % Pow4(d[t]) != keys[t]
      {
        assert next[t] == keys[t];
      }
    }
  }

  lemma GreatestNext(keys: seq<nat>, d: seq<nat>, key: nat)
    requires |keys| < |d| && Greatest(keys, d)
    requires forall k: nat :: k < Pow4(d[|keys|]) && Free(k, keys, d) ==> k <= key
    ensures Greatest(keys + [key], d)
  {
    var next := keys + [key];
    forall j, k: nat | 0 <= j < |next| && k < Pow4(d[j]) && Free(k, next[..j], d)
      ensures k <= next[j]
    {
      assert next[..j] == keys[..j];
      if j == |keys| {
        assert keys[..j] == keys;
      }
    }
  }

  lemma ModMultiple(o: nat, x: nat, depth: nat, s: nat)
    requires s <= depth
    ensures (o + x * Pow4(depth)) % Pow4(s) == o % Pow4(s)
  {
    Pow4Add(depth - s, s);
    MulAssociates(x, Pow4(depth - s), Pow4(s));
    ModAdd(o, x * Pow4(depth - s), Pow4(s));
  }

  lemma ModAdd(o: nat, y: nat, p: nat)
    requires p > 0
    ensures (o + y * p) % p == o % p
  {
    assert (o / p + y) * p == o / p * p + y * p;
    ModUnique(o + y * p, p, o / p + y, o % p);
  }

  lemma ExceedPlus(keys: seq<nat>, d: seq<nat>, open: seq<nat>, depth: nat, x: nat)
    requires |keys| <= |d| && Exceed(keys, d, open)
    requires forall t :: 0 <= t < |keys| ==> d[t] <= depth
    ensures Exceed(keys, d, Plus(open, x * Pow4(depth)))
  {
    forall t, i | 0 <= t < |keys| && 0 <= i < |open|
      ensures Over(keys[t], Plus(open, x * Pow4(depth))[i], d[t])
    {
      ModMultiple(open[i], x, depth, d[t]);
    }
  }

  lemma ExceedSplit(keys: seq<nat>, d: seq<nat>, open: seq<nat>, depth: nat)
    requires |keys| <= |d| && Exceed(keys, d, open)
    requires forall t :: 0 <= t < |keys| ==> d[t] <= depth
    ensures Exceed(keys, d, Split(open, Pow4(depth)))
  {
    ExceedPlus(keys, d, open, depth, 1);
    ExceedPlus(keys, d, open, depth, 2);
    ExceedPlus(keys, d, open, depth, 3);
    hide Plus;
  }

  lemma AssignNext(keys: seq<nat>, d: seq<nat>, open: seq<nat>)
    requires |keys| < |d| && |open| > 0
    requires Assigned(keys, d) && Exceed(keys, d, open) && Descending(open, Pow4(d[|keys|]))
    ensures Assigned(keys + [open[0]], d) && Exceed(keys + [open[0]], d, open[1..])
  {
    hide Over;
    var j, rest, next := |keys|, open[1..], keys + [open[0]];
    assert open[0] < Pow4(d[j]);
    forall t, i | 0 <= t < |next| && 0 <= i < |rest|
      ensures Over(next[t], rest[i], d[t])
    {
      assert rest[i] == open[i + 1];
      if t == j {
        OverSmaller(open[0], rest[i], d[j]);
      }
    }
  }

  lemma OverSmaller(key: nat, o: nat, depth: nat)
    requires o < key && o < Pow4(depth)
    ensures Over(key, o, depth)
  {
    ModUnique(o, Pow4(depth), 0, o);
  }

  /** Words in the order they are handed out: each exceeds what every later one shows of itself at its depth. */
  ghost predicate Ordered(words: seq<Word>) {
    forall s, t :: 0 <= s < t < |words| ==> |words[s]| <= |words[t]| && Key(words[s]) > Key(words[t][..|words[s]|])
  }

  /** Each is the greatest word of its length that no earlier one begins. */
  ghost predicate GreatestFree(words: seq<Word>) {
    forall j, x: Word :: 0 <= j < |words| && Quaternary(x) && |x| == |words[j]| && (forall i :: 0 <= i < j ==> !(words[i] <= x))
      ==> Key(x) <= Key(words[j])
  }

  lemma OrderedFinishedLast(words: seq<Word>)
    requires Ordered(words)
    ensures FinishedLast(words) && forall s, t :: 0 <= s < t < |words| ==> words[s] != words[t]
  {
    forall s, t | 0 <= s < t < |words|
      ensures words[s] != words[t]
    {
      assert words[t][..|words[t]|] == words[t];
    }
  }

  lemma KeyLast(x: Word)
    requires |x| > 0 && Quaternary(x)
    ensures Key(x) == Key(x[..|x| - 1]) + x[|x| - 1] * Pow4(|x| - 1) && 0 <= x[|x| - 1] < 4
  {}

  /** The first digits of a word, seen from its key. */
  lemma {:induction false} KeyPrefix(x: Word, m: nat)
    requires Quaternary(x) && m <= |x|
    ensures 0 <= Key(x[..m]) == Key(x) % Pow4(m)
  {
    KeyBound(x[..m]);
    if m == |x| {
      assert x[..m] == x;
      ModUnique(Key(x), Pow4(m), 0, Key(x));
    } else {
      var n := |x| - 1;
      KeyBound(x[..n]);
      KeyPrefix(x[..n], m);
      assert x[..n][..m] == x[..m];
      KeyLast(x);
      hide *;
      ModMultiple(Key(x[..n]), x[n], n, m);
    }
  }

  lemma KeysGreatest(keys: seq<nat>, d: seq<nat>, words: seq<Word>)
    requires |keys| == |d| == |words| && Lengths(d) && Assigned(keys, d) && Greatest(keys, d)
    requires forall t :: 0 <= t < |d| ==> words[t] == WordOfKey(keys[t], d[t])
    ensures GreatestFree(words)
  {
    forall j, x: Word | 0 <= j < |words| && Quaternary(x) && |x| == |words[j]| && (forall i :: 0 <= i < j ==> !(words[i] <= x))
      ensures Key(x) <= Key(words[j])
    {
      KeyBound(x);
      WordKey(keys, d, words, j);
      FreeWord(keys, d, words, j, x);
    }
  }

  lemma FreeWord(keys: seq<nat>, d: seq<nat>, words: seq<Word>, j: nat, x: Word)
    requires |keys| == |d| == |words| && Lengths(d) && Assigned(keys, d) && j < |d|
    requires forall t :: 0 <= t < |d| ==> words[t] == WordOfKey(keys[t], d[t])
    requires Quaternary(x) && |x| == d[j] && (forall i :: 0 <= i < j ==> !(words[i] <= x)) && Key(x) >= 0
    ensures Free(Key(x), keys[..j], d)
  {
    hide Assigned, Key;
    forall t | 0 <= t < j
      ensures Key(x) % Pow4(d[t]) != keys[..j][t]
    {
      WordKey(keys, d, words, t);
      KeyPrefix(x, d[t]);
      if Key(x[..d[t]]) == keys[t] {
        KeyInjective(x[..d[t]], words[t]);
      }
    }
  }

  lemma WordKey(keys: seq<nat>, d: seq<nat>, words: seq<Word>, t: nat)
    requires |keys| == |d| == |words| && Assigned(keys, d) && t < |d| && words[t] == WordOfKey(keys[t], d[t])
    ensures Key(words[t]) == keys[t] && |words[t]| == d[t] && Quaternary(words[t])
  {
    KeyOfWord(keys[t], d[t]);
    ModUnique(keys[t], Pow4(d[t]), 0, keys[t]);
  }

  lemma KeysOrdered(keys: seq<nat>, d: seq<nat>, words: seq<Word>)
    requires |keys| == |d| == |words| && Lengths(d) && Assigned(keys, d)
    requires forall t :: 0 <= t < |d| ==> words[t] == WordOfKey(keys[t], d[t])
    ensures Ordered(words)
  {
    forall s, t | 0 <= s < t < |words|
      ensures |words[s]| <= |words[t]| && Key(words[s]) > Key(words[t][..|words[s]|])
    {
      assert Over(keys[s], keys[t], d[s]);
      KeyOfWord(keys[s], d[s]);
      WordOfKeyPrefix(keys[t], d[t], d[s]);
      KeyOfWord(keys[t], d[s]);
      ModUnique(keys[s], Pow4(d[s]), 0, keys[s]);
    }
  }

  // ---- The loop ----

  ghost function Depths(lengths: seq<LenInfo>): (d: seq<nat>)
    ensures |d| == |lengths|
    ensures forall t :: 0 <= t < |d| ==> d[t] == lengths[t].len / 2
  {
    seq(|lengths|, t requires 0 <= t < |lengths| => lengths[t].len / 2)
  }

  /** What the caller provides: distinct symbols, sorted by even lengths that satisfy Kraft's inequality. */
  ghost predicate ValidLengths(lengths: seq<LenInfo>, sigma: nat) {
    && (forall t :: 0 <= t < |lengths| ==> lengths[t].symbol <= sigma && lengths[t].len % 2 == 0 && 2 <= lengths[t].len <= 32)
    && (forall s, t :: 0 <= s < t < |lengths| ==> lengths[s].symbol != lengths[t].symbol && lengths[s].len <= lengths[t].len)
    && Lengths(Depths(lengths))
    && Kraft(Depths(lengths))
  }

  ghost function WordsOf(lengths: seq<LenInfo>, codes: seq<PrefixCode>): (w: seq<Word>)
    requires forall t :: 0 <= t < |lengths| ==> lengths[t].symbol < |codes|
    ensures |w| == |lengths|
    ensures forall t :: 0 <= t < |w| ==> w[t] == CodeWord(codes[lengths[t].symbol])
  {
    seq(|lengths|, t requires 0 <= t < |lengths| => CodeWord(codes[lengths[t].symbol]))
  }

  /** Codes of the requested lengths for exactly the given symbols, in wavelet-matrix order. */
  ghost predicate CodesFor(lengths: seq<LenInfo>, sigma: nat, codes: seq<PrefixCode>) {
    && |codes| == sigma + 1
    && (forall t :: 0 <= t < |lengths| ==> lengths[t].symbol <= sigma)
    && (forall t :: 0 <= t < |lengths| ==>
          codes[lengths[t].symbol].len == lengths[t].len && codes[lengths[t].symbol].content < Pow4(lengths[t].len / 2))
    && (forall x :: 0 <= x <= sigma && (forall t :: 0 <= t < |lengths| ==> lengths[t].symbol != x) ==> codes[x] == PrefixCode(0, 0))
    && Ordered(WordsOf(lengths, codes)) && GreatestFree(WordsOf(lengths, codes))
  }

  /** The first `i` of `depth` digits, moved to the top of the code. */
  ghost function TopDigits(key: nat, depth: nat, i: nat): nat
    requires i <= depth
  {
    ValueBound(WordOfKey(key, depth)[..i]);
    Value(WordOfKey(key, depth)[..i]) * Pow4(depth - i)
  }

  lemma TopDigitsStep(key: nat, depth: nat, i: nat)
    requires i < depth
    ensures BitOr(TopDigits(key, depth, i), ((key / Pow4(i)) % 4) * Pow4(depth - i - 1)) == TopDigits(key, depth, i + 1)
  {
    DigitAt(key, depth, i);
    ValueBound(WordOfKey(key, depth)[..i]);
    PushDigit(Value(WordOfKey(key, depth)[..i]), (key / Pow4(i)) % 4, depth - i - 1);
  }

  lemma TopDigitsEnds(key: nat, depth: nat)
    ensures TopDigits(key, depth, 0) == 0
    ensures TopDigits(key, depth, depth) == Value(WordOfKey(key, depth))
  {
    assert WordOfKey(key, depth)[..depth] == WordOfKey(key, depth);
  }

  /** Reverses the digits of a key into the bit order in which queries read it. */
  method ReverseDigits(key: nat, l: nat) returns (reversed: nat)
    requires l % 2 == 0
    ensures reversed == Value(WordOfKey(key, l / 2))
  {
    hide TopDigits, OrDigit, BitOr, Pow4, WordOfKey, Value;
    reversed := 0;
    TopDigitsEnds(key, l / 2);
    var t := 0;
    while t < l
      invariant 0 <= t <= l && t % 2 == 0
      invariant reversed == TopDigits(key, l / 2, t / 2)
    {
      reversed := OrDigit(key, l, t, reversed);
      t := t + 2;
    }
  }

  /** `reversed |= ((key >> t) & 3) << (l - t - 2)` */
  function OrDigit(key: nat, l: nat, t: nat, reversed: nat): (r: nat)
    requires l % 2 == 0 && t % 2 == 0 && t < l
    ensures reversed == TopDigits(key, l / 2, t / 2) ==> r == TopDigits(key, l / 2, t / 2 + 1)
  {
    TopDigitsStep(key, l / 2, t / 2);
    assert (l - t - 2) / 2 == l / 2 - t / 2 - 1;
    BitOr(reversed, ((key / Pow4(t / 2)) % 4) * Pow4((l - t - 2) / 2))
  }

  lemma DigitAt(key: nat, depth: nat, i: nat)
    requires i < depth
    ensures var w := WordOfKey(key, depth);
      0 <= Value(w[..i + 1]) == Value(w[..i]) * 4 + (key / Pow4(i)) % 4
  {
    var w := WordOfKey(key, depth);
    WordOfKeyPrefix(key, depth, i + 1);
    WordOfKeyPrefix(key, depth, i);
    ValueBound(w[..i + 1]);
    assert w[..i + 1][..i] == w[..i];
  }

  lemma PushDigit(v: nat, digit: nat, k: nat)
    requires digit < 4
    ensures BitOr(v * Pow4(k + 1), digit * Pow4(k)) == (v * 4 + digit) * Pow4(k)
  {
    var p := Pow4(k);
    OrCommutes(v * Pow4(k + 1), digit * p);
    MulGap(digit, 4, p);
    OrIsSum(digit * p, v, k + 1);
    MulDistributes(v, 4, digit, p);
    MulAssociates(v, p, 4);
  }

  /** The open prefixes, the keys handed out and the exact share of the code space they leave. */
  ghost predicate State(d: seq<nat>, j: nat, depth: nat, keys: seq<nat>, open: seq<nat>)
    requires Lengths(d) && j <= |d| && forall t :: 0 <= t < j ==> d[t] <= depth
  {
    && |keys| == j
    && Descending(open, Pow4(depth))
    && Assigned(keys, d) && Exceed(keys, d, open) && Greatest(keys, d) && Complete(keys, d, open, depth)
    && |open| == OpenAt(d, j, depth)
  }

  lemma StateSplit(d: seq<nat>, j: nat, depth: nat, keys: seq<nat>, open: seq<nat>)
    requires Lengths(d) && j <= |d| && forall t :: 0 <= t < j ==> d[t] <= depth
    requires State(d, j, depth, keys, open)
    ensures State(d, j, depth + 1, keys, Split(open, Pow4(depth)))
  {
    DescendingSplit(open, Pow4(depth));
    ExceedSplit(keys, d, open, depth);
    CompleteSplit(keys, d, open, depth);
    UnitsDeeper(d, j, depth);
    hide Descending, Assigned, Exceed, Greatest, Complete;
  }

  lemma StateAssign(d: seq<nat>, j: nat, depth: nat, keys: seq<nat>, open: seq<nat>)
    requires Lengths(d) && Kraft(d) && j < |d| && depth == d[j]
    requires State(d, j, depth, keys, open)
    ensures |open| > 0 && State(d, j + 1, depth, keys + [open[0]], open[1..])
  {
    RoomForNext(d, j, depth);
    AssignNext(keys, d, open);
    CompleteNext(keys, d, open);
    GreatestNext(keys, d, open[0]);
    hide Greatest, Complete, Assigned, Exceed;
    assert forall i :: 0 <= i < |open[1..]| ==> open[1..][i] == open[i + 1];
  }

  /** The splits made so far were within the scratch array. */
  ghost predicate FitsUpTo(d: seq<nat>, j: nat, depth: nat)
    requires Lengths(d) && j <= |d|
  {
    && (forall i, e: nat :: 0 <= i < j && DepthBefore(d, i) <= e < d[i] ==> SplitFits(d, i, e))
    && (j < |d| ==> forall e: nat :: DepthBefore(d, j) <= e < depth ==> SplitFits(d, j, e))
  }

  ghost predicate HasCode(info: LenInfo, key: nat, code: PrefixCode) {
    code.len == info.len && code.content == Value(WordOfKey(key, info.len / 2))
  }

  /** What has been stored for the first `j` symbols. */
  ghost predicate Stored(lengths: seq<LenInfo>, sigma: nat, j: nat, keys: seq<nat>, codes: seq<PrefixCode>)
  {
    && j <= |lengths| && |keys| == j && |codes| == sigma + 1
    && (forall t :: 0 <= t < |lengths| ==> lengths[t].symbol <= sigma)
    && (forall t :: 0 <= t < j ==> HasCode(lengths[t], keys[t], codes[lengths[t].symbol]))
    && (forall x :: 0 <= x <= sigma && (forall t :: 0 <= t < j ==> lengths[t].symbol != x) ==> codes[x] == PrefixCode(0, 0))
  }

  lemma StoredCodes(lengths: seq<LenInfo>, sigma: nat, keys: seq<nat>, codes: seq<PrefixCode>)
    requires ValidLengths(lengths, sigma) && Stored(lengths, sigma, |lengths|, keys, codes)
    requires Assigned(keys, Depths(lengths)) && Greatest(keys, Depths(lengths))
    ensures CodesFor(lengths, sigma, codes)
  {
    var d, words := Depths(lengths), WordsOf(lengths, codes);
    forall t | 0 <= t < |lengths|
      ensures codes[lengths[t].symbol].content < Pow4(d[t]) && words[t] == WordOfKey(keys[t], d[t])
    {
      var w := WordOfKey(keys[t], d[t]);
      ValueBound(w);
      CodeWordOfValue(w);
      assert HasCode(lengths[t], keys[t], codes[lengths[t].symbol]);
      assert codes[lengths[t].symbol] == PrefixCode(Value(w), 2 * |w|);
    }
    KeysOrdered(keys, d, words);
    KeysGreatest(keys, d, words);
  }

  /**
   Splits the open prefixes until they have `len` bits; gives up where the scratch
   array ends.
   */
  method OpenPrefixes(ghost d: seq<nat>, j: nat, ghost keys: seq<nat>, len: nat, c: array<nat>, m0: nat, l0: nat)
    returns (m: nat, l: nat, fits: bool)
    requires Lengths(d) && j < |d| && len == 2 * d[j] && c.Length == 4 * |d| && j <= m0 <= c.Length
    requires l0 == 2 * DepthBefore(d, j) <= len
    requires State(d, j, l0 / 2, keys, c[j..m0]) && FitsUpTo(d, j, l0 / 2)
    modifies c
    ensures !fits ==> !Fits(d)
    ensures fits ==> l == len && j <= m <= c.Length && State(d, j, d[j], keys, c[j..m]) && FitsUpTo(d, j, d[j])
  {
    hide State, Split, FitsUpTo, Fits, OpenAt, SplitFits, Pow4, Units, BitOr, Plus;
    m, l := m0, l0;
    while len > l
      invariant l % 2 == 0 && l0 <= l <= len
      invariant j <= m <= c.Length
      invariant State(d, j, l / 2, keys, c[j..m])
      invariant FitsUpTo(d, j, l / 2)
    {
      StateShape(d, j, l / 2, keys, c[j..m]);
      if 4 * m - 3 * j > c.Length {
        SplitOverflows(d, j, l / 2);
        return m, l, false;
      }
      FitsSplit(d, j, l / 2);
      StateSplit(d, j, l / 2, keys, c[j..m]);
      assert forall i :: j <= i < m ==> c[i] == c[j..m][i - j];
      SplitOpen(c, j, m, l / 2);
      m := 4 * m - 3 * j;
      l := l + 2;
    }
    fits := true;
  }

  /**
   Hands out codes in the order of `lengths`. `None` stands for the panic on an
   index out of range when the scratch array of four slots per symbol is too small.
   */
  method Assign(lengths: seq<LenInfo>, sigma: nat) returns (r: Option<seq<PrefixCode>>)
    requires ValidLengths(lengths, sigma)
    ensures r.Some? <==> Fits(Depths(lengths))
    ensures r.Some? ==> CodesFor(lengths, sigma, r.value)
  {
    hide State, Stored, Split, Assigned, Greatest, Kraft, FitsUpTo, Ordered, Units, Pow4, Lengths, ValidLengths, CodesFor, Fits, BitOr, Plus, SplitFits, Value, WordOfKey, Descending, OpenAt;
    var alphSize := |lengths|;
    ghost var d := Depths(lengths);
    var assignments := seq(sigma + 1, _ => PrefixCode(0, 0));
    var c := new nat[alphSize * 4](_ => 0);
    var m, l, j := 1, 0, 0;
    ghost var keys: seq<nat> := [];
    assert alphSize > 0 ==> c[0..1] == [0];
    StateInit(lengths, sigma, assignments);
    DepthsBelow(lengths, sigma);
    FitsStart(d);
    while j < alphSize
      invariant 0 <= j <= alphSize && j <= m && (m <= c.Length || alphSize == 0)
      invariant l == 2 * DepthBefore(d, j)
      invariant alphSize > 0 ==> State(d, j, l / 2, keys, c[j..m])
      invariant FitsUpTo(d, j, DepthBefore(d, j))
      invariant j == alphSize ==> Fits(d)
      invariant Stored(lengths, sigma, j, keys, assignments)
      invariant |keys| == j && Assigned(keys, d) && Greatest(keys, d)
    {
      LengthAt(lengths, sigma, j);
      var fits: bool;
      m, l, fits := OpenPrefixes(d, j, keys, lengths[j].len, c, m, l);
      if !fits {
        return None;
      }
      StateAssign(d, j, l / 2, keys, c[j..m]);
      var reversedCode := ReverseDigits(c[j], l);
      StoredNext(lengths, sigma, j, keys, assignments, c[j], PrefixCode(reversedCode, l));
      assignments := assignments[lengths[j].symbol := PrefixCode(reversedCode, l)];
      keys := keys + [c[j]];
      assert c[j..m][1..] == c[j + 1..m];
      FitsAssign(d, j);
      j := j + 1;
      StateShape(d, j, l / 2, keys, c[j..m]);
    }
    StoredCodes(lengths, sigma, keys, assignments);
    r := Some(assignments);
  }

  lemma DepthsBelow(lengths: seq<LenInfo>, sigma: nat)
    requires ValidLengths(lengths, sigma)
    ensures Lengths(Depths(lengths)) && Kraft(Depths(lengths))
    ensures forall j, t :: 0 <= t < j <= |lengths| ==> Depths(lengths)[t] <= DepthBefore(Depths(lengths), j)
  {}

  lemma LengthAt(lengths: seq<LenInfo>, sigma: nat, j: nat)
    requires ValidLengths(lengths, sigma) && j < |lengths|
    ensures lengths[j].len == 2 * Depths(lengths)[j] && DepthBefore(Depths(lengths), j) <= Depths(lengths)[j]
    ensures forall t :: 0 <= t < j ==> lengths[t].symbol != lengths[j].symbol
  {}

  lemma FitsStart(d: seq<nat>)
    requires Lengths(d)
    ensures FitsUpTo(d, 0, DepthBefore(d, 0))
    ensures |d| == 0 ==> Fits(d)
  {}

  lemma FitsSplit(d: seq<nat>, j: nat, depth: nat)
    requires Lengths(d) && j < |d| && DepthBefore(d, j) <= depth
    requires FitsUpTo(d, j, depth) && SplitFits(d, j, depth)
    ensures FitsUpTo(d, j, depth + 1)
  {}

  lemma FitsAssign(d: seq<nat>, j: nat)
    requires Lengths(d) && j < |d| && FitsUpTo(d, j, d[j])
    ensures FitsUpTo(d, j + 1, DepthBefore(d, j + 1))
    ensures j + 1 == |d| ==> Fits(d)
  {}

  lemma SplitOverflows(d: seq<nat>, j: nat, depth: nat)
    requires Lengths(d) && j < |d| && DepthBefore(d, j) <= depth < d[j] && !SplitFits(d, j, depth)
    ensures !Fits(d)
  {}

  lemma StateInit(lengths: seq<LenInfo>, sigma: nat, codes: seq<PrefixCode>)
    requires ValidLengths(lengths, sigma) && |codes| == sigma + 1
    requires forall x :: 0 <= x <= sigma ==> codes[x] == PrefixCode(0, 0)
    ensures State(Depths(lengths), 0, 0, [], [0])
    ensures Stored(lengths, sigma, 0, [], codes)
  {}

  lemma StateShape(d: seq<nat>, j: nat, depth: nat, keys: seq<nat>, open: seq<nat>)
    requires Lengths(d) && j <= |d| && forall t :: 0 <= t < j ==> d[t] <= depth
    requires State(d, j, depth, keys, open)
    ensures |open| == OpenAt(d, j, depth) && Assigned(keys, d) && Greatest(keys, d)
    ensures j < |d| && DepthBefore(d, j) <= depth ==> (SplitFits(d, j, depth) <==> 4 * |open| + j <= 4 * |d|)
    ensures forall i :: 0 <= i < |open| ==> open[i] < Pow4(depth)
  {}

  lemma StoredNext(lengths: seq<LenInfo>, sigma: nat, j: nat, keys: seq<nat>, codes: seq<PrefixCode>, key: nat, code: PrefixCode)
    requires Stored(lengths, sigma, j, keys, codes) && j < |lengths|
    requires forall t :: 0 <= t < j ==> lengths[t].symbol != lengths[j].symbol
    requires HasCode(lengths[j], key, code)
    ensures lengths[j].symbol < |codes|
    ensures Stored(lengths, sigma, j + 1, keys + [key], codes[lengths[j].symbol := code])
  {
    hide HasCode;
  }
}
