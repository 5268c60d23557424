/**
 Assignment of wavelet-matrix codes to sorted code lengths. The open prefixes
 live in one scratch array, largest first in reversed-digit order; each symbol
 takes the largest one, and every open prefix is split in four when the next
 length asks for more digits.
 */
module CraftCodes {
  import opened Wrappers
  import opened Words
  import opened CodeOrder
  import opened Arithmetic

  /** A symbol, its code length in bits and its frequency. */
  datatype LenInfo = LenInfo(symbol: nat, len: nat, frequency: nat)

  /** Code of a symbol: `len` bits of `content`; length 0 means the symbol is absent. */
  datatype PrefixCode = PrefixCode(content: nat, len: nat)

  // ---- Digits of a number ----

  /** Base-4 digits of `c`, least significant first. */
  ghost function WordOfKey(c: nat, depth: nat): (w: Word)
    ensures |w| == depth && Quaternary(w)
  {
    if depth == 0 then [] else WordOfKey(c, depth - 1) + [(c / Pow4(depth - 1)) % 4]
  }

  /** Value of a word read from its first digit to its last. */
  ghost function Value(w: Word): int {
    if |w| == 0 then 0 else Value(w[..|w| - 1]) * 4 + w[|w| - 1]
  }

  /** The digits that queries extract from a code, one level after the other. */
  ghost function CodeWord(code: PrefixCode): (w: Word)
    ensures |w| == code.len / 2 && Quaternary(w)
  {
    seq(code.len / 2, t requires 0 <= t < code.len / 2 => (code.content / Pow4(code.len / 2 - 1 - t)) % 4)
  }

  lemma {:induction false} KeyOfWord(c: nat, depth: nat)
    ensures Key(WordOfKey(c, depth)) == c % Pow4(depth)
  {
    if depth > 0 {
      KeyOfWord(c, depth - 1);
      assert WordOfKey(c, depth)[..depth - 1] == WordOfKey(c, depth - 1);
      SplitMod(c, Pow4(depth - 1));
    }
  }

  lemma SplitMod(c: nat, m: nat)
    requires m > 0
    ensures c % (4 * m) == c % m + ((c / m) % 4) * m
  {
    var q, d := c / m / 4, (c / m) % 4;
    assert c == c / m * m + c % m;
    assert c / m == 4 * q + d;
    assert c == q * (4 * m) + (d * m + c % m) by {
      assert (4 * q + d) * m == q * (4 * m) + d * m;
    }
    assert d * m + c % m < 4 * m by {
      assert d * m <= 3 * m;
    }
    ModUnique(c, 4 * m, q, d * m + c % m);
  }

  lemma {:induction false} WordOfKeyPrefix(c: nat, depth: nat, s: nat)
    requires s <= depth
    ensures WordOfKey(c, depth)[..s] == WordOfKey(c, s)
  {
    if s < depth {
      WordOfKeyPrefix(c, depth - 1, s);
      assert WordOfKey(c, depth)[..depth - 1] == WordOfKey(c, depth - 1);
      assert WordOfKey(c, depth)[..s] == WordOfKey(c, depth)[..depth - 1][..s];
    }
  }

  lemma {:induction false} ValueBound(w: Word)
    requires Quaternary(w)
    ensures 0 <= Value(w) < Pow4(|w|)
  {
    if |w| > 0 {
      ValueBound(w[..|w| - 1]);
    }
  }

  /** Reading the digits of a code back, most significant first. */
  lemma {:induction false} DigitOfValue(w: Word, t: nat)
    requires Quaternary(w) && t < |w|
    ensures 0 <= Value(w) && (Value(w) / Pow4(|w| - 1 - t)) % 4 == w[t]
  {
    ValueBound(w);
    var n := |w| - 1;
    if t == n {
      ModUnique(Value(w), 4, Value(w[..n]), w[n]);
    } else {
      DigitOfValue(w[..n], t);
      var m := Pow4(n - 1 - t);
      ModUnique(Value(w), 4, Value(w[..n]), w[n]);
      DivDiv(Value(w), 4, m);
    }
  }

  /** A code made from a word reads back as that word. */
  lemma CodeWordOfValue(w: Word)
    requires Quaternary(w)
    ensures 0 <= Value(w) && CodeWord(PrefixCode(Value(w), 2 * |w|)) == w
  {
    ValueBound(w);
    var r := CodeWord(PrefixCode(Value(w), 2 * |w|));
    forall t | 0 <= t < |w|
      ensures r[t] == w[t]
    {
      DigitOfValue(w, t);
    }
  }

  // ---- Splitting the open prefixes ----

  ghost function Plus(open: seq<nat>, x: nat): (r: seq<nat>)
    ensures |r| == |open| && forall i :: 0 <= i < |open| ==> r[i] == open[i] + x
  {
    seq(|open|, i requires 0 <= i < |open| => open[i] + x)
  }

  /** Every open prefix followed by each of the four digits, still largest first. */
  ghost function Split(open: seq<nat>, p: nat): seq<nat> {
    Plus(open, 3 * p) + Plus(open, 2 * p) + Plus(open, p) + open
  }

  /** Strictly descending and below `bound`. */
  ghost predicate Descending(open: seq<nat>, bound: nat) {
    && (forall i :: 0 <= i < |open| ==> open[i] < bound)
    && forall i, k :: 0 <= i < k < |open| ==> open[i] > open[k]
  }

  lemma DescendingConcat(a: seq<nat>, b: seq<nat>, bound: nat, mid: nat)
    requires Descending(a, bound) && Descending(b, mid) && mid <= bound
    requires forall i :: 0 <= i < |a| ==> a[i] >= mid
    ensures Descending(a + b, bound)
  {}

  lemma DescendingSplit(open: seq<nat>, p: nat)
    requires Descending(open, p)
    ensures Descending(Split(open, p), 4 * p)
  {
    DescendingConcat(Plus(open, p), open, 2 * p, p);
    DescendingConcat(Plus(open, 2 * p), Plus(open, p) + open, 3 * p, 2 * p);
    DescendingConcat(Plus(open, 3 * p), Plus(open, 2 * p) + (Plus(open, p) + open), 4 * p, 3 * p);
    assert Split(open, p) == Plus(open, 3 * p) + (Plus(open, 2 * p) + (Plus(open, p) + open));
  }

  /** Rows `[j, r)` of the block that starts `k` further on are the old ones plus `x`. */
  ghost predicate Copied(now: seq<nat>, was: seq<nat>, j: nat, r: nat, k: nat, x: nat) {
    j <= r <= |was| && k + r <= |now| && forall i :: j <= i < r ==> now[k + i] == was[i] + x
  }

  /** Row `r` of the four blocks is the next to be written. */
  ghost predicate SplitTo(now: seq<nat>, was: seq<nat>, j: nat, m: nat, r: nat, p: nat)
    requires j <= r <= m && 4 * m - 3 * j <= |now| == |was|
  {
    var n := m - j;
    && now[..j] == was[..j]
    && (forall i :: r <= i < m ==> now[i] == was[i])
    && Copied(now, was, j, r, 0, 3 * p)
    && Copied(now, was, j, r, n, 2 * p)
    && Copied(now, was, j, r, 2 * n, p)
    && Copied(now, was, j, r, 3 * n, 0)
  }

  lemma CopyOn(now: seq<nat>, next: seq<nat>, was: seq<nat>, j: nat, r: nat, k: nat, x: nat)
    requires Copied(now, was, j, r, k, x) && r < |was| && k + r < |next| == |now|
    requires next[k + r] == was[r] + x
    requires forall i :: k + j <= i < k + r ==> next[i] == now[i]
    ensures Copied(next, was, j, r + 1, k, x)
  {}

  lemma SplitNone(was: seq<nat>, j: nat, m: nat, p: nat)
    requires j <= m && 4 * m - 3 * j <= |was|
    ensures SplitTo(was, was, j, m, j, p)
  {}

  /** Writing row `r` of all four blocks. */
  ghost function Written(now: seq<nat>, n: nat, r: nat, p: nat): seq<nat>
    requires 3 * n + r < |now|
  {
    now[3 * n + r := now[r]][2 * n + r := now[r] + p][n + r := now[r] + 2 * p][r := now[r] + 3 * p]
  }

  lemma SplitStep(now: seq<nat>, was: seq<nat>, j: nat, m: nat, r: nat, p: nat)
    requires j <= r < m && 4 * m - 3 * j <= |now| == |was| && SplitTo(now, was, j, m, r, p)
    ensures SplitTo(Written(now, m - j, r, p), was, j, m, r + 1, p)
  {
    hide Copied;
    var n, next := m - j, Written(now, m - j, r, p);
    assert next[..j] == now[..j];
    CopyOn(now, next, was, j, r, 0, 3 * p);
    CopyOn(now, next, was, j, r, n, 2 * p);
    CopyOn(now, next, was, j, r, 2 * n, p);
    CopyOn(now, next, was, j, r, 3 * n, 0);
  }

  lemma SplitDone(now: seq<nat>, was: seq<nat>, j: nat, m: nat, p: nat)
    requires j <= m && 4 * m - 3 * j <= |now| == |was| && SplitTo(now, was, j, m, m, p)
    ensures now[..j] == was[..j] && now[j..4 * m - 3 * j] == Split(was[j..m], p)
  {
    hide Copied, Plus;
    var n, open := m - j, was[j..m];
    Block(now, was, j, m, 0, 3 * p);
    Block(now, was, j, m, n, 2 * p);
    Block(now, was, j, m, 2 * n, p);
    Block(now, was, j, m, 3 * n, 0);
    PlusNothing(open);
    hide SplitTo;
    FourCuts(now, j, m, n);
  }

  lemma PlusNothing(open: seq<nat>)
    ensures Plus(open, 0) == open
  {}

  lemma FourCuts<T>(s: seq<T>, j: nat, m: nat, n: nat)
    requires n == m - j && m + 3 * n <= |s|
    ensures s[j..m + 3 * n] == s[j..m] + s[n + j..n + m] + s[2 * n + j..2 * n + m] + s[3 * n + j..3 * n + m]
  {
    Cut(s, j, m + 2 * n, m + 3 * n);
    Cut(s, j, m + n, m + 2 * n);
    Cut(s, j, m, m + n);
  }

  lemma Cut<T>(s: seq<T>, a: nat, b: nat, c: nat)
    requires a <= b <= c <= |s|
    ensures s[a..c] == s[a..b] + s[b..c]
  {}

  lemma Block(now: seq<nat>, was: seq<nat>, j: nat, m: nat, k: nat, x: nat)
    requires Copied(now, was, j, m, k, x)
    ensures now[k + j..k + m] == Plus(was[j..m], x)
  {
    var l, r := now[k + j..k + m], Plus(was[j..m], x);
    forall t | 0 <= t < |l|
      ensures l[t] == r[t]
    {
      assert now[k + (j + t)] == was[j + t] + x;
    }
  }

  lemma RowStillOpen(now: seq<nat>, was: seq<nat>, j: nat, m: nat, r: nat, p: nat)
    requires j <= r < m && 4 * m - 3 * j <= |now| == |was| && SplitTo(now, was, j, m, r, p)
    ensures now[r] == was[r]
  {
    hide Copied;
  }

  /** One open prefix becomes four. */
  method SplitRow(c: array<nat>, n: nat, r: nat, depth: nat)
    requires n > 0 && 3 * n + r < c.Length && c[r] < Pow4(depth)
    modifies c
    ensures c[..] == Written(old(c[..]), n, r, Pow4(depth))
  {
    hide Pow4, BitOr;
    var p := Pow4(depth);
    OrIsSum(c[r], 1, depth);
    OrIsSum(c[r], 2, depth);
    OrIsSum(c[r], 3, depth);
    c[n * 3 + r] := c[r];
    c[n * 2 + r] := BitOr(c[r], 1 * p);
    c[n * 1 + r] := BitOr(c[r], 2 * p);
    c[r] := BitOr(c[r], 3 * p);
  }

  /** The in-place step: blocks for digits 3, 2, 1 and 0, in that order. */
  method SplitOpen(c: array<nat>, j: nat, m: nat, depth: nat)
    requires j <= m && 4 * m - 3 * j <= c.Length
    requires forall i :: j <= i < m ==> c[i] < Pow4(depth)
    modifies c
    ensures c[..j] == old(c[..j])
    ensures c[j..4 * m - 3 * j] == Split(old(c[j..m]), Pow4(depth))
  {
    hide Copied, SplitTo, Written, Split, Pow4;
    var n, p := m - j, Pow4(depth);
    ghost var was := c[..];
    SplitNone(was, j, m, p);
    var r := j;
    while r < m
      invariant j <= r <= m
      invariant SplitTo(c[..], was, j, m, r, p)
    {
      ghost var now := c[..];
      RowStillOpen(now, was, j, m, r, p);
      SplitRow(c, n, r, depth);
      SplitStep(now, was, j, m, r, p);
      r := r + 1;
    }
    SplitDone(c[..], was, j, m, p);
    assert c[j..4 * m - 3 * j] == c[..][j..4 * m - 3 * j];
    assert c[..j] == c[..][..j] && was[..j] == old(c[..j]) && was[j..m] == old(c[j..m]);
  }
}
