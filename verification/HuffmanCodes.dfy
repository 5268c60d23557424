/** From raw code lengths to the finished code table: cap, sort, assign. */
module HuffmanCodes {
  import opened Wrappers
  import opened Words
  import opened CodeOrder
  import opened Arithmetic
  import opened CraftCodes
  import opened AssignCodes
  import opened CodeTables
  import opened SortByKey
  import opened LimitLengths

  /** Shortest code first, then the more frequent symbol, then the smaller one. */
  function LengthKey(x: LenInfo): Key3 {
    var f: int := x.frequency;
    (x.len as int, -f, x.symbol as int)
  }

  /** Lengths as a Huffman coder delivers them: one even length per symbol, within the code space. */
  ghost predicate RawLengths(s: seq<LenInfo>, sigma: nat) {
    && AllEven(s)
    && (forall i :: 0 <= i < |s| ==> s[i].len >= 2 && s[i].symbol <= sigma)
    && (forall i, j :: 0 <= i < j < |s| ==> s[i].symbol != s[j].symbol)
    && (!Overlong(s) ==> Slots(s) <= MAX_DEPTH_SLOTS)
  }

  /** Lengths after limiting: nothing beyond 32 bits, and Kraft's inequality at that depth. */
  ghost predicate Limited(s: seq<LenInfo>, sigma: nat) {
    && AllEven(s)
    && (forall i :: 0 <= i < |s| ==> 2 <= s[i].len <= MAX_CODE_BITS && s[i].symbol <= sigma)
    && (forall i, j :: 0 <= i < j < |s| ==> s[i].symbol != s[j].symbol)
    && Slots(s) <= MAX_DEPTH_SLOTS
  }

  lemma Pow4Sixteen()
    ensures Pow4(16) == MAX_DEPTH_SLOTS
  {
    assert Pow4(2) == 16;
    Pow4Add(2, 2);
    Pow4Add(4, 4);
    Pow4Add(8, 8);
  }

  lemma {:induction false} SlotsFront(x: LenInfo, s: seq<LenInfo>)
    ensures Slots([x] + s) == SlotsOf(x.len) + Slots(s)
  {
    if s == [] {
      assert [x] + s == [x];
    } else {
      var n := |s| - 1;
      SlotsFront(x, s[..n]);
      assert ([x] + s)[..n + 1] == [x] + s[..n];
    }
  }

  lemma {:induction false} SlotsInsert(x: LenInfo, s: seq<LenInfo>, key: LenInfo -> Key3)
    ensures Slots(Insert(x, s, key)) == SlotsOf(x.len) + Slots(s)
  {
    SlotsFront(x, s);
    if s == [] {
      assert [x] + s == [x];
    } else if !KeyLe(key(x), key(s[0])) {
      SlotsInsert(x, s[1..], key);
      SlotsFront(s[0], Insert(x, s[1..], key));
      SlotsFront(s[0], s[1..]);
      assert s == [s[0]] + s[1..];
    }
  }

  lemma {:induction false} SlotsSort(s: seq<LenInfo>, key: LenInfo -> Key3)
    ensures Slots(Sort(s, key)) == Slots(s)
  {
    if s != [] {
      SlotsSort(s[1..], key);
      SlotsInsert(s[0], Sort(s[1..], key), key);
      SlotsFront(s[0], s[1..]);
      assert s == [s[0]] + s[1..];
    }
  }

  lemma {:induction false} SlotsAreUnits(s: seq<LenInfo>, d: seq<nat>, j: nat)
    requires j <= |s| == |d|
    requires forall t :: 0 <= t < |s| ==> s[t].len % 2 == 0 && s[t].len <= MAX_CODE_BITS && d[t] == s[t].len / 2
    ensures Units(d, j, 16) == Slots(s[..j])
  {
    if j > 0 {
      SlotsAreUnits(s, d, j - 1);
      assert s[..j][..j - 1] == s[..j - 1];
      assert (MAX_CODE_BITS - s[j - 1].len) / 2 == 16 - d[j - 1];
    }
  }

  lemma LimitedKraft(s: seq<LenInfo>, sigma: nat)
    requires Limited(s, sigma)
    requires forall i, j :: 0 <= i < j < |s| ==> s[i].len <= s[j].len
    ensures ValidLengths(s, sigma)
  {
    var d := Depths(s);
    if |s| > 0 {
      var last := d[|d| - 1];
      SlotsAreUnits(s, d, |s|);
      assert s[..|s|] == s;
      UnitsScale(d, |d|, last, 16 - last);
      Pow4Add(16 - last, last);
      Pow4Sixteen();
      AtMostFactor(Pow4(16 - last), Units(d, |d|, last), Pow4(last));
    }
  }

  lemma SortedValid(s: seq<LenInfo>, sigma: nat)
    requires Limited(s, sigma)
    ensures ValidLengths(Sort(s, LengthKey), sigma)
  {
    hide Sort, ValidLengths;
    SortedLimited(s, sigma);
    SortedByLength(s);
    LimitedKraft(Sort(s, LengthKey), sigma);
  }

  lemma SortedLimited(s: seq<LenInfo>, sigma: nat)
    requires Limited(s, sigma)
    ensures Limited(Sort(s, LengthKey), sigma)
  {
    hide Sort, Slots, LengthKey;
    var order := Sort(s, LengthKey);
    SlotsSort(s, LengthKey);
    SortElements(s, LengthKey);
    DistinctSymbols(s, order);
    assert forall i :: 0 <= i < |order| ==> order[i] in s;
  }

  lemma SortedByLength(s: seq<LenInfo>)
    ensures var order := Sort(s, LengthKey); forall i, j :: 0 <= i < j < |order| ==> order[i].len <= order[j].len
  {
    var order := Sort(s, LengthKey);
    SortInOrder(s, LengthKey);
    assert forall i, j :: 0 <= i < j < |order| ==> KeyLe(LengthKey(order[i]), LengthKey(order[j]));
  }

  lemma {:induction false} SymbolOnce(s: seq<LenInfo>, x: LenInfo)
    requires forall i, j :: 0 <= i < j < |s| ==> s[i].symbol != s[j].symbol
    ensures multiset(s)[x] <= 1
  {
    if s != [] {
      var n := |s| - 1;
      SymbolOnce(s[..n], x);
      assert s == s[..n] + [s[n]];
      if s[n] == x {
        assert x !in s[..n];
      }
    }
  }

  lemma DistinctSymbols(s: seq<LenInfo>, t: seq<LenInfo>)
    requires multiset(s) == multiset(t)
    requires forall i, j :: 0 <= i < j < |s| ==> s[i].symbol != s[j].symbol
    ensures forall i, j :: 0 <= i < j < |t| ==> t[i].symbol != t[j].symbol
  {
    forall i, j | 0 <= i < j < |t|
      ensures t[i].symbol != t[j].symbol
    {
      assert t[i] in multiset(t) && t[j] in multiset(t);
      assert t[i] in s && t[j] in s;
      if t[i] == t[j] {
        SymbolOnce(s, t[i]);
        Twice(t, i, j);
      }
    }
  }

  lemma Twice(t: seq<LenInfo>, i: nat, j: nat)
    requires i < j < |t| && t[i] == t[j]
    ensures multiset(t)[t[i]] >= 2
  {
    assert t == t[..j] + [t[j]] + t[j + 1..];
    assert t[i] in t[..j];
  }

  lemma LimitKeepsRaw(was: seq<LenInfo>, now: seq<LenInfo>, sigma: nat)
    requires RawLengths(was, sigma) && LimitedTo(was, now)
    ensures Limited(now, sigma)
  {}

  // ---- Which symbol gets which code ----

  /** `x` is served before `y`: its code is shorter, or it is more frequent, or it is the smaller symbol. */
  ghost predicate Before(x: LenInfo, y: LenInfo) {
    || x.len < y.len
    || (x.len == y.len && (x.frequency > y.frequency || (x.frequency == y.frequency && x.symbol < y.symbol)))
  }

  /** The word of a symbol. */
  ghost function WordFor(x: LenInfo, codes: seq<PrefixCode>): (w: Word)
    requires x.symbol < |codes|
    ensures Quaternary(w)
  {
    CodeWord(codes[x.symbol])
  }

  /**
   The code table of `lengths`, word for word: served one after the other, every symbol takes the
   greatest free word of its length in reversed-digit order.
   */
  ghost predicate Crafted(lengths: seq<LenInfo>, sigma: nat, codes: seq<PrefixCode>) {
    && |codes| == sigma + 1
    && (forall t :: 0 <= t < |lengths| ==> lengths[t].symbol <= sigma)
    && (forall t :: 0 <= t < |lengths| ==>
          codes[lengths[t].symbol].len == lengths[t].len && codes[lengths[t].symbol].content < Pow4(lengths[t].len / 2))
    && (forall x :: 0 <= x <= sigma && (forall t :: 0 <= t < |lengths| ==> lengths[t].symbol != x) ==> codes[x] == PrefixCode(0, 0))
    && (forall s, t :: 0 <= s < |lengths| && 0 <= t < |lengths| && Before(lengths[s], lengths[t]) ==>
          Exceeds(WordFor(lengths[s], codes), WordFor(lengths[t], codes)))
    && (forall t, x: Word :: 0 <= t < |lengths| && Quaternary(x) && |x| == lengths[t].len / 2 && NoneBegins(lengths, codes, t, x) ==>
          Key(x) <= Key(WordFor(lengths[t], codes)))
  }

  /** `u` is greater than what the longer or equally long `v` shows of itself at that depth. */
  ghost predicate Exceeds(u: Word, v: Word) {
    |u| <= |v| && Key(u) > Key(v[..|u|])
  }

  /** `x` begins with no word handed out before symbol number `t` is served. */
  ghost predicate NoneBegins(lengths: seq<LenInfo>, codes: seq<PrefixCode>, t: nat, x: Word)
    requires t < |lengths| && forall s :: 0 <= s < |lengths| ==> lengths[s].symbol < |codes|
  {
    forall s :: 0 <= s < |lengths| && Before(lengths[s], lengths[t]) ==> !(WordFor(lengths[s], codes) <= x)
  }

  /** Of two codes of one length, the more frequent symbol has the greater, among equals the smaller symbol. */
  lemma EqualLengths(lengths: seq<LenInfo>, sigma: nat, codes: seq<PrefixCode>, a: nat, b: nat)
    requires Crafted(lengths, sigma, codes) && a < |lengths| && b < |lengths| && lengths[a].len == lengths[b].len
    requires lengths[a].frequency > lengths[b].frequency
          || (lengths[a].frequency == lengths[b].frequency && lengths[a].symbol < lengths[b].symbol)
    ensures Key(CodeWord(codes[lengths[a].symbol])) > Key(CodeWord(codes[lengths[b].symbol]))
  {
    hide Key, CodeWord;
    var u, v := WordFor(lengths[a], codes), WordFor(lengths[b], codes);
    assert Before(lengths[a], lengths[b]) && Exceeds(u, v);
    assert |u| == |v| && v[..|u|] == v;
  }

  lemma SortPositions(lengths: seq<LenInfo>, i: nat) returns (j: nat)
    requires i < |lengths|
    ensures j < |Sort(lengths, LengthKey)| && Sort(lengths, LengthKey)[j] == lengths[i]
  {
    hide Sort;
    SortElements(lengths, LengthKey);
    assert lengths[i] in Sort(lengths, LengthKey);
    j :| 0 <= j < |Sort(lengths, LengthKey)| && Sort(lengths, LengthKey)[j] == lengths[i];
  }

  lemma SortSources(lengths: seq<LenInfo>, j: nat) returns (i: nat)
    requires j < |Sort(lengths, LengthKey)|
    ensures i < |lengths| && Sort(lengths, LengthKey)[j] == lengths[i]
  {
    hide Sort;
    SortElements(lengths, LengthKey);
    assert Sort(lengths, LengthKey)[j] in lengths;
    i :| 0 <= i < |lengths| && Sort(lengths, LengthKey)[j] == lengths[i];
  }

  /** The sorted order serves `x` before `y` exactly when `x` stands first. */
  lemma SortServes(lengths: seq<LenInfo>, i: nat, j: nat)
    requires forall s, t :: 0 <= s < t < |Sort(lengths, LengthKey)| ==> Sort(lengths, LengthKey)[s].symbol != Sort(lengths, LengthKey)[t].symbol
    requires i < |Sort(lengths, LengthKey)| && j < |Sort(lengths, LengthKey)|
    ensures Before(Sort(lengths, LengthKey)[i], Sort(lengths, LengthKey)[j]) <==> i < j
  {
    hide Sort;
    var order := Sort(lengths, LengthKey);
    SortInOrder(lengths, LengthKey);
    if i < j {
      assert KeyLe(LengthKey(order[i]), LengthKey(order[j]));
    } else if j < i {
      assert KeyLe(LengthKey(order[j]), LengthKey(order[i]));
    }
  }

  lemma CraftedFromSorted(lengths: seq<LenInfo>, sigma: nat, codes: seq<PrefixCode>)
    requires ValidLengths(Sort(lengths, LengthKey), sigma) && CodesFor(Sort(lengths, LengthKey), sigma, codes)
    ensures Crafted(lengths, sigma, codes)
  {
    hide Sort, LengthKey, Key, CodeWord, Before, Exceeds, Lengths, Kraft, Pow4;
    var order := Sort(lengths, LengthKey);
    forall t | 0 <= t < |lengths|
      ensures lengths[t].symbol <= sigma && codes[lengths[t].symbol].len == lengths[t].len
      ensures codes[lengths[t].symbol].content < Pow4(lengths[t].len / 2)
    {
      var j := SortPositions(lengths, t);
    }
    forall x | 0 <= x <= sigma && (forall t :: 0 <= t < |lengths| ==> lengths[t].symbol != x)
      ensures codes[x] == PrefixCode(0, 0)
    {
      forall j | 0 <= j < |order|
        ensures order[j].symbol != x
      {
        var i := SortSources(lengths, j);
      }
    }
    forall s, t | 0 <= s < |lengths| && 0 <= t < |lengths| && Before(lengths[s], lengths[t])
      ensures Exceeds(WordFor(lengths[s], codes), WordFor(lengths[t], codes))
    {
      SortedExceeds(lengths, sigma, codes, s, t);
    }
    forall t, x: Word | 0 <= t < |lengths| && Quaternary(x) && |x| == lengths[t].len / 2 && NoneBegins(lengths, codes, t, x)
      ensures Key(x) <= Key(WordFor(lengths[t], codes))
    {
      SortedGreatest(lengths, sigma, codes, t, x);
    }
  }

  lemma SortedExceeds(lengths: seq<LenInfo>, sigma: nat, codes: seq<PrefixCode>, s: nat, t: nat)
    requires ValidLengths(Sort(lengths, LengthKey), sigma) && CodesFor(Sort(lengths, LengthKey), sigma, codes)
    requires s < |lengths| && t < |lengths| && Before(lengths[s], lengths[t])
    ensures lengths[s].symbol < |codes| && lengths[t].symbol < |codes| && Exceeds(WordFor(lengths[s], codes), WordFor(lengths[t], codes))
  {
    hide Sort, LengthKey, Key, CodeWord, Before, Lengths, Kraft, GreatestFree, Ordered, Exceeds, Pow4;
    var order := Sort(lengths, LengthKey);
    var i := SortPositions(lengths, s);
    var j := SortPositions(lengths, t);
    SortServes(lengths, i, j);
    var w := WordsOf(order, codes);
    OrderedAt(w, i, j);
    assert w[i] == WordFor(lengths[s], codes) && w[j] == WordFor(lengths[t], codes);
  }

  lemma OrderedAt(words: seq<Word>, i: nat, j: nat)
    requires Ordered(words) && i < j < |words|
    ensures Exceeds(words[i], words[j])
  {}

  lemma SortedGreatest(lengths: seq<LenInfo>, sigma: nat, codes: seq<PrefixCode>, t: nat, x: Word)
    requires ValidLengths(Sort(lengths, LengthKey), sigma) && CodesFor(Sort(lengths, LengthKey), sigma, codes)
    requires t < |lengths| && Quaternary(x) && |x| == lengths[t].len / 2
    requires forall s :: 0 <= s < |lengths| ==> lengths[s].symbol < |codes|
    requires NoneBegins(lengths, codes, t, x)
    ensures Key(x) <= Key(WordFor(lengths[t], codes))
  {
    hide Sort, LengthKey, Key, Before, Lengths, Kraft, Ordered, Pow4;
    var order := Sort(lengths, LengthKey);
    var j := SortPositions(lengths, t);
    var w := WordsOf(order, codes);
    assert w[j] == WordFor(lengths[t], codes) && codes[order[j].symbol].len == lengths[t].len;
    assert |w[j]| == |x|;
    forall i | 0 <= i < j
      ensures !(w[i] <= x)
    {
      var s := SortSources(lengths, i);
      SortServes(lengths, i, j);
      assert w[i] == WordFor(lengths[s], codes);
    }
  }

  /** Lengths and frequencies determine every code. */
  lemma {:induction false} WordOnce(lengths: seq<LenInfo>, sigma: nat, c1: seq<PrefixCode>, c2: seq<PrefixCode>, t: nat, j: nat)
    requires Crafted(lengths, sigma, c1) && Crafted(lengths, sigma, c2)
    requires forall a, b :: 0 <= a < b < |lengths| ==> lengths[a].symbol != lengths[b].symbol
    requires t < |lengths| && j < |Sort(lengths, LengthKey)| && Sort(lengths, LengthKey)[j] == lengths[t]
    ensures WordFor(lengths[t], c1) == WordFor(lengths[t], c2)
    decreases j
  {
    hide Sort, LengthKey, Key, CodeWord, Before, Exceeds, Pow4, Crafted, WordFor;
    CraftedWord(lengths, sigma, c1, t);
    CraftedWord(lengths, sigma, c2, t);
    DistinctSymbols(lengths, Sort(lengths, LengthKey));
    forall s | 0 <= s < |lengths| && Before(lengths[s], lengths[t])
      ensures WordFor(lengths[s], c1) == WordFor(lengths[s], c2)
    {
      var i := SortPositions(lengths, s);
      SortServes(lengths, i, j);
      WordOnce(lengths, sigma, c1, c2, s, i);
    }
    var u, v := WordFor(lengths[t], c1), WordFor(lengths[t], c2);
    FreeInOther(lengths, sigma, c1, c2, t);
    FreeInOther(lengths, sigma, c2, c1, t);
    assert Key(u) == Key(v) && |u| == |v| == lengths[t].len / 2;
    KeyInjective(u, v);
  }

  lemma FreeInOther(lengths: seq<LenInfo>, sigma: nat, c1: seq<PrefixCode>, c2: seq<PrefixCode>, t: nat)
    requires Crafted(lengths, sigma, c1) && Crafted(lengths, sigma, c2) && t < |lengths|
    requires forall s :: 0 <= s < |lengths| && Before(lengths[s], lengths[t]) ==> WordFor(lengths[s], c1) == WordFor(lengths[s], c2)
    ensures Key(WordFor(lengths[t], c1)) <= Key(WordFor(lengths[t], c2))
  {
    hide Key, Before, Pow4, Crafted, WordFor, Exceeds;
    CraftedWord(lengths, sigma, c1, t);
    CraftedWord(lengths, sigma, c2, t);
    var u := WordFor(lengths[t], c1);
    forall s | 0 <= s < |lengths| && Before(lengths[s], lengths[t])
      ensures !(WordFor(lengths[s], c2) <= u)
    {
      CraftedExceeds(lengths, sigma, c1, s, t);
      NotBegun(WordFor(lengths[s], c1), u);
    }
    CraftedGreatest(lengths, sigma, c2, t, u);
  }

  lemma CraftedWord(lengths: seq<LenInfo>, sigma: nat, codes: seq<PrefixCode>, t: nat)
    requires Crafted(lengths, sigma, codes) && t < |lengths|
    ensures forall s :: 0 <= s < |lengths| ==> lengths[s].symbol < |codes|
    ensures |WordFor(lengths[t], codes)| == lengths[t].len / 2
  {}

  lemma CraftedExceeds(lengths: seq<LenInfo>, sigma: nat, codes: seq<PrefixCode>, s: nat, t: nat)
    requires Crafted(lengths, sigma, codes) && s < |lengths| && t < |lengths| && Before(lengths[s], lengths[t])
    ensures Exceeds(WordFor(lengths[s], codes), WordFor(lengths[t], codes))
  {
    hide Exceeds, Before, Key, CodeWord, Pow4;
  }

  lemma CraftedGreatest(lengths: seq<LenInfo>, sigma: nat, codes: seq<PrefixCode>, t: nat, x: Word)
    requires Crafted(lengths, sigma, codes) && t < |lengths| && Quaternary(x) && |x| == lengths[t].len / 2
    requires forall s :: 0 <= s < |lengths| && Before(lengths[s], lengths[t]) ==> !(WordFor(lengths[s], codes) <= x)
    ensures Key(x) <= Key(WordFor(lengths[t], codes))
  {
    hide Exceeds, Before, Key, CodeWord, Pow4, WordFor;
    assert NoneBegins(lengths, codes, t, x);
  }

  lemma NotBegun(u: Word, v: Word)
    requires Exceeds(u, v)
    ensures !(u <= v)
  {
    assert v[..|u|] != u;
  }

  lemma CraftedOnce(lengths: seq<LenInfo>, sigma: nat, c1: seq<PrefixCode>, c2: seq<PrefixCode>)
    requires Crafted(lengths, sigma, c1) && Crafted(lengths, sigma, c2)
    requires forall a, b :: 0 <= a < b < |lengths| ==> lengths[a].symbol != lengths[b].symbol
    requires forall t :: 0 <= t < |lengths| ==> lengths[t].len % 2 == 0 && 2 <= lengths[t].len <= MAX_CODE_BITS
    ensures c1 == c2
  {
    hide Sort, LengthKey, Key, CodeWord, Before, Exceeds, Pow4;
    forall x | 0 <= x <= sigma
      ensures c1[x] == c2[x]
    {
      if t :| 0 <= t < |lengths| && lengths[t].symbol == x {
        var j := SortPositions(lengths, t);
        WordOnce(lengths, sigma, c1, c2, t, j);
        WordDetermines(c1[x], c2[x]);
      }
    }
  }

  /**
   Builds the code table. `None` stands for two panics: the alphabet does
   not fit 32-bit codes, or the scratch array is too small.
   */
  method CraftWmCodes(lengths: array<LenInfo>, sigma: nat) returns (r: Option<seq<PrefixCode>>, ghost order: seq<LenInfo>)
    requires RawLengths(lengths[..], sigma)
    modifies lengths
    ensures Overlong(old(lengths[..])) && lengths.Length > MAX_DEPTH_SLOTS ==> r.None?
    ensures !(Overlong(old(lengths[..])) && lengths.Length > MAX_DEPTH_SLOTS) ==>
      && order == Sort(lengths[..], LengthKey)
      && LimitedTo(old(lengths[..]), lengths[..])
      && ValidLengths(order, sigma)
      && (r.Some? <==> Fits(Depths(order)))
      && (r.Some? ==> CodesFor(order, sigma, r.value))
    ensures r.Some? ==> Crafted(lengths[..], sigma, r.value)
  {
    ghost var was := lengths[..];
    var ok := LimitCodeLengths(lengths);
    order := [];
    if !ok {
      return None, order;
    }
    hide Overlong, LimitedTo, Limited, RawLengths, ValidLengths, Fits, CodesFor, Sort, Slots, Crafted;
    LimitKeepsRaw(was, lengths[..], sigma);
    SortedValid(lengths[..], sigma);
    order := Sort(lengths[..], LengthKey);
    r := Assign(Sort(lengths[..], LengthKey), sigma);
    if r.Some? {
      CraftedFromSorted(lengths[..], sigma, r.value);
    }
  }
}
