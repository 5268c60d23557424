/** Capping code lengths at 32 bits without overfilling the code space. */
module LimitLengths {
  import opened Arithmetic
  import opened CraftCodes
  import opened SortByKey

  const MAX_CODE_BITS: nat := 32
  const MAX_DEPTH_SLOTS: nat := 0x1_0000_0000

  /** Slots at the maximum depth that a code of `len` bits occupies. */
  function SlotsOf(len: nat): (r: nat)
    ensures r > 0
  {
    if len <= MAX_CODE_BITS then Pow4((MAX_CODE_BITS - len) / 2) else 1
  }

  function Slots(s: seq<LenInfo>): (r: nat)
    ensures r >= |s|
  {
    if s == [] then 0 else Slots(s[..|s| - 1]) + SlotsOf(s[|s| - 1].len)
  }

  function CandidateKey(x: LenInfo): Key3 {
    (x.frequency, x.len, x.symbol)
  }

  ghost predicate AllEven(s: seq<LenInfo>) {
    forall i :: 0 <= i < |s| ==> s[i].len % 2 == 0
  }

  ghost predicate Overlong(s: seq<LenInfo>) {
    exists i :: 0 <= i < |s| && s[i].len > MAX_CODE_BITS
  }

  ghost function Capped(s: seq<LenInfo>): (r: seq<LenInfo>)
    ensures |r| == |s| && forall i :: 0 <= i < |s| ==>
      r[i] == LenInfo(s[i].symbol, if s[i].len <= MAX_CODE_BITS then s[i].len else MAX_CODE_BITS, s[i].frequency)
  {
    seq(|s|, i requires 0 <= i < |s| =>
      LenInfo(s[i].symbol, if s[i].len <= MAX_CODE_BITS then s[i].len else MAX_CODE_BITS, s[i].frequency))
  }

  /** `now` differs from `base` by lengthening only, in steps of two bits up to 32. */
  ghost predicate Lengthened(base: seq<LenInfo>, now: seq<LenInfo>) {
    && |now| == |base|
    && forall i :: 0 <= i < |now| ==>
         now[i] == base[i].(len := now[i].len) && base[i].len <= now[i].len <= MAX_CODE_BITS && now[i].len % 2 == 0
  }

  /** `x` gives way before `y`: it is less frequent, or as frequent and shorter, or as long, too, and the smaller symbol. */
  ghost predicate Rarer(x: LenInfo, y: LenInfo) {
    || x.frequency < y.frequency
    || (x.frequency == y.frequency && (x.len < y.len || (x.len == y.len && x.symbol < y.symbol)))
  }

  /** Only the least frequent leaves give way: whoever was lengthened has all rarer ones at 32 bits. */
  ghost predicate LeastFrequentFirst(base: seq<LenInfo>, now: seq<LenInfo>)
    requires Lengthened(base, now)
  {
    forall i, k :: 0 <= i < |now| && 0 <= k < |now| && Rarer(base[i], base[k]) && now[k].len != base[k].len
      ==> now[i].len == MAX_CODE_BITS
  }

  /** Leaf `i` as long as it was before its last two bits. */
  ghost function Shorter(now: seq<LenInfo>, i: nat): seq<LenInfo>
    requires i < |now| && now[i].len >= 2
  {
    now[i := now[i].(len := now[i].len - 2)]
  }

  /** No leaf was lengthened in vain: without the last step of some leaf the codes would not fit. */
  ghost predicate JustEnough(base: seq<LenInfo>, now: seq<LenInfo>)
    requires |base| == |now|
  {
    if Slots(base) <= MAX_DEPTH_SLOTS then now == base
    else exists i :: 0 <= i < |now| && base[i].len < now[i].len && now[i].len >= 2 && Slots(Shorter(now, i)) > MAX_DEPTH_SLOTS
  }

  /** What limiting makes of the lengths when it succeeds. */
  ghost predicate LimitedTo(was: seq<LenInfo>, now: seq<LenInfo>) {
    if !Overlong(was) then now == was
    else
      && Lengthened(Capped(was), now) && LeastFrequentFirst(Capped(was), now) && JustEnough(Capped(was), now)
      && Slots(now) <= MAX_DEPTH_SLOTS
  }

  lemma {:induction false} SlotsUpdate(s: seq<LenInfo>, i: nat, x: LenInfo)
    requires i < |s|
    ensures Slots(s[i := x]) == Slots(s) - SlotsOf(s[i].len) + SlotsOf(x.len)
  {
    var n := |s| - 1;
    if i == n {
      assert s[i := x][..n] == s[..n];
    } else {
      SlotsUpdate(s[..n], i, x);
      assert s[i := x][..n] == s[..n][i := x];
    }
  }

  /** Two more bits give up three quarters of the slots. */
  lemma SlotsStep(len: nat)
    requires len % 2 == 0 && len < MAX_CODE_BITS
    ensures SlotsOf(len) == 4 * SlotsOf(len + 2)
  {
    assert (MAX_CODE_BITS - len) / 2 == (MAX_CODE_BITS - (len + 2)) / 2 + 1;
  }

  lemma {:induction false} AllAtCap(s: seq<LenInfo>)
    requires AllDone(s)
    ensures Slots(s) == |s|
  {
    if s != [] {
      AllAtCap(s[..|s| - 1]);
    }
  }

  /** Candidates before `q` are at 32 bits; candidate `q` alone may be in between; the rest is untouched. */
  ghost predicate Done(base: seq<LenInfo>, now: seq<LenInfo>, order: seq<nat>, q: nat)
    requires |now| == |base|
    requires forall t :: 0 <= t < |order| ==> order[t] < |base|
  {
    && q < |order|
    && (forall t :: 0 <= t < q ==> now[order[t]].len == MAX_CODE_BITS)
    && (forall i :: 0 <= i < |now| && (forall t :: 0 <= t <= q ==> order[t] != i) ==> now[i] == base[i])
  }

  /** Every leaf is at 32 bits. */
  ghost predicate AllDone(now: seq<LenInfo>) {
    forall i :: 0 <= i < |now| ==> now[i].len == MAX_CODE_BITS
  }

  /** Indices of all leaves shorter than 32 bits, least frequent first. */
  ghost predicate CandidateOrder(base: seq<LenInfo>, order: seq<nat>) {
    && (forall t :: 0 <= t < |order| ==> order[t] < |base| && base[order[t]].len < MAX_CODE_BITS)
    && (forall i :: 0 <= i < |base| && base[i].len < MAX_CODE_BITS ==> exists t :: 0 <= t < |order| && order[t] == i)
    && (forall s, t :: 0 <= s < t < |order| ==> order[s] != order[t])
    && (forall s, t :: 0 <= s < t < |order| ==> KeyLe(CandidateKey(base[order[s]]), CandidateKey(base[order[t]])))
  }

  function IndexKey(base: seq<LenInfo>, i: nat): Key3 {
    if i < |base| then CandidateKey(base[i]) else (0, 0, 0)
  }

  function OrderKey(base: seq<LenInfo>): nat -> Key3 {
    (i: nat) => IndexKey(base, i)
  }

  /** The filter and sort that produce the candidates. */
  method Candidates(lengths: array<LenInfo>) returns (order: seq<nat>)
    ensures CandidateOrder(lengths[..], order)
  {
    var picked: seq<nat> := [];
    var index := 0;
    while index < lengths.Length
      invariant 0 <= index <= lengths.Length
      invariant forall t :: 0 <= t < |picked| ==> picked[t] < index && lengths[picked[t]].len < MAX_CODE_BITS
      invariant forall i :: 0 <= i < index && lengths[i].len < MAX_CODE_BITS ==> i in picked
      invariant forall s, t :: 0 <= s < t < |picked| ==> picked[s] != picked[t]
    {
      if lengths[index].len < MAX_CODE_BITS {
        picked := picked + [index];
      }
      index := index + 1;
    }
    var base := lengths[..];
    order := Sort(picked, OrderKey(base));
    CandidatesSorted(base, picked, order);
  }

  lemma CandidatesSorted(base: seq<LenInfo>, picked: seq<nat>, order: seq<nat>)
    requires forall t :: 0 <= t < |picked| ==> picked[t] < |base| && base[picked[t]].len < MAX_CODE_BITS
    requires forall i :: 0 <= i < |base| && base[i].len < MAX_CODE_BITS ==> i in picked
    requires forall s, t :: 0 <= s < t < |picked| ==> picked[s] != picked[t]
    requires order == Sort(picked, OrderKey(base))
    ensures CandidateOrder(base, order)
  {
    hide Sort, InOrder, KeyLe;
    SortElements(picked, OrderKey(base));
    DistinctPermutation(picked, order);
    assert forall t :: 0 <= t < |order| ==> order[t] in picked;
    assert forall i :: 0 <= i < |base| && base[i].len < MAX_CODE_BITS ==> i in order;
    CandidatesInOrder(base, picked, order);
  }

  lemma CandidatesInOrder(base: seq<LenInfo>, picked: seq<nat>, order: seq<nat>)
    requires order == Sort(picked, OrderKey(base)) && forall t :: 0 <= t < |order| ==> order[t] < |base|
    ensures forall s, t :: 0 <= s < t < |order| ==> KeyLe(CandidateKey(base[order[s]]), CandidateKey(base[order[t]]))
  {
    hide Sort, KeyLe;
    var key := OrderKey(base);
    SortInOrder(picked, key);
    forall s, t | 0 <= s < t < |order|
      ensures KeyLe(CandidateKey(base[order[s]]), CandidateKey(base[order[t]]))
    {
      assert key(order[s]) == IndexKey(base, order[s]) && key(order[t]) == IndexKey(base, order[t]);
    }
  }

  lemma {:induction false} DistinctCount(s: seq<nat>, x: nat)
    requires forall i, j :: 0 <= i < j < |s| ==> s[i] != s[j]
    ensures multiset(s)[x] <= 1
  {
    if s != [] {
      var n := |s| - 1;
      DistinctCount(s[..n], x);
      assert s == s[..n] + [s[n]];
      if s[n] == x {
        assert x !in s[..n];
      }
    }
  }

  lemma DistinctPermutation(s: seq<nat>, t: seq<nat>)
    requires multiset(s) == multiset(t)
    requires forall i, j :: 0 <= i < j < |s| ==> s[i] != s[j]
    ensures forall i, j :: 0 <= i < j < |t| ==> t[i] != t[j]
  {
    forall i, j | 0 <= i < j < |t|
      ensures t[i] != t[j]
    {
      DistinctCount(s, t[i]);
      assert t == t[..j] + [t[j]] + t[j + 1..];
      assert t[i] in t[..j];
    }
  }

  lemma DoneLeast(base: seq<LenInfo>, now: seq<LenInfo>, order: seq<nat>, q: nat)
    requires CandidateOrder(base, order) && Lengthened(base, now) && Done(base, now, order, q)
    ensures LeastFrequentFirst(base, now)
  {
    forall i, k | 0 <= i < |now| && 0 <= k < |now| && Rarer(base[i], base[k]) && now[k].len != base[k].len
      ensures now[i].len == MAX_CODE_BITS
    {
      var b :| 0 <= b <= q && order[b] == k;
      if base[i].len < MAX_CODE_BITS {
        var a :| 0 <= a < |order| && order[a] == i;
        assert a < b;
      }
    }
  }

  /** Once candidate `q` is at 32 bits the next one takes its place; after the last, all leaves are there. */
  lemma DoneNext(base: seq<LenInfo>, now: seq<LenInfo>, order: seq<nat>, q: nat)
    requires CandidateOrder(base, order) && Lengthened(base, now) && Done(base, now, order, q)
    requires now[order[q]].len == MAX_CODE_BITS
    ensures q + 1 < |order| ==> Done(base, now, order, q + 1)
    ensures q + 1 == |order| ==> AllDone(now)
  {
    if q + 1 == |order| {
      forall i | 0 <= i < |now|
        ensures now[i].len == MAX_CODE_BITS
      {
        if base[i].len < MAX_CODE_BITS {
          var t :| 0 <= t < |order| && order[t] == i;
        }
      }
    }
  }

  /** With candidates left and none of them touched yet, the first is the next. */
  lemma DoneStart(base: seq<LenInfo>, order: seq<nat>)
    requires CandidateOrder(base, order) && forall i :: 0 <= i < |base| ==> base[i].len <= MAX_CODE_BITS
    ensures |order| > 0 ==> Done(base, base, order, 0)
    ensures |order| == 0 ==> AllDone(base) && (Lengthened(base, base) ==> LeastFrequentFirst(base, base))
  {}

  function LongerBy2(x: LenInfo): LenInfo {
    x.(len := x.len + 2)
  }

  lemma LengthenStep(base: seq<LenInfo>, now: seq<LenInfo>, i: nat, order: seq<nat>, q: nat)
    requires Lengthened(base, now) && i < |now| && now[i].len < MAX_CODE_BITS
    requires CandidateOrder(base, order) && Done(base, now, order, q) && i == order[q]
    ensures Lengthened(base, now[i := LongerBy2(now[i])])
    ensures Slots(now[i := LongerBy2(now[i])]) == Slots(now) - (SlotsOf(now[i].len) - SlotsOf(now[i].len) / 4)
    ensures Done(base, now[i := LongerBy2(now[i])], order, q)
  {
    hide Lengthened, CandidateOrder, Done, Slots, SlotsOf;
    LengthenedStill(base, now, i);
    SlotsStep(now[i].len);
    SlotsUpdate(now, i, LongerBy2(now[i]));
    DoneStill(base, now, i, order, q);
  }

  lemma LengthenedStill(base: seq<LenInfo>, now: seq<LenInfo>, i: nat)
    requires Lengthened(base, now) && i < |now| && now[i].len < MAX_CODE_BITS
    ensures Lengthened(base, now[i := LongerBy2(now[i])])
    ensures now[i].len % 2 == 0 && |base| == |now|
  {}

  lemma DoneStill(base: seq<LenInfo>, now: seq<LenInfo>, i: nat, order: seq<nat>, q: nat)
    requires |base| == |now| && CandidateOrder(base, order) && Done(base, now, order, q) && i == order[q]
    ensures Done(base, now[i := LongerBy2(now[i])], order, q)
  {
    hide KeyLe;
    var next := now[i := LongerBy2(now[i])];
    forall t | 0 <= t < q
      ensures next[order[t]].len == MAX_CODE_BITS
    {
      assert order[t] != order[q];
    }
  }

  method AnyOverlong(lengths: array<LenInfo>) returns (any: bool)
    ensures any <==> Overlong(lengths[..])
  {
    any := false;
    var i := 0;
    while i < lengths.Length
      invariant 0 <= i <= lengths.Length
      invariant any <==> Overlong(lengths[..i])
    {
      assert lengths[..i + 1] == lengths[..i] + [lengths[i]];
      OverlongPush(lengths[..i], lengths[i]);
      any := any || lengths[i].len > MAX_CODE_BITS;
      i := i + 1;
    }
    assert lengths[..i] == lengths[..];
  }

  lemma OverlongPush(s: seq<LenInfo>, x: LenInfo)
    ensures Overlong(s + [x]) <==> Overlong(s) || x.len > MAX_CODE_BITS
  {
    if x.len > MAX_CODE_BITS {
      assert (s + [x])[|s|] == x;
    }
    if Overlong(s) {
      var i :| 0 <= i < |s| && s[i].len > MAX_CODE_BITS;
      assert (s + [x])[i] == s[i];
    }
  }

  method CapAll(lengths: array<LenInfo>)
    modifies lengths
    ensures lengths[..] == Capped(old(lengths[..]))
  {
    var i := 0;
    while i < lengths.Length
      invariant 0 <= i <= lengths.Length
      invariant forall k :: 0 <= k < i ==> lengths[k] == Capped(old(lengths[..]))[k]
      invariant forall k :: i <= k < lengths.Length ==> lengths[k] == old(lengths[k])
    {
      if lengths[i].len > MAX_CODE_BITS {
        lengths[i] := lengths[i].(len := MAX_CODE_BITS);
      }
      i := i + 1;
    }
  }

  /**
   Caps every length at 32 bits, then lengthens the least frequent leaves until the
   code space holds them all. Returns whether the closing assertion holds.
   */
  method LimitCodeLengths(lengths: array<LenInfo>) returns (ok: bool)
    requires AllEven(lengths[..])
    modifies lengths
    ensures ok <==> !(Overlong(old(lengths[..])) && lengths.Length > MAX_DEPTH_SLOTS)
    ensures ok ==> LimitedTo(old(lengths[..]), lengths[..])
  {
    var any := AnyOverlong(lengths);
    if !any {
      return true;
    }
    ghost var was := lengths[..];
    CapAll(lengths);
    ghost var base := Capped(was);
    assert forall i :: 0 <= i < |base| ==> base[i].len <= MAX_CODE_BITS && base[i].len % 2 == 0;
    var occupied := Slots(lengths[..]);
    if occupied <= MAX_DEPTH_SLOTS {
      LengthenedSelf(base);
      SlotsAtLeast(base);
      return true;
    }
    hide Overlong, Slots, Lengthened, CandidateOrder, LeastFrequentFirst, JustEnough;
    var candidates := Candidates(lengths);
    ok := Lengthen(lengths, candidates, occupied, base);
  }

  method Lengthen(lengths: array<LenInfo>, candidates: seq<nat>, slots: nat, ghost base: seq<LenInfo>) returns (ok: bool)
    requires lengths[..] == base && CandidateOrder(base, candidates)
    requires forall i :: 0 <= i < |base| ==> base[i].len <= MAX_CODE_BITS && base[i].len % 2 == 0
    requires slots == Slots(base) && slots > MAX_DEPTH_SLOTS
    modifies lengths
    ensures Lengthened(base, lengths[..]) && LeastFrequentFirst(base, lengths[..])
    ensures ok <==> lengths.Length <= MAX_DEPTH_SLOTS
    ensures ok ==> Slots(lengths[..]) <= MAX_DEPTH_SLOTS && JustEnough(base, lengths[..])
  {
    hide Slots, SlotsOf, KeyLe, LeastFrequentFirst, Done, AllDone, Lengthened, JustEnough;
    var occupied := slots;
    var q := 0;
    LengthenedSelf(base);
    DoneStart(base, candidates);
    while q < |candidates|
      invariant 0 <= q <= |candidates|
      invariant Lengthened(base, lengths[..]) && occupied == Slots(lengths[..])
      invariant q < |candidates| ==> Done(base, lengths[..], candidates, q)
      invariant q == |candidates| ==> AllDone(lengths[..]) && LeastFrequentFirst(base, lengths[..])
      invariant occupied > MAX_DEPTH_SLOTS
    {
      var index := candidates[q];
      while occupied > MAX_DEPTH_SLOTS && lengths[index].len < MAX_CODE_BITS
        invariant Lengthened(base, lengths[..]) && occupied == Slots(lengths[..])
        invariant Done(base, lengths[..], candidates, q)
        invariant occupied <= MAX_DEPTH_SLOTS ==> JustEnough(base, lengths[..])
        decreases MAX_CODE_BITS - lengths[index].len
      {
        var oldSlots := SlotsOf(lengths[index].len);
        LengthenStep(base, lengths[..], index, candidates, q);
        ghost var now := lengths[..];
        lengths[index] := LongerBy2(lengths[index]);
        assert lengths[..] == now[index := lengths[index]];
        LastStep(base, now, lengths[..], index);
        occupied := occupied - (oldSlots - oldSlots / 4);
      }
      DoneLeast(base, lengths[..], candidates, q);
      if occupied <= MAX_DEPTH_SLOTS {
        return true;
      }
      LengthenedAt(base, lengths[..], index);
      DoneNext(base, lengths[..], candidates, q);
      q := q + 1;
    }
    AllAtCap(lengths[..]);
    ok := occupied <= MAX_DEPTH_SLOTS;
  }

  /** A step taken while the codes do not fit is not in vain. */
  lemma LastStep(base: seq<LenInfo>, was: seq<LenInfo>, now: seq<LenInfo>, i: nat)
    requires Lengthened(base, was) && i < |was| && was[i].len < MAX_CODE_BITS && now == was[i := LongerBy2(was[i])]
    requires Slots(base) > MAX_DEPTH_SLOTS && Slots(was) > MAX_DEPTH_SLOTS
    ensures JustEnough(base, now)
  {
    hide Slots;
    assert Shorter(now, i) == was;
  }

  lemma SlotsAtLeast(s: seq<LenInfo>)
    ensures Slots(s) >= |s|
  {}

  lemma LengthenedSelf(base: seq<LenInfo>)
    requires forall i :: 0 <= i < |base| ==> base[i].len <= MAX_CODE_BITS && base[i].len % 2 == 0
    ensures Lengthened(base, base)
  {}

  lemma LengthenedAt(base: seq<LenInfo>, now: seq<LenInfo>, i: nat)
    requires Lengthened(base, now) && i < |now|
    ensures now[i].len <= MAX_CODE_BITS
  {}
}
