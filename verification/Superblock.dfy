/**
 A superblock packs, for each symbol, its 44-bit rank and the counters of seven
 blocks, 12 bits each, into one 128-bit word. Words are numbers; the packed
 fields are the base-4096 digits of the word.
 */
module Superblock {
  import opened Arithmetic

  const FIELD: nat := 4096
  const BLOCKS_IN_SUPERBLOCK: nat := 8

  function Pow4096(k: nat): (r: nat)
    ensures r > 0
  {
    if k == 0 then 1 else FIELD * Pow4096(k - 1)
  }

  /** `x << 12 * k` */
  function FieldShift(x: nat, k: nat): nat {
    x * Pow4096(k)
  }

  /** The word with superblock counter `sb` and the given block counters, first block lowest. */
  ghost function Pack(sb: nat, fields: seq<nat>): nat {
    if fields == [] then sb else fields[0] + FIELD * Pack(sb, fields[1..])
  }

  ghost predicate SmallFields(fields: seq<nat>) {
    forall k :: 0 <= k < |fields| ==> fields[k] < FIELD
  }

  lemma {:induction false} PackField(sb: nat, fields: seq<nat>, k: nat)
    requires SmallFields(fields) && k < |fields|
    ensures (Pack(sb, fields) / Pow4096(k)) % FIELD == fields[k]
  {
    var rest := Pack(sb, fields[1..]);
    ModUnique(Pack(sb, fields), FIELD, rest, fields[0]);
    if k > 0 {
      PackField(sb, fields[1..], k - 1);
      DivDiv(Pack(sb, fields), FIELD, Pow4096(k - 1));
    }
  }

  lemma {:induction false} PackTop(sb: nat, fields: seq<nat>)
    requires SmallFields(fields)
    ensures Pack(sb, fields) / Pow4096(|fields|) == sb
  {
    if fields != [] {
      var rest := Pack(sb, fields[1..]);
      ModUnique(Pack(sb, fields), FIELD, rest, fields[0]);
      PackTop(sb, fields[1..]);
      DivDiv(Pack(sb, fields), FIELD, Pow4096(|fields| - 1));
    }
  }

  lemma {:induction false} PackZeros(sb: nat, n: nat)
    ensures Pack(sb, seq(n, _ => 0)) == FieldShift(sb, n)
  {
    if n > 0 {
      PackZeros(sb, n - 1);
      assert seq(n, _ => 0)[1..] == seq(n - 1, _ => 0);
      FieldTimes(sb, Pow4096(n - 1));
    }
  }

  /** Every number is the packing of its own fields. */
  lemma {:induction false} Unpack(w: nat, n: nat) returns (fields: seq<nat>)
    ensures |fields| == n && SmallFields(fields) && w == Pack(w / Pow4096(n), fields)
  {
    if n == 0 {
      fields := [];
    } else {
      var rest := Unpack(w / FIELD, n - 1);
      fields := [w % FIELD] + rest;
      DivDiv(w, FIELD, Pow4096(n - 1));
      assert fields[1..] == rest;
    }
  }

  // ---- Or into an empty field ----

  lemma {:induction false} OrSplit(a: nat, r: nat, b: nat, n: nat)
    requires r < Pow2(n)
    ensures BitOr(Pow2(n) * a + r, Pow2(n) * b) == Pow2(n) * BitOr(a, b) + r
  {
    hide BitOr;
    if n == 0 {
      OneTimes(a);
      OneTimes(b);
      OneTimes(BitOr(a, b));
    } else {
      var p := Pow2(n - 1);
      OrSplit(a, r / 2, b, n - 1);
      OrHalves(p * a + r / 2, r % 2, p * b);
      Doubled(p, a);
      Doubled(p, b);
      Doubled(p, BitOr(a, b));
    }
  }

  lemma OneTimes(a: nat)
    ensures Pow2(0) * a == a
  {}

  lemma Doubled(p: nat, a: nat)
    ensures 2 * p * a == 2 * (p * a)
  {}

  lemma OrHalves(u: nat, c: nat, v: nat)
    requires c < 2
    ensures BitOr(2 * u + c, 2 * v) == 2 * BitOr(u, v) + c
  {
    OrHalf(2 * u + c, v);
  }

  ghost function Pow2(n: nat): (r: nat)
    ensures r > 0
  {
    if n == 0 then 1 else 2 * Pow2(n - 1)
  }

  lemma FieldIsPow2()
    ensures Pow2(12) == FIELD
  {
    assert Pow2(4) == 16;
    assert Pow2(8) == 256;
  }

  lemma OrLow(a: nat, x: nat)
    requires x < FIELD
    ensures BitOr(FIELD * a, x) == FIELD * a + x
  {
    FieldIsPow2();
    OrCommutes(FIELD * a, x);
    OrSplit(0, x, a, 12);
  }

  /** Or-ing a counter into a field that is still zero sets that field and nothing else. */
  lemma {:induction false} OrField(sb: nat, fields: seq<nat>, k: nat, x: nat)
    requires SmallFields(fields) && k < |fields| && fields[k] == 0 && x < FIELD
    ensures BitOr(Pack(sb, fields), FieldShift(x, k)) == Pack(sb, fields[k := x])
  {
    hide BitOr;
    var rest := fields[1..];
    if k == 0 {
      OrLow(Pack(sb, rest), x);
      assert fields[0 := x][1..] == rest;
    } else {
      OrField(sb, rest, k - 1, x);
      OrAbove(Pack(sb, rest), fields[0], FieldShift(x, k - 1));
      assert fields[k := x][1..] == rest[k - 1 := x];
      FieldTimes(x, Pow4096(k - 1));
    }
  }

  lemma FieldTimes(x: nat, p: nat)
    ensures x * (FIELD * p) == FIELD * (x * p)
  {}

  lemma OrAbove(a: nat, r: nat, y: nat)
    requires r < FIELD
    ensures BitOr(r + FIELD * a, FIELD * y) == r + FIELD * BitOr(a, y)
  {
    FieldIsPow2();
    OrSplit(a, r, y, 12);
  }

  // ---- The superblock ----

  datatype SuperblockPlain = SuperblockPlain(counters: seq<nat>) {
    ghost predicate Valid() {
      |counters| == 4
    }

    /** Rank up to the superblock. */
    function SuperblockCounter(symbol: nat): nat
      requires Valid() && symbol < 4
    {
      counters[symbol] / Pow4096(7)
    }

    /** Occurrences in the superblock before block `blockId`. */
    function BlockCounter(symbol: nat, blockId: nat): nat
      requires Valid() && symbol < 4 && blockId < BLOCKS_IN_SUPERBLOCK
    {
      if blockId == 0 then 0 else (counters[symbol] / Pow4096(blockId - 1)) % FIELD
    }

    /** Rank up to block `blockId`, without a branch on the first block. */
    function GetRank(symbol: nat, blockId: nat): (r: nat)
      requires Valid() && symbol < 4 && blockId < BLOCKS_IN_SUPERBLOCK
      ensures r == SuperblockCounter(symbol) + BlockCounter(symbol, blockId)
    {
      var data := counters[symbol];
      var notFirst := if blockId > 0 then 1 else 0;
      var b := ((data / Pow4096(blockId - notFirst)) % FIELD) * notFirst;
      data / Pow4096(7) + b
    }

    /** Or-s the counters of a block into their fields; the first block has no field. */
    function SetBlockCounters(blockId: nat, values: seq<nat>): (r: SuperblockPlain)
      requires Valid() && blockId < BLOCKS_IN_SUPERBLOCK && |values| == 4
      requires forall symbol :: 0 <= symbol < 4 ==> values[symbol] < FIELD
      ensures r.Valid()
    {
      if blockId == 0 then this
      else SuperblockPlain(seq(4, symbol requires 0 <= symbol < 4 =>
        BitOr(counters[symbol], FieldShift(values[symbol], blockId - 1))))
    }

    /**
     The last block whose counter is below `target`, with that counter. The search
     stops at the first counter that reaches the target.
     */
    method BlockPredecessor(symbol: nat, target: nat) returns (blockId: nat, rank: nat)
      requires Valid() && symbol < 4
      ensures blockId < BLOCKS_IN_SUPERBLOCK && rank == BlockCounter(symbol, blockId)
      ensures forall b :: 1 <= b <= blockId ==> BlockCounter(symbol, b) < target
      ensures blockId + 1 < BLOCKS_IN_SUPERBLOCK ==> BlockCounter(symbol, blockId + 1) >= target
    {
      var cnt := counters[symbol];
      var prevCnt := 0;
      var b := 1;
      while b < BLOCKS_IN_SUPERBLOCK
        invariant 1 <= b <= BLOCKS_IN_SUPERBLOCK
        invariant cnt == counters[symbol] / Pow4096(b - 1)
        invariant prevCnt == BlockCounter(symbol, b - 1)
        invariant forall k :: 1 <= k < b ==> BlockCounter(symbol, k) < target
      {
        var currCnt := cnt % FIELD;
        if currCnt >= target {
          return b - 1, prevCnt;
        }
        NextField(counters[symbol], b - 1);
        cnt := cnt / FIELD;
        prevCnt := currCnt;
        b := b + 1;
      }
      return BLOCKS_IN_SUPERBLOCK - 1, prevCnt;
    }
  }

  lemma NextField(w: nat, k: nat)
    ensures w / Pow4096(k) / FIELD == w / Pow4096(k + 1)
  {
    DivDiv(w, Pow4096(k), FIELD);
    assert Pow4096(k) * FIELD == Pow4096(k + 1);
  }

  /** A superblock with only its own counters. */
  function NewSuperblock(sbc: seq<nat>): (r: SuperblockPlain)
    requires |sbc| == 4
    ensures r.Valid()
  {
    SuperblockPlain([FieldShift(sbc[0], 7), FieldShift(sbc[1], 7), FieldShift(sbc[2], 7), FieldShift(sbc[3], 7)])
  }

  /** A 44-bit superblock counter keeps the whole word within 128 bits. */
  lemma {:induction false} PackWidth(sb: nat, fields: seq<nat>, bound: nat)
    requires SmallFields(fields) && sb < bound
    ensures Pack(sb, fields) < bound * Pow4096(|fields|)
  {
    if fields != [] {
      PackWidth(sb, fields[1..], bound);
      var p := Pow4096(|fields| - 1);
      assert bound * (FIELD * p) == FIELD * (bound * p);
    }
  }
}
