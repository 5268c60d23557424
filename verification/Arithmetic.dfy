/** Powers of four, division and bitwise or on natural numbers. */
module Arithmetic {
  function Pow4(n: nat): (r: nat)
    ensures r > 0
  {
    if n == 0 then 1 else 4 * Pow4(n - 1)
  }

  lemma Pow4Monotone(a: nat, b: nat)
    requires a <= b
    ensures Pow4(a) <= Pow4(b)
  {}

  lemma Pow4Add(a: nat, b: nat)
    ensures Pow4(a + b) == Pow4(a) * Pow4(b)
  {
    if a > 0 {
      Pow4Add(a - 1, b);
      MulAssociates(4, Pow4(a - 1), Pow4(b));
    }
  }

  // ---- Products ----

  lemma MultipleAtLeast(k: nat, m: nat)
    ensures k * m >= 0
  {}

  lemma MulAssociates(x: nat, y: nat, z: nat)
    ensures x * (y * z) == x * y * z
  {}

  lemma LessFactor(k: nat, a: nat, b: nat)
    requires k * a < k * b
    ensures a < b
  {
    if b <= a {
      MulMonotone(k, b, a);
    }
  }

  lemma MulMonotone(k: nat, b: int, a: int)
    requires b <= a
    ensures k * b <= k * a
  {
    MultipleAtLeast(a - b, k);
    assert k * a == k * b + (a - b) * k;
  }

  lemma AtMostFactor(k: nat, a: nat, b: nat)
    requires k > 0 && k * a <= k * b
    ensures a <= b
  {
    assert k * (b + 1) == k * b + k;
    if b + 1 <= a {
      MulMonotone(k, b + 1, a);
    }
  }

  // ---- Division ----

  lemma ModUnique(c: nat, m: nat, q: nat, r: nat)
    requires m > 0 && r < m && c == q * m + r
    ensures c % m == r && c / m == q
  {
    var q', r' := c / m, c % m;
    assert c == q' * m + r';
    if q' < q {
      MulGap(q', q, m);
    } else if q < q' {
      MulGap(q, q', m);
    }
  }

  lemma MulGap(a: nat, b: nat, m: nat)
    requires a < b
    ensures a * m + m <= b * m
  {
    MultipleAtLeast(b - a - 1, m);
    assert b * m == a * m + m + (b - a - 1) * m;
  }

  lemma DivDiv(c: nat, a: nat, b: nat)
    requires a > 0 && b > 0
    ensures a * b > 0 && c / (a * b) == c / a / b
  {
    DivDivParts(c, a, b, c / a, c % a, c / a / b, c / a % b);
  }

  lemma DivDivParts(c: nat, a: nat, b: nat, x: nat, r: nat, y: nat, s: nat)
    requires a > 0 && b > 0 && r < a && s < b && c == x * a + r && x == y * b + s
    ensures a * b > 0 && c / (a * b) == y
  {
    MulGap(0, b, a);
    MulGap(s, b, a);
    MulDistributes(y, b, s, a);
    ModUnique(c, a * b, y, s * a + r);
  }

  lemma MulDistributes(y: nat, b: nat, s: nat, a: nat)
    ensures (y * b + s) * a == y * (a * b) + s * a
  {}

  lemma DivMonotone(i: nat, j: nat, m: nat)
    requires m > 0 && i <= j
    ensures i / m <= j / m
  {
    if j / m < i / m {
      MulGap(j / m, i / m, m);
    }
  }

  // ---- Bitwise or ----

  /** Bitwise or of two numbers. */
  function BitOr(a: nat, b: nat): nat {
    if a == 0 then b
    else if b == 0 then a
    else 2 * BitOr(a / 2, b / 2) + if a % 2 == 1 || b % 2 == 1 then 1 else 0
  }

  /** Or with a number shifted past the other one is addition. */
  lemma {:induction false} OrIsSum(a: nat, x: nat, depth: nat)
    requires a < Pow4(depth)
    ensures BitOr(a, x * Pow4(depth)) == a + x * Pow4(depth)
  {
    if depth > 0 {
      var b, p := x * Pow4(depth), x * Pow4(depth - 1);
      assert b == 4 * p;
      OrIsSum(a / 4, x, depth - 1);
      OrShift(a, p);
    }
  }

  lemma OrShift(a: nat, p: nat)
    ensures BitOr(a, 4 * p) == 4 * BitOr(a / 4, p) + a % 4
  {
    OrHalf(a, 2 * p);
    OrHalf(a / 2, p);
    assert a / 2 / 2 == a / 4;
  }

  lemma OrHalf(a: nat, p: nat)
    ensures BitOr(a, 2 * p) == 2 * BitOr(a / 2, p) + a % 2
  {
    if a != 0 && p != 0 {
      assert (2 * p) / 2 == p && (2 * p) % 2 == 0;
      if a / 2 == 0 {
        assert a == 1;
      }
    }
  }

  lemma OrCommutes(a: nat, b: nat)
    ensures BitOr(a, b) == BitOr(b, a)
  {}
}
