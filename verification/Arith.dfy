/** The few facts about powers, division and remainder that the codecs need. */
module Arith {

  type byte = x: int | 0 <= x < 256

  function Pow(b: nat, n: nat): nat {
    if n == 0 then 1 else b * Pow(b, n - 1)
  }

  lemma {:induction false} PowPositive(b: nat, n: nat)
    requires b > 0
    ensures Pow(b, n) > 0
  {
    if n > 0 { PowPositive(b, n - 1); }
  }

  lemma {:induction false} PowAdd(b: nat, m: nat, n: nat)
    ensures Pow(b, m + n) == Pow(b, m) * Pow(b, n)
  {
    if m > 0 {
      PowAdd(b, m - 1, n);
      assert b * (Pow(b, m - 1) * Pow(b, n)) == (b * Pow(b, m - 1)) * Pow(b, n);
    }
  }

  lemma {:induction false} PowMono(b: nat, m: nat, n: nat)
    requires b > 0 && m <= n
    ensures Pow(b, m) <= Pow(b, n)
  {
    if m < n {
      PowMono(b, m, n - 1);
      AtLeastOnce(b, Pow(b, n - 1));
    }
  }

  lemma AtLeastOnce(b: nat, x: nat)
    requires b > 0
    ensures b * x >= x
  {}

  lemma {:induction false} PowPow(b: nat, m: nat, n: nat)
    ensures Pow(Pow(b, m), n) == Pow(b, m * n)
  {
    if n > 0 {
      PowPow(b, m, n - 1);
      assert m * n == m + m * (n - 1);
      PowAdd(b, m, m * (n - 1));
    }
  }

  lemma DivMod(q: nat, d: nat, r: nat)
    requires r < d
    ensures (q * d + r) / d == q && (q * d + r) % d == r
  {
    var x := q * d + r;
    var y, z := x / d, x % d;
    DivModBack(x, d);
    MinusTimes(d, y, q);
    SmallMultiple(d, y - q);
  }

  lemma MinusTimes(d: nat, y: int, q: int)
    ensures d * (y - q) == y * d - q * d
  {}

  lemma SmallMultiple(d: int, e: int)
    requires d > 0 && -d < d * e < d
    ensures e == 0
  {}

  lemma MulLess(q: nat, a: nat, b: nat)
    requires q * b < a * b
    ensures q < a
  {}

  lemma DivModBack(x: nat, d: nat)
    requires d > 0
    ensures x == (x / d) * d + x % d && x % d < d
  {}

  /** Splitting by d and then by e is splitting by d * e. */
  lemma DivDiv(x: nat, d: nat, e: nat)
    requires d > 0 && e > 0
    ensures d * e > 0 && x / d / e == x / (d * e) && x % (d * e) == (x / d) % e * d + x % d
  {
    var a, r := x / d, x % d;
    var b, s := a / e, a % e;
    DivModBack(x, d);
    DivModBack(a, e);
    Regroup(b, s, r, d, e);
    DivMod(b, d * e, s * d + r);
  }

  lemma Regroup(b: nat, s: nat, r: nat, d: nat, e: nat)
    requires s < e && r < d
    ensures (b * e + s) * d + r == b * (d * e) + (s * d + r)
    ensures s * d + r < d * e
  {
    assert (b * e + s) * d == b * e * d + s * d;
    assert b * e * d == b * (d * e) by { Reorder(b, e, d); }
    assert (s + 1) * d <= e * d by { MulUp(s + 1, e, d); }
  }

  lemma Reorder(b: nat, e: nat, d: nat)
    ensures b * e * d == b * (d * e)
  {
    assert e * d == d * e;
  }

  lemma MulUp(a: nat, b: nat, c: nat)
    requires a <= b
    ensures a * c <= b * c
  {}

  lemma Distribute(q: nat, m: nat, r: nat, k: nat)
    ensures (q * m + r) * k == (q * k) * m + r * k
  {
    assert (q * m) * k == (q * k) * m;
  }

  /** Taking a remainder early changes nothing. */
  lemma ModEarly(x: nat, k: nat, c: nat, m: nat)
    requires m > 0
    ensures (x % m * k + c) % m == (x * k + c) % m
  {
    DivModBack(x, m);
    Distribute(x / m, m, x % m, k);
    ModShift(x / m * k, m, x % m * k + c);
  }

  lemma ModShift(q: nat, m: nat, y: nat)
    requires m > 0
    ensures (q * m + y) % m == y % m
  {
    DivModBack(y, m);
    assert q * m + y == (q + y / m) * m + y % m;
    DivMod(q + y / m, m, y % m);
  }

  lemma ModMod(x: nat, b: nat, c: nat)
    requires b > 0 && c > 0
    ensures b * c > 0 && (x % (b * c)) % b == x % b
  {
    DivDiv(x, b, c);
    DivMod((x / b) % c, b, x % b);
  }

  lemma DivBelow(x: nat, a: nat, b: nat)
    requires b > 0 && x < a * b
    ensures x / b < a
  {
    DivModBack(x, b);
    MulLess(x / b, a, b);
  }

  lemma DivShrinks(n: nat, b: nat)
    requires n > 0 && b >= 2
    ensures n / b < n && n % b < b
  {
    assert n < n * b;
    DivBelow(n, n, b);
  }

  lemma SmallMod(x: nat, m: nat)
    requires x < m
    ensures x % m == x
  {}
}
