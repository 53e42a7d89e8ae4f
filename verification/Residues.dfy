/** The arithmetic of participant numbers behind the modular features. */
module Residues {

  /** Agreement modulo a number is agreement modulo each of its divisors. */
  lemma DivisorAgreement(p: nat, q: nat, m: nat, d: nat)
    requires m > 0 && d > 0 && m % d == 0 && p % m == q % m
    ensures p % d == q % d
  {
    RemainderByDivisor(p, m, d, p / m, m / d);
    RemainderByDivisor(q, m, d, q / m, m / d);
  }

  lemma RemainderByDivisor(p: nat, m: nat, d: nat, a: nat, c: nat)
    requires m > 0 && d > 0 && p == m * a + p % m && m == d * c
    ensures p % d == (p % m) % d
  {
    Associate(d, c, a);
    AddMultiple(p % m, d, c * a);
  }

  lemma Associate(x: int, y: int, z: int)
    ensures (x * y) * z == x * (y * z)
  {
  }

  lemma {:induction false} AddMultiple(r: nat, d: nat, k: nat)
    requires d > 0
    ensures (d * k + r) % d == r % d
    decreases k
  {
    if k > 0 {
      AddMultiple(r, d, k - 1);
      assert d * k == d * (k - 1) + d;
      StepBack(d * (k - 1) + r, d);
    } else {
      assert d * k == 0;
    }
  }

  lemma StepBack(x: nat, d: nat)
    requires d > 0
    ensures (x + d) % d == x % d
  {
    var q, r := x / d, x % d;
    assert x + d == d * (q + 1) + r;
    UniqueRemainder(x + d, d, q + 1, r);
  }

  lemma UniqueRemainder(x: nat, d: nat, q: nat, r: nat)
    requires r < d && x == d * q + r
    ensures x % d == r
  {
    var q', r' := x / d, x % d;
    assert d * q + r == d * q' + r';
    assert d * (q + 1) == d * q + d && d * (q' + 1) == d * q' + d;
    if q < q' { MulLe(d, q + 1, q'); }
    if q' < q { MulLe(d, q' + 1, q); }
  }

  lemma MulLe(d: nat, a: nat, b: nat)
    requires a <= b
    ensures d * a <= d * b
  {
  }

  /** Chinese remainder: the four residues determine the number modulo 420. */
  lemma FourResidues(p: nat, q: nat)
    requires p % 5 == q % 5 && p % 3 == q % 3 && p % 7 == q % 7 && p % 4 == q % 4
    ensures p % 420 == q % 420
  {
    var g, u := GapBy84(p, q), p / 5 - q / 5;
    assert p - q == 5 * u;
    assert p - q == 420 * (17 * g - u);
    Aligned420(p, q, 17 * g - u);
  }

  /** How many times 84 goes into the difference of two numbers that agree modulo 3, 7 and 4. */
  function GapBy84(p: nat, q: nat): (g: int)
    requires p % 3 == q % 3 && p % 7 == q % 7 && p % 4 == q % 4
    ensures p - q == 84 * g
  {
    var v, w, t := p / 3 - q / 3, p / 7 - q / 7, p / 4 - q / 4;
    assert p - q == 3 * v && p - q == 7 * w && p - q == 4 * t;
    assert p - q == 12 * (v - t);
    3 * w - 5 * (v - t)
  }

  lemma Aligned420(p: nat, q: nat, z: int)
    requires p - q == 420 * z
    ensures p % 420 == q % 420
  {
  }

  /** Of the numbers below `n`, how many leave remainder `r` modulo 420. */
  function Residents(n: nat, r: nat): nat {
    if n == 0 then 0 else Residents(n - 1, r) + if (n - 1) % 420 == r then 1 else 0
  }

  lemma ResidentStep(n: nat, r: nat)
    requires n > 0 && r < 420
    ensures (n + 419 - r) / 420 == (n + 418 - r) / 420 + if (n - 1) % 420 == r then 1 else 0
  {
    var q, m := (n - 1) / 420, (n - 1) % 420;
    assert n + 419 - r == 420 * (q + 1) + (m - r);
  }

  /** At most one in 420, rounded up. */
  lemma {:induction false} ResidentsAre(n: nat, r: nat)
    requires r < 420
    ensures Residents(n, r) == (n + 419 - r) / 420
    ensures Residents(n, r) <= (n + 419) / 420
  {
    if n > 0 {
      ResidentsAre(n - 1, r);
      ResidentStep(n, r);
    }
  }

  // ---------- the least common multiple of 84 and a period count ----------

  /** The least `m` from `from` on with `84 m` a multiple of `p`. */
  function LeastFactor(p: nat, from: nat): (m: nat)
    requires 1 <= from <= p && (84 * p) % p == 0
    ensures from <= m <= p && (84 * m) % p == 0
    ensures forall a :: from <= a < m ==> (84 * a) % p != 0
    decreases p - from
  {
    if (84 * from) % p == 0 then from else LeastFactor(p, from + 1)
  }

  lemma MultipleOfItself(p: nat, k: nat)
    requires p >= 1
    ensures (k * p) % p == 0
  {
    AddMultiple(0, p, k);
    assert k * p == p * k + 0;
  }

  /** The least common multiple of 84 and `p`. */
  function CommonPeriod(p: nat): (l: nat)
    requires p >= 1
    ensures l >= 84 && l % 84 == 0 && l % p == 0
    ensures forall d :: 0 < d < l && d % 84 == 0 ==> d % p != 0
  {
    MultipleOfItself(p, 84);
    var m := LeastFactor(p, 1);
    assert forall d :: 0 < d < 84 * m && d % 84 == 0 ==> d % p != 0 by {
      forall d | 0 < d < 84 * m && d % 84 == 0 ensures d % p != 0 {
        var a := d / 84;
        assert d == 84 * a && 1 <= a < m;
        assert (84 * a) % p != 0;
      }
    }
    84 * m
  }

  /** A product is a multiple of five only if a factor is. */
  lemma FiveIsPrime(p: nat, k: nat)
    requires p % 5 != 0 && (p * k) % 5 == 0
    ensures k % 5 == 0
  {
    var a, b, c, d := p / 5, p % 5, k / 5, k % 5;
    Expand(a, b, c, d);
    WithoutFives(a * (5 * c + d) + b * c, b * d);
    SmallProduct(b, d);
  }

  lemma WithoutFives(e: int, x: int)
    ensures (5 * e + x) % 5 == x % 5
  {
  }

  lemma SmallProduct(b: nat, d: nat)
    requires 0 < b < 5 && d < 5 && (b * d) % 5 == 0
    ensures d == 0
  {
    if b == 1 {
      assert b * d == d;
    } else if b == 2 {
      assert b * d == 2 * d;
    } else if b == 3 {
      assert b * d == 3 * d;
    } else {
      assert b * d == 4 * d;
    }
  }

  lemma Expand(a: int, b: int, c: int, d: int)
    ensures (5 * a + b) * (5 * c + d) == 5 * (a * (5 * c + d) + b * c) + b * d
  {
  }

  /** A number coprime to five divides `5 y` only if it divides `y`. */
  lemma CancelFive(p: nat, y: nat)
    requires p % 5 != 0 && (5 * y) % p == 0
    ensures y % p == 0
  {
    var k := (5 * y) / p;
    assert p * k == 5 * y;
    FiveIsPrime(p, k);
    var j := k / 5;
    Associate(p, 5, j);
    Associate(5, p, j);
    assert k == 5 * j;
    assert y == p * j;
    AddMultiple(0, p, j);
  }

  /** The common period is a multiple of five exactly when the period count is. */
  lemma CommonPeriodByFive(p: nat)
    requires p >= 1
    ensures CommonPeriod(p) % 5 == 0 <==> p % 5 == 0
  {
    var l := CommonPeriod(p);
    if p % 5 == 0 {
      DivisorAgreement(l, 0, p, 5);
    }
    if l % 5 == 0 && p % 5 != 0 {
      var y, g := l / 5, l / 84;
      assert y == 84 * (17 * g - y);
      CancelFive(p, y);
    }
  }
}
