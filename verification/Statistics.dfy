/**
 The statistics the evaluator reports on a list of values: classes and their sizes, entropy,
 percentiles, rates and ranking. Floating-point quantities are reals; the natural logarithm and the
 exponential are parameters.
 */
module Statistics {

  // ---------- products and quotients of reals ----------

  lemma PositiveProduct(u: real, n: real)
    requires u > 0.0 && n > 0.0
    ensures u * n > 0.0
  {
  }

  lemma Cancel(p: real, q: real, n: real)
    requires n > 0.0 && p * n <= q * n
    ensures p <= q
  {
    if p > q {
      PositiveProduct(p - q, n);
    }
  }

  lemma QuotientTimes(x: real, n: real)
    requires n > 0.0
    ensures x / n * n == x
  {
  }

  lemma QuotientIs(x: real, n: real, q: real)
    requires n > 0.0 && q * n == x
    ensures x / n == q
  {
    QuotientTimes(x, n);
    Cancel(x / n, q, n);
    Cancel(q, x / n, n);
  }

  lemma Quotients(x: real, y: real, n: real)
    requires n > 0.0 && x <= y
    ensures x / n <= y / n
  {
    QuotientTimes(x, n);
    QuotientTimes(y, n);
    Cancel(x / n, y / n, n);
  }

  lemma Distribute(p: real, q: real, n: real)
    ensures (p + q) * n == p * n + q * n
  {
  }

  lemma SumOfQuotients(x: real, y: real, n: real)
    requires n > 0.0
    ensures x / n + y / n == (x + y) / n
  {
    QuotientTimes(x, n);
    QuotientTimes(y, n);
    Distribute(x / n, y / n, n);
    QuotientIs(x + y, n, x / n + y / n);
  }

  lemma PositiveQuotient(x: real, n: real)
    requires n > 0.0 && x > 0.0
    ensures x / n > 0.0
  {
    QuotientTimes(x, n);
    if x / n <= 0.0 {
      Products(x / n, 0.0, n);
    }
  }

  lemma Products(x: real, y: real, a: real)
    requires a >= 0.0 && x <= y
    ensures x * a <= y * a
  {
    if x < y && a > 0.0 {
      PositiveProduct(y - x, a);
    }
  }

  // ---------- classes ----------

  /** How often a value occurs. */
  function Count<T(==)>(s: seq<T>, x: T): nat {
    if s == [] then 0
    else Count(s[..|s| - 1], x) + if s[|s| - 1] == x then 1 else 0
  }

  lemma {:induction false} CountPositive<T>(s: seq<T>, x: T)
    ensures Count(s, x) > 0 <==> x in s
  {
    if s != [] {
      var front := s[..|s| - 1];
      CountPositive(front, x);
      assert s == front + [s[|s| - 1]];
    }
  }

  lemma {:induction false} CountAtMost<T>(s: seq<T>, x: T)
    ensures Count(s, x) <= |s|
  {
    if s != [] {
      CountAtMost(s[..|s| - 1], x);
    }
  }

  lemma CountStep<T>(s: seq<T>, y: T, x: T)
    ensures Count(s + [y], x) == Count(s, x) + if y == x then 1 else 0
  {
    assert (s + [y])[..|s|] == s;
  }

  /** The members of the smallest class: the k of k-anonymity, zero when nothing was observed. */
  ghost predicate IsMinimumClass<T(!new)>(s: seq<T>, k: nat) {
    && (s == [] ==> k == 0)
    && (s != [] ==> exists x :: x in s && Count(s, x) == k)
    && (forall x :: x in s ==> k <= Count(s, x))
  }

  /** Classes with a single member. */
  function Singletons<T(==)>(s: seq<T>): set<T> {
    set x | x in s && Count(s, x) == 1
  }

  function Classes<T>(s: seq<T>): set<T> {
    set x | x in s
  }

  lemma ClassesStep<T>(s: seq<T>, y: T)
    ensures Classes(s + [y]) == Classes(s) + {y}
  {
  }

  // ---------- entropy ----------

  /** The natural logarithm and the exponential, and all that is ever used of them. */
  datatype Analysis = Analysis(ln: real -> real, exp: real -> real) {
    ghost predicate Lawful() {
      && (forall x, y :: 0.0 < x <= y ==> ln(x) <= ln(y))
      && (forall x :: x > 1.0 ==> ln(x) > 0.0)
      && (forall x, y :: x <= y ==> exp(x) <= exp(y))
    }
  }

  /** Sum, over the positions whose value is in `part`, of a weight of that value's class size. */
  function Weigh<T(==)>(g: int -> real, s: seq<T>, whole: seq<T>, part: set<T>): real {
    if s == [] then 0.0
    else
      var x := s[|s| - 1];
      Weigh(g, s[..|s| - 1], whole, part) + if x in part then g(Count(whole, x)) else 0.0
  }

  /** `k` times `g`, by adding up. */
  function Times(k: nat, g: real): real {
    if k == 0 then 0.0 else Times(k - 1, g) + g
  }

  lemma {:induction false} TimesIsProduct(k: nat, g: real)
    ensures Times(k, g) == k as real * g
  {
    if k > 0 {
      TimesIsProduct(k - 1, g);
      assert k as real * g == (k - 1) as real * g + g;
    }
  }

  lemma WeighStep<T>(g: int -> real, s: seq<T>, y: T, whole: seq<T>, part: set<T>)
    ensures Weigh(g, s + [y], whole, part) == Weigh(g, s, whole, part) + if y in part then g(Count(whole, y)) else 0.0
  {
    assert (s + [y])[..|s|] == s;
  }

  /** A further class contributes its size times its weight. */
  lemma {:induction false} WeighClass<T>(g: int -> real, s: seq<T>, whole: seq<T>, part: set<T>, x: T)
    requires x !in part
    ensures Weigh(g, s, whole, part + {x}) == Weigh(g, s, whole, part) + Times(Count(s, x), g(Count(whole, x)))
    decreases |s|
  {
    if s != [] {
      var front, y := s[..|s| - 1], s[|s| - 1];
      assert s == front + [y];
      WeighClass(g, front, whole, part, x);
      WeighStep(g, front, y, whole, part + {x});
      WeighStep(g, front, y, whole, part);
      CountStep(front, y, x);
    }
  }

  lemma {:induction false} WeighNothing<T>(g: int -> real, s: seq<T>, whole: seq<T>)
    ensures Weigh(g, s, whole, {}) == 0.0
  {
    if s != [] {
      WeighNothing(g, s[..|s| - 1], whole);
    }
  }

  /** A weight that grows with class sizes grows with every position's class. */
  lemma {:induction false} WeighMonotone<T(!new), U(!new)>(
      g: int -> real, s: seq<T>, t: seq<U>, whole: seq<T>, whole': seq<U>, part: set<T>, part': set<U>)
    requires |s| == |t|
    requires forall i :: 0 <= i < |s| ==> s[i] in part && t[i] in part'
    requires forall i :: 0 <= i < |s| ==> g(Count(whole, s[i])) <= g(Count(whole', t[i]))
    ensures Weigh(g, s, whole, part) <= Weigh(g, t, whole', part')
    decreases |s|
  {
    if s != [] {
      var n := |s| - 1;
      assert forall i :: 0 <= i < n ==> s[..n][i] == s[i] && t[..n][i] == t[i];
      WeighMonotone(g, s[..n], t[..n], whole, whole', part, part');
      assert s[n] in part && t[n] in part' && g(Count(whole, s[n])) <= g(Count(whole', t[n]));
    }
  }

  /** What each member of a class of `c` out of `n` contributes to the mean logarithm of shares. */
  function LogShare(a: Analysis, n: nat): int -> real {
    c => if n == 0 then 0.0 else a.ln(c as real / n as real) / n as real
  }

  /** Shannon entropy: minus the mean, over all positions, of the logarithm of the class's share. */
  function Entropy<T(==)>(a: Analysis, s: seq<T>): real {
    -Weigh(LogShare(a, |s|), s, s, Classes(s))
  }

  lemma DivideProduct(c: real, l: real, n: real)
    requires n > 0.0
    ensures c * (l / n) == c / n * l
  {
    var p, q := c / n, l / n;
    QuotientTimes(c, n);
    QuotientTimes(l, n);
    assert c * q == p * n * q;
    assert p * l == p * (q * n);
  }

  /** All members of a class together: its share times the logarithm of its share. */
  function ClassTerm(a: Analysis, c: nat, n: nat): (t: real)
    requires n > 0
    ensures t == Times(c, LogShare(a, n)(c))
  {
    var p := c as real / n as real;
    TimesIsProduct(c, a.ln(p) / n as real);
    DivideProduct(c as real, a.ln(p), n as real);
    p * a.ln(p)
  }

  /** When all classes have one size the entropy is minus the logarithm of their common share. */
  lemma EntropyOfEqualClasses<T>(a: Analysis, s: seq<T>, c: nat)
    requires s != [] && forall i :: 0 <= i < |s| ==> Count(s, s[i]) == c
    ensures Entropy(a, s) == -a.ln(c as real / |s| as real)
  {
    WeighEqual(LogShare(a, |s|), s, s, Classes(s), c);
    TimesQuotient(|s|, a.ln(c as real / |s| as real));
  }

  lemma TimesQuotient(k: nat, x: real)
    requires k > 0
    ensures Times(k, x / k as real) == x
  {
    TimesIsProduct(k, x / k as real);
    QuotientTimes(x, k as real);
  }

  lemma {:induction false} WeighEqual<T>(g: int -> real, s: seq<T>, whole: seq<T>, part: set<T>, c: nat)
    requires forall i :: 0 <= i < |s| ==> s[i] in part && Count(whole, s[i]) == c
    ensures Weigh(g, s, whole, part) == Times(|s|, g(c))
    decreases |s|
  {
    if s != [] {
      var n := |s| - 1;
      assert s[n] in part && Count(whole, s[n]) == c;
      assert forall i :: 0 <= i < n ==> s[..n][i] == s[i];
      WeighEqual(g, s[..n], whole, part, c);
    }
  }

  // ---------- order statistics and rates ----------

  predicate Ascending(s: seq<nat>) {
    forall i, j :: 0 <= i < j < |s| ==> s[i] <= s[j]
  }

  function InsertAscending(x: nat, s: seq<nat>): (r: seq<nat>)
    ensures multiset(r) == multiset(s) + multiset{x}
  {
    if s == [] || x <= s[0] then [x] + s
    else
      assert s == [s[0]] + s[1..];
      [s[0]] + InsertAscending(x, s[1..])
  }

  lemma PrependAscending(x: nat, s: seq<nat>)
    requires Ascending(s) && forall i :: 0 <= i < |s| ==> x <= s[i]
    ensures Ascending([x] + s)
  {
  }

  lemma {:induction false} InsertKeepsAscending(x: nat, s: seq<nat>)
    requires Ascending(s)
    ensures Ascending(InsertAscending(x, s))
  {
    if s != [] && x > s[0] {
      var t := InsertAscending(x, s[1..]);
      InsertKeepsAscending(x, s[1..]);
      forall i | 0 <= i < |t| ensures s[0] <= t[i] {
        assert t[i] in multiset(t);
        assert t[i] == x || t[i] in s[1..];
      }
      PrependAscending(s[0], t);
    } else {
      PrependAscending(x, s);
    }
  }

  /** The rank a fraction of `n` sorted values picks: the product rounded to the nearest, halves up. */
  function Rank(n: nat, fraction: real): (i: nat)
    requires n > 0 && 0.0 <= fraction <= 1.0
    ensures i < n
  {
    ShareWithin(fraction, (n - 1) as real);
    RoundedWithin(fraction * (n - 1) as real, n - 1);
    (fraction * (n - 1) as real + 0.5).Floor
  }

  lemma ShareWithin(x: real, a: real)
    requires 0.0 <= x <= 1.0 && 0.0 <= a
    ensures 0.0 <= x * a <= a
  {
    if a > 0.0 && x > 0.0 { PositiveProduct(x, a); }
    if a > 0.0 && x < 1.0 { PositiveProduct(1.0 - x, a); }
    Distribute(x, 1.0 - x, a);
  }

  lemma RoundedWithin(x: real, m: nat)
    requires 0.0 <= x <= m as real
    ensures 0 <= (x + 0.5).Floor <= m
  {
    FloorMonotone(x + 0.5, m as real + 0.5);
  }

  /** The rank is the index nearest to the product, the upper one at a half. */
  lemma RankIsNearest(n: nat, fraction: real)
    requires n > 0 && 0.0 <= fraction <= 1.0
    ensures Rank(n, fraction) as real - 0.5 <= fraction * (n - 1) as real < Rank(n, fraction) as real + 0.5
  {
  }

  /** The median of an odd number of values is the middle one, and the ends are the least and the greatest. */
  lemma RankExamples(k: nat)
    ensures Rank(2 * k + 1, 0.5) == k && Rank(2 * k + 2, 0.5) == k + 1
    ensures Rank(k + 1, 0.0) == 0 && Rank(k + 1, 1.0) == k
    ensures Rank(101, 0.95) == 95
  {
    assert 0.5 * (2 * k) as real == k as real;
    assert 0.5 * (2 * k + 1) as real == k as real + 0.5;
    assert 0.0 * k as real == 0.0 && 1.0 * k as real == k as real;
  }

  function Percentile(s: seq<nat>, fraction: real): nat
    requires 0.0 <= fraction <= 1.0
  {
    if s == [] then 0 else s[Rank(|s|, fraction)]
  }

  lemma RankMonotone(n: nat, x: real, y: real)
    requires n > 0 && 0.0 <= x <= y <= 1.0
    ensures Rank(n, x) <= Rank(n, y)
  {
    Products(x, y, (n - 1) as real);
    FloorMonotone(x * (n - 1) as real + 0.5, y * (n - 1) as real + 0.5);
  }

  lemma FloorMonotone(x: real, y: real)
    requires x <= y
    ensures x.Floor <= y.Floor
  {
  }

  /** A larger fraction of an ascending list picks no smaller value. */
  lemma PercentileMonotone(s: seq<nat>, x: real, y: real)
    requires Ascending(s) && 0.0 <= x <= y <= 1.0
    ensures Percentile(s, x) <= Percentile(s, y)
  {
    if s != [] {
      RankMonotone(|s|, x, y);
    }
  }

  /** A quotient, zero when there is nothing to divide by. */
  function Ratio(a: nat, b: nat): real {
    if b == 0 then 0.0 else a as real / b as real
  }

  lemma RatioMonotone(a: nat, a': nat, b: nat)
    requires a <= a'
    ensures Ratio(a, b) <= Ratio(a', b)
  {
    if b > 0 { Quotients(a as real, a' as real, b as real); }
  }

  lemma RatioIsShare(a: nat, b: nat)
    requires a <= b
    ensures 0.0 <= Ratio(a, b) <= 1.0
  {
    if b > 0 {
      Quotients(0.0, a as real, b as real);
      QuotientIs(0.0, b as real, 0.0);
      Quotients(a as real, b as real, b as real);
      QuotientIs(b as real, b as real, 1.0);
    }
  }

  lemma RatioComplement(a: nat, b: nat)
    requires a + b > 0
    ensures Ratio(a, a + b) + Ratio(b, b + a) == 1.0
  {
    var s := (a + b) as real;
    SumOfQuotients(a as real, b as real, s);
    QuotientIs(s, s, 1.0);
  }

  /** The harmonic mean of precision and recall. */
  function F1(precision: real, recall: real): real {
    if precision + recall > 0.0 then 2.0 * precision * recall / (precision + recall) else 0.0
  }

  /** F1 lies between precision and recall. */
  lemma F1Between(p: real, r: real)
    requires 0.0 <= p && 0.0 <= r
    ensures p <= r ==> p <= F1(p, r) <= r
    ensures r <= p ==> r <= F1(p, r) <= p
  {
    if p + r > 0.0 {
      if p <= r {
        BetweenOrdered(2.0 * p * r, p + r, p, r);
      } else {
        BetweenOrdered(2.0 * p * r, p + r, r, p);
      }
    }
  }

  lemma BetweenOrdered(x: real, n: real, a: real, b: real)
    requires 0.0 <= a <= b && 0.0 < n == a + b && x == 2.0 * a * b
    ensures a <= x / n <= b
  {
    assert a * n == a * a + a * b && b * n == a * b + b * b;
    assert x == a * b + a * b;
    assert a * a <= a * b by { Products(a, b, a); }
    assert a * b <= b * b by { Products(a, b, b); }
    QuotientBetween(x, n, a, b);
  }

  lemma QuotientBetween(x: real, n: real, a: real, b: real)
    requires n > 0.0 && a * n <= x <= b * n
    ensures a <= x / n <= b
  {
    QuotientTimes(x, n);
    Cancel(a, x / n, n);
    Cancel(x / n, b, n);
  }

  /** A ratio is a quotient, zero over nothing. */
  lemma RatioIs(a: nat, b: nat)
    ensures b > 0 ==> Ratio(a, b) * b as real == a as real
    ensures b == 0 ==> Ratio(a, b) == 0.0
  {
    if b > 0 { QuotientTimes(a as real, b as real); }
  }

  // ---------- ranking ----------

  /** The spacing of floating-point numbers at one: closer scores count as tied. */
  const EPSILON: real := 1.0 / 4503599627370496.0

  /** A pair of scores won, tied or lost. */
  function Win(p: real, n: real): (w: real)
    ensures 0.0 <= w <= 1.0 && (w == 1.0 <==> p > n)
  {
    if p > n then 1.0 else if n - p < EPSILON then 0.5 else 0.0
  }

  /** A pair counts one when won, half when tied within the spacing of floating-point numbers, nothing when lost. */
  lemma WinExactly(p: real, n: real)
    ensures Win(p, n) == 1.0 <==> n < p
    ensures Win(p, n) == 0.5 <==> p <= n && (n - p) * 4503599627370496.0 < 1.0
    ensures Win(p, n) == 0.0 <==> p <= n && (n - p) * 4503599627370496.0 >= 1.0
  {
    assert EPSILON * 4503599627370496.0 == 1.0;
  }

  function WinsAgainst(p: real, negatives: seq<real>): real {
    if negatives == [] then 0.0
    else WinsAgainst(p, negatives[..|negatives| - 1]) + Win(p, negatives[|negatives| - 1])
  }

  function Wins(positives: seq<real>, negatives: seq<real>): real {
    if positives == [] then 0.0
    else Wins(positives[..|positives| - 1], negatives) + WinsAgainst(positives[|positives| - 1], negatives)
  }

  predicate BeatsAll(p: real, negatives: seq<real>) {
    forall i :: 0 <= i < |negatives| ==> p > negatives[i]
  }

  lemma {:induction false} WinsAgainstBounded(p: real, negatives: seq<real>)
    ensures 0.0 <= WinsAgainst(p, negatives) <= |negatives| as real
    ensures WinsAgainst(p, negatives) == |negatives| as real <==> BeatsAll(p, negatives)
  {
    if negatives != [] {
      var front, last := negatives[..|negatives| - 1], negatives[|negatives| - 1];
      WinsAgainstBounded(p, front);
      assert |negatives| as real == |front| as real + 1.0;
      assert BeatsAll(p, negatives) <==> BeatsAll(p, front) && p > last;
    }
  }

  predicate AllBeatAll(positives: seq<real>, negatives: seq<real>) {
    forall i :: 0 <= i < |positives| ==> BeatsAll(positives[i], negatives)
  }

  lemma AllBeatStep(front: seq<real>, last: real, negatives: seq<real>)
    ensures AllBeatAll(front + [last], negatives) <==> AllBeatAll(front, negatives) && BeatsAll(last, negatives)
  {
    var all := front + [last];
    assert all[|front|] == last;
    assert forall i :: 0 <= i < |front| ==> all[i] == front[i];
  }

  lemma {:induction false} WinsBounded(positives: seq<real>, negatives: seq<real>)
    ensures 0.0 <= Wins(positives, negatives) <= Times(|positives|, |negatives| as real)
    ensures Wins(positives, negatives) == Times(|positives|, |negatives| as real) <==> AllBeatAll(positives, negatives)
  {
    if positives != [] {
      var front, last := positives[..|positives| - 1], positives[|positives| - 1];
      WinsBounded(front, negatives);
      WinsAgainstBounded(last, negatives);
      AllBeatStep(front, last, negatives);
      assert positives == front + [last];
    }
  }

  /** The area under the ranking curve: the share of pairs won, one half when there are none. */
  function Area(positives: seq<real>, negatives: seq<real>): real {
    if positives == [] || negatives == [] then 0.5
    else Wins(positives, negatives) / (|positives| * |negatives|) as real
  }

  /** The area is a share, and it is one exactly when every positive outscores every negative. */
  lemma AreaIsShare(positives: seq<real>, negatives: seq<real>)
    ensures 0.0 <= Area(positives, negatives) <= 1.0
    ensures positives != [] && negatives != [] ==>
              (Area(positives, negatives) == 1.0 <==> AllBeatAll(positives, negatives))
  {
    if positives != [] && negatives != [] {
      WinsBounded(positives, negatives);
      PairCount(|positives|, |negatives|);
      Share(Wins(positives, negatives), (|positives| * |negatives|) as real);
    }
  }

  lemma {:induction false} PairCount(a: nat, b: nat)
    ensures Times(a, b as real) == (a * b) as real
    ensures a > 0 && b > 0 ==> a * b > 0
  {
    if a > 0 {
      PairCount(a - 1, b);
      assert a * b == (a - 1) * b + b;
    }
  }

  lemma Share(w: real, t: real)
    requires 0.0 <= w <= t && t > 0.0
    ensures 0.0 <= w / t <= 1.0
    ensures w / t == 1.0 <==> w == t
  {
    Quotients(0.0, w, t);
    QuotientIs(0.0, t, 0.0);
    Quotients(w, t, t);
    QuotientIs(t, t, 1.0);
    QuotientTimes(w, t);
    UnitProduct(w / t, t);
  }

  lemma UnitProduct(q: real, t: real)
    requires t > 0.0
    ensures q == 1.0 <==> q * t == t
  {
    if q * t == t {
      Cancel(q, 1.0, t);
      Cancel(1.0, q, t);
    }
  }
}
