/**
 Relational properties of the evaluator: what switching observer features off does to the metrics,
 and how many participants can share a fingerprint at all.
 */
module Ablation {
  import opened Bytes
  import opened Sorting
  import opened Statistics
  import opened Simulator
  import opened Residues

  // ---------- coarser partitions ----------

  /** Whatever `s` puts together, `t` puts together. */
  ghost predicate Coarsens<T(!new), U(!new)>(s: seq<T>, t: seq<U>) {
    |s| == |t| && forall i, j :: 0 <= i < |s| && 0 <= j < |s| && s[i] == s[j] ==> t[i] == t[j]
  }

  ghost predicate SamePartition<T(!new), U(!new)>(s: seq<T>, t: seq<U>) {
    Coarsens(s, t) && Coarsens(t, s)
  }

  lemma {:induction false} CountMonotone<T, U>(s: seq<T>, t: seq<U>, x: T, y: U)
    requires |s| == |t| && forall j :: 0 <= j < |s| && s[j] == x ==> t[j] == y
    ensures Count(s, x) <= Count(t, y)
    decreases |s|
  {
    if s != [] {
      CountMonotone(s[..|s| - 1], t[..|t| - 1], x, y);
    }
  }

  /** Coarsening never lowers the smallest class. */
  lemma CoarserMinimum<T(!new), U(!new)>(s: seq<T>, t: seq<U>, k: nat, k': nat)
    requires Coarsens(s, t) && IsMinimumClass(s, k) && IsMinimumClass(t, k')
    ensures k <= k'
  {
    if s != [] {
      var y :| y in t && Count(t, y) == k';
      var i :| 0 <= i < |t| && t[i] == y;
      assert s[i] in s;
      CountMonotone(s, t, s[i], y);
    }
  }

  lemma LastSplit<T>(s: seq<T>)
    requires s != []
    ensures Classes(s) == Classes(s[..|s| - 1]) + {s[|s| - 1]}
  {
    ClassesStep(s[..|s| - 1], s[|s| - 1]);
    assert s == s[..|s| - 1] + [s[|s| - 1]];
  }

  lemma Joined<T>(a: set<T>, x: T)
    ensures |a + {x}| == |a| + if x in a then 0 else 1
  {
    if x in a { assert a + {x} == a; }
  }

  lemma CoarserPrefix<T(!new), U(!new)>(s: seq<T>, t: seq<U>, n: nat)
    requires Coarsens(s, t) && n < |s|
    ensures Coarsens(s[..n], t[..n])
    ensures s[n] in Classes(s[..n]) ==> t[n] in Classes(t[..n])
  {
    if s[n] in s[..n] {
      var i :| 0 <= i < n && s[i] == s[n];
      assert t[..n][i] == t[n];
    }
  }

  /** Coarsening never raises the number of classes. */
  lemma {:induction false} CoarserClasses<T(!new), U(!new)>(s: seq<T>, t: seq<U>)
    requires Coarsens(s, t)
    ensures |Classes(t)| <= |Classes(s)|
    decreases |s|
  {
    if s != [] {
      CoarserPrefix(s, t, |s| - 1);
      CoarserClasses(s[..|s| - 1], t[..|s| - 1]);
      LastSplit(s);
      LastSplit(t);
      Joined(Classes(s[..|s| - 1]), s[|s| - 1]);
      Joined(Classes(t[..|s| - 1]), t[|s| - 1]);
    }
  }

  /** Values that occur once each make as many classes as there are positions. */
  lemma {:induction false} LoneClasses<T(!new)>(s: seq<T>)
    requires forall i, j :: 0 <= i < j < |s| ==> s[i] != s[j]
    ensures |Classes(s)| == |s|
    decreases |s|
  {
    if s != [] {
      LoneClasses(s[..|s| - 1]);
      LastSplit(s);
    }
  }

  /** Positions whose value occurs nowhere else. */
  function LonePositions<T(==)>(s: seq<T>): set<nat> {
    set i: nat | i < |s| && Count(s, s[i]) == 1
  }

  lemma {:induction false} TwiceCounted<T>(s: seq<T>, i: nat, j: nat)
    requires i < j < |s| && s[i] == s[j]
    ensures Count(s, s[i]) >= 2
    decreases |s|
  {
    var n := |s| - 1;
    if j < n {
      TwiceCounted(s[..n], i, j);
    } else {
      CountPositive(s[..n], s[i]);
      assert s[..n][i] == s[i];
    }
  }

  /** A set of positions holding pairwise different values has as many members as the set of those values. */
  lemma {:induction false} PositionsCount<T>(s: seq<T>, u: set<nat>, v: set<T>)
    requires forall i :: i in u ==> i < |s| && s[i] in v
    requires forall x :: x in v ==> exists i :: i in u && s[i] == x
    requires forall i, j :: i in u && j in u && s[i] == s[j] ==> i == j
    ensures |u| == |v|
    decreases |u|
  {
    if u == {} {
      assert forall x :: x !in v;
      assert v == {};
    } else {
      var i :| i in u;
      var u', v' := u - {i}, v - {s[i]};
      forall x | x in v' ensures exists j :: j in u' && s[j] == x {
        var j :| j in u && s[j] == x;
        assert j in u';
      }
      PositionsCount(s, u', v');
    }
  }

  lemma LoneValues<T>(s: seq<T>)
    ensures |LonePositions(s)| == |Singletons(s)|
  {
    forall x | x in Singletons(s) ensures exists i :: i in LonePositions(s) && s[i] == x {
      var i: nat :| i < |s| && s[i] == x;
      assert i in LonePositions(s);
    }
    forall i, j | i in LonePositions(s) && j in LonePositions(s) && s[i] == s[j] ensures i == j {
      if i < j { TwiceCounted(s, i, j); }
      if j < i { TwiceCounted(s, j, i); }
    }
    PositionsCount(s, LonePositions(s), Singletons(s));
  }

  lemma SubsetSize<T>(a: set<T>, b: set<T>)
    requires a <= b
    ensures |a| <= |b|
  {
    assert b == a + (b - a);
  }

  /** Coarsening never raises the number of unique values. */
  lemma CoarserSingletons<T(!new), U(!new)>(s: seq<T>, t: seq<U>)
    requires Coarsens(s, t)
    ensures |Singletons(t)| <= |Singletons(s)|
  {
    forall i | i in LonePositions(t) ensures i in LonePositions(s) {
      CountMonotone(s, t, s[i], t[i]);
      CountPositive(s, s[i]);
    }
    SubsetSize(LonePositions(t), LonePositions(s));
    LoneValues(s);
    LoneValues(t);
  }

  /** Coarsening never raises the entropy, whatever nondecreasing function the logarithm is. */
  lemma CoarserEntropy<T(!new), U(!new)>(a: Analysis, s: seq<T>, t: seq<U>)
    requires a.Lawful() && Coarsens(s, t)
    ensures Entropy(a, t) <= Entropy(a, s)
  {
    var g := LogShare(a, |s|);
    forall i | 0 <= i < |s|
      ensures s[i] in Classes(s) && t[i] in Classes(t) && g(Count(s, s[i])) <= g(Count(t, t[i]))
    {
      CountMonotone(s, t, s[i], t[i]);
      CountPositive(s, s[i]);
      LogShareMonotone(a, Count(s, s[i]), Count(t, t[i]), |s|);
    }
    WeighMonotone(g, s, t, s, t, Classes(s), Classes(t));
  }

  lemma LogShareMonotone(a: Analysis, c: nat, d: nat, n: nat)
    requires a.Lawful() && 0 < c <= d && 0 < n
    ensures LogShare(a, n)(c) <= LogShare(a, n)(d)
  {
    Quotients(c as real, d as real, n as real);
    PositiveQuotient(c as real, n as real);
    Quotients(a.ln(c as real / n as real), a.ln(d as real / n as real), n as real);
  }

  // ---------- switching features off ----------

  predicate Weaker(f': Features, f: Features) {
    && (f'.timing ==> f.timing) && (f'.shape ==> f.shape) && (f'.fee ==> f.fee)
    && (f'.funding ==> f.funding) && (f'.amount ==> f.amount) && (f'.history ==> f.history)
  }

  /** The fingerprint an observer with fewer features sees. */
  function Mask(f: Features, x: Fingerprint): Fingerprint {
    Fingerprint(if f.timing then x.timing else 0, if f.shape then x.shape else 0, if f.fee then x.fee else 0,
                if f.funding then x.funding else 0, if f.amount then x.amount else 0, if f.history then x.history else 0)
  }

  /** The same observation, except that its fingerprint is masked and its score no higher. */
  predicate Masked(f: Features, o: Observation, o': Observation) {
    o' == o.(fingerprint := Mask(f, o.fingerprint), score := o'.score) && o'.score <= o.score
  }

  ghost predicate MasksAll(f: Features, g: Observer, g': Observer) {
    forall p: nat, d: Draw :: Masked(f, g(p, d), g'(p, d))
  }

  lemma ScoreMonotone(x: Fingerprint, y: Fingerprint, noise: real)
    requires Signal(x) <= Signal(y)
    ensures Score(x, noise) <= Score(y, noise)
  {
    Quotients(Signal(x) as real, Signal(y) as real, 28.0);
  }

  lemma MaskLowersSignal(f: Features, x: Fingerprint)
    ensures Signal(Mask(f, x)) <= Signal(x)
  {
  }

  lemma ObserveMasked(s: Scenario, f: Features, p: nat, d: Draw)
    requires Weaker(f, s.features)
    ensures Masked(f, Observe(s, p, d), Observe(s.(features := f), p, d))
  {
    var slot := SlotOf(s.strategy, d);
    var x, y := FingerprintOf(s.features, PeriodCount(s), p, slot), FingerprintOf(f, PeriodCount(s), p, slot);
    assert y == Mask(f, x);
    MaskLowersSignal(f, x);
    ScoreMonotone(y, x, d.noise);
  }

  lemma ObserversMasked(s: Scenario, f: Features)
    requires Weaker(f, s.features)
    ensures MasksAll(f, ObserverOf(s), ObserverOf(s.(features := f)))
  {
    forall p: nat, d: Draw ensures Masked(f, ObserverOf(s)(p, d), ObserverOf(s.(features := f))(p, d)) {
      ObserveMasked(s, f, p, d);
    }
  }

  /** What an observer sees of those who execute. */
  function SeenBy(g: Observer, draws: seq<Draw>): seq<Observation> {
    Executed(TraceBy(g, draws))
  }

  function PrintsBy(g: Observer, draws: seq<Draw>): (r: seq<Fingerprint>)
    ensures |r| == |SeenBy(g, draws)|
    ensures forall i :: 0 <= i < |r| ==> r[i] == SeenBy(g, draws)[i].fingerprint
  {
    Fingerprints(SeenBy(g, draws))
  }

  function Prints(s: Scenario, draws: seq<Draw>): seq<Fingerprint> {
    PrintsBy(ObserverOf(s), draws)
  }

  lemma SeenStep(g: Observer, draws: seq<Draw>)
    requires draws != []
    ensures var n := |draws| - 1; var o := g(n, draws[n]);
            SeenBy(g, draws) == SeenBy(g, draws[..n]) + if o.executed then [o] else []
  {
    var n := |draws| - 1;
    var t := TraceBy(g, draws[..n]);
    assert (t + [g(n, draws[n])])[..n] == t;
  }

  /** One sequence of observations is another, masked. */
  predicate AllMasked(f: Features, a: seq<Observation>, b: seq<Observation>) {
    |a| == |b| && forall i :: 0 <= i < |a| ==> Masked(f, a[i], b[i])
  }

  lemma {:induction false} SeenMasked(f: Features, g: Observer, g': Observer, draws: seq<Draw>)
    requires MasksAll(f, g, g')
    ensures AllMasked(f, SeenBy(g, draws), SeenBy(g', draws))
    decreases |draws|
  {
    if draws != [] {
      var n := |draws| - 1;
      SeenMasked(f, g, g', draws[..n]);
      SeenStep(g, draws);
      SeenStep(g', draws);
      assert Masked(f, g(n, draws[n]), g'(n, draws[n]));
    }
  }

  lemma PrintsCoarsen(f: Features, g: Observer, g': Observer, draws: seq<Draw>)
    requires MasksAll(f, g, g')
    ensures Coarsens(PrintsBy(g, draws), PrintsBy(g', draws))
  {
    SeenMasked(f, g, g', draws);
    var a, b := SeenBy(g, draws), SeenBy(g', draws);
    forall i | 0 <= i < |a| ensures PrintsBy(g', draws)[i] == Mask(f, PrintsBy(g, draws)[i]) {
      assert Masked(f, a[i], b[i]);
    }
  }

  lemma {:induction false} SameDeviations(f: Features, a: seq<Observation>, b: seq<Observation>)
    requires AllMasked(f, a, b)
    ensures Deviations(a) == Deviations(b)
    decreases |a|
  {
    if a != [] {
      SameDeviations(f, a[..|a| - 1], b[..|b| - 1]);
      assert Masked(f, a[|a| - 1], b[|a| - 1]);
    }
  }

  lemma SpreadUnique(a: seq<Observation>, b: seq<Observation>, x: nat, y: nat)
    requires |a| == |b| && forall i :: 0 <= i < |a| ==> a[i].slot == b[i].slot
    requires IsSpread(a, x) && IsSpread(b, y)
    ensures x == y
  {
  }

  /** Timing does not depend on the observer's features. */
  lemma SameTiming(f: Features, a: seq<Observation>, b: seq<Observation>, m: TimingMetrics, m': TimingMetrics)
    requires AllMasked(f, a, b) && MeasuresTiming(a, m) && MeasuresTiming(b, m')
    ensures m' == m
  {
    SameDeviations(f, a, b);
    ArrangedUnique((x: nat, y: nat) => x <= y, m.deviations, m'.deviations);
    forall i | 0 <= i < |a| ensures a[i].slot == b[i].slot { assert Masked(f, a[i], b[i]); }
    SpreadUnique(a, b, m.spread, m'.spread);
  }

  /** Coarser fingerprints: larger minimum class, fewer unique ones, fewer classes, less entropy. */
  predicate Hides(m: AnonymityMetrics, m': AnonymityMetrics) {
    && m.minimumK <= m'.minimumK && m'.unique <= m.unique && m'.uniqueRate <= m.uniqueRate
    && |m'.groups| <= |m.groups|
    && m'.entropy <= m.entropy && m'.effective <= m.effective && m'.normalized <= m.normalized
  }

  lemma CoarserHides(a: Analysis, x: seq<Fingerprint>, y: seq<Fingerprint>, m: AnonymityMetrics, m': AnonymityMetrics)
    requires a.Lawful() && Coarsens(x, y) && MeasuresAnonymity(a, x, m) && MeasuresAnonymity(a, y, m')
    ensures Hides(m, m')
  {
    CoarserMinimum(x, y, m.minimumK, m'.minimumK);
    CoarserSingletons(x, y);
    RatioMonotone(m'.unique, m.unique, |x|);
    CoarserClasses(x, y);
    assert |m.groups| == |m.groups.Keys| && |m'.groups| == |m'.groups.Keys|;
    CoarserEntropy(a, x, y);
    if |x| > 1 { Quotients(m'.entropy, m.entropy, a.ln(|x| as real)); }
  }

  /** Masking turns some linked judgements into unlinked ones and none the other way. */
  lemma {:induction false} TallyMasked(f: Features, a: seq<Observation>, b: seq<Observation>, linked: bool)
    requires AllMasked(f, a, b)
    ensures Tally(b, true, linked) <= Tally(a, true, linked)
    ensures Tally(b, true, linked) + Tally(b, false, linked) == Tally(a, true, linked) + Tally(a, false, linked)
    decreases |a|
  {
    if a != [] {
      TallyMasked(f, a[..|a| - 1], b[..|b| - 1], linked);
      assert Masked(f, a[|a| - 1], b[|a| - 1]);
    }
  }

  /** Fewer linked judgements, right and wrong: lower recall and false-positive rate, more false negatives. */
  predicate Blunts(m: LinkageMetrics, m': LinkageMetrics) {
    && m'.tp <= m.tp && m'.fp <= m.fp && m'.tp + m'.fn == m.tp + m.fn && m'.fp + m'.tn == m.fp + m.tn
    && m'.recall <= m.recall && m'.falsePositive <= m.falsePositive && m.falseNegative <= m'.falseNegative
  }

  lemma MaskingBlunts(f: Features, a: seq<Observation>, b: seq<Observation>, m: LinkageMetrics, m': LinkageMetrics)
    requires AllMasked(f, a, b) && MeasuresLinkage(a, m) && MeasuresLinkage(b, m')
    ensures Blunts(m, m')
  {
    TallyMasked(f, a, b, true);
    TallyMasked(f, a, b, false);
    RatioMonotone(m'.tp, m.tp, m.tp + m.fn);
    RatioMonotone(m'.fp, m.fp, m.fp + m.tn);
    RatioMonotone(m.fn, m'.fn, m.fn + m.tp);
  }

  /** How the metrics of a weaker observer compare with those of a stronger one, on the same draws. */
  predicate Ablated(m: Metrics, m': Metrics) {
    && m'.announced == m.announced && m'.observed == m.observed && m'.completion == m.completion
    && m'.timing == m.timing && Hides(m.anonymity, m'.anonymity) && Blunts(m.linkage, m'.linkage)
  }

  /**
   Ablation. For the same draws, an observer with fewer features never sees a smaller minimum class,
   more unique fingerprints, more classes or a higher entropy, never has a higher recall or
   false-positive rate, and sees the same cohort size, completion and timing. `m` and `m'` are any two
   results of the evaluator.
   */
  lemma FewerFeatures(a: Analysis, s: Scenario, f: Features, draws: seq<Draw>, m: Metrics, m': Metrics)
    requires a.Lawful() && Weaker(f, s.features) && |draws| == s.participants
    requires Measures(a, Trace(s, draws), s.participants, m)
    requires Measures(a, Trace(s.(features := f), draws), s.participants, m')
    ensures Ablated(m, m')
  {
    ObserversMasked(s, f);
    MaskedMetrics(a, f, ObserverOf(s), ObserverOf(s.(features := f)), draws, s.participants, m, m');
  }

  lemma MaskedMetrics(a: Analysis, f: Features, g: Observer, g': Observer, draws: seq<Draw>, n: nat, m: Metrics, m': Metrics)
    requires a.Lawful() && MasksAll(f, g, g')
    requires Measures(a, TraceBy(g, draws), n, m) && Measures(a, TraceBy(g', draws), n, m')
    ensures Ablated(m, m')
  {
    var x, y := SeenBy(g, draws), SeenBy(g', draws);
    SeenMasked(f, g, g', draws);
    SameTiming(f, x, y, m.timing, m'.timing);
    PrintsCoarsen(f, g, g', draws);
    CoarserHides(a, PrintsBy(g, draws), PrintsBy(g', draws), m.anonymity, m'.anonymity);
    MaskingBlunts(f, x, y, m.linkage, m'.linkage);
  }

  /** A same-seed ablation: evaluate twice with the same draws, the second time with fewer features. */
  method CompareAblation(a: Analysis, out: Printing, s: Scenario, f: Features, draws: seq<Draw>)
    returns (full: Result<Report, EvaluationError>, ablated: Result<Report, EvaluationError>)
    requires a.Lawful() && Weaker(f, s.features) && |draws| == s.participants
    ensures full.Ok? <==> ValidScenario(s) && out.serialize(Trace(s, draws)).Some?
    ensures ablated.Ok? <==> ValidScenario(s) && out.serialize(Trace(s.(features := f), draws)).Some?
    ensures full.Ok? && ablated.Ok? ==> Ablated(full.value.metrics, ablated.value.metrics)
  {
    full := Evaluate(a, out, s, draws);
    ablated := Evaluate(a, out, s.(features := f), draws);
    if full.Ok? && ablated.Ok? {
      FewerFeatures(a, s, f, draws, full.value.metrics, ablated.value.metrics);
    }
  }

  // ---------- how many can share a fingerprint ----------

  /** Observations carry their participant's number and the fingerprint of that number and their slot. */
  ghost predicate Reports(s: Scenario, g: Observer) {
    forall p: nat, d: Draw :: ReportsOne(s, p, g(p, d))
  }

  predicate ReportsOne(s: Scenario, p: nat, o: Observation) {
    o.participant == p && o.fingerprint == FingerprintOf(s.features, PeriodCount(s), p, o.slot)
  }

  lemma ObserverReports(s: Scenario)
    ensures Reports(s, ObserverOf(s))
  {
    forall p: nat, d: Draw ensures ReportsOne(s, p, ObserverOf(s)(p, d)) {
      assert ObserverOf(s)(p, d) == Observe(s, p, d);
    }
  }

  /** Every seen observation is some participant's. */
  lemma {:induction false} SeenIs(s: Scenario, g: Observer, draws: seq<Draw>, i: nat)
    requires Reports(s, g) && i < |SeenBy(g, draws)|
    ensures var o := SeenBy(g, draws)[i]; o.participant < |draws| && ReportsOne(s, o.participant, o)
    decreases |draws|
  {
    assert draws == [] ==> SeenBy(g, draws) == [];
    var n := |draws| - 1;
    SeenStep(g, draws);
    if i < |SeenBy(g, draws[..n])| {
      SeenIs(s, g, draws[..n], i);
    } else {
      assert ReportsOne(s, n, g(n, draws[n]));
    }
  }

  predicate Modular(f: Features) {
    f.shape && f.fee && f.funding && f.amount
  }

  /** With the modular features on, a fingerprint pins its participant down modulo 420. */
  ghost predicate PinsResidue(s: Scenario, x: Fingerprint, r: nat) {
    forall p: nat, slot: nat ::
      FingerprintOf(s.features, PeriodCount(s), p, slot) == x ==> p % 420 == r
  }

  lemma PrintsPin(s: Scenario, p: nat, slot: nat)
    requires Modular(s.features)
    ensures PinsResidue(s, FingerprintOf(s.features, PeriodCount(s), p, slot), p % 420)
  {
    var x := FingerprintOf(s.features, PeriodCount(s), p, slot);
    forall q: nat, slot': nat | FingerprintOf(s.features, PeriodCount(s), q, slot') == x
      ensures q % 420 == p % 420
    {
      FourResidues(q, p);
    }
  }

  lemma PrintsStep(g: Observer, draws: seq<Draw>, x: Fingerprint)
    requires draws != []
    ensures var n := |draws| - 1; var o := g(n, draws[n]);
            Count(PrintsBy(g, draws), x)
            == Count(PrintsBy(g, draws[..n]), x) + if o.executed && o.fingerprint == x then 1 else 0
  {
    var n := |draws| - 1;
    var o, front := g(n, draws[n]), PrintsBy(g, draws[..n]);
    SeenStep(g, draws);
    if o.executed {
      assert PrintsBy(g, draws) == front + [o.fingerprint];
      CountStep(front, o.fingerprint, x);
    } else {
      assert PrintsBy(g, draws) == front;
    }
  }

  lemma {:induction false} ClassByResidue(s: Scenario, g: Observer, draws: seq<Draw>, x: Fingerprint, r: nat)
    requires Reports(s, g) && PinsResidue(s, x, r)
    ensures Count(PrintsBy(g, draws), x) <= Residents(|draws|, r)
    decreases |draws|
  {
    if draws != [] {
      var n := |draws| - 1;
      ClassByResidue(s, g, draws[..n], x, r);
      PrintsStep(g, draws, x);
      assert ReportsOne(s, n, g(n, draws[n]));
    }
  }

  /**
   Chinese-remainder bound: with shape, fee, funding and amount observed, no fingerprint is shared by
   more than one in 420 participants, rounded up, whatever the draws.
   */
  lemma ClassBound(s: Scenario, draws: seq<Draw>, x: Fingerprint)
    requires Modular(s.features)
    ensures Count(Prints(s, draws), x) <= (|draws| + 419) / 420
  {
    ObserverReports(s);
    ClassBoundBy(s, ObserverOf(s), draws, x);
  }

  lemma ClassBoundBy(s: Scenario, g: Observer, draws: seq<Draw>, x: Fingerprint)
    requires Modular(s.features) && Reports(s, g)
    ensures Count(PrintsBy(g, draws), x) <= (|draws| + 419) / 420
  {
    var prints := PrintsBy(g, draws);
    CountPositive(prints, x);
    if x in prints {
      var i :| 0 <= i < |prints| && prints[i] == x;
      SeenIs(s, g, draws, i);
      var o := SeenBy(g, draws)[i];
      PrintsPin(s, o.participant, o.slot);
      ClassByResidue(s, g, draws, x, o.participant % 420);
      ResidentsAre(|draws|, o.participant % 420);
    }
  }

  /** Fingerprints of which none occurs twice. */
  lemma NoneTwice<T(!new)>(x: seq<T>)
    requires forall v :: v in x ==> Count(x, v) <= 1
    ensures Singletons(x) == Classes(x) && |Classes(x)| == |x|
  {
    forall v | v in x ensures Count(x, v) == 1 {
      CountPositive(x, v);
    }
    forall i, j | 0 <= i < j < |x| ensures x[i] != x[j] {
      assert x[i] in x;
      if x[i] == x[j] { TwiceCounted(x, i, j); }
    }
    LoneClasses(x);
  }

  /** So at 420 participants or fewer every observed fingerprint is unique. */
  lemma AllUnique(a: Analysis, s: Scenario, draws: seq<Draw>, m: Metrics)
    requires a.Lawful() && Modular(s.features) && |draws| == s.participants <= 420
    requires Measures(a, Trace(s, draws), s.participants, m)
    ensures m.anonymity.unique == m.observed && |m.anonymity.groups| == m.observed
    ensures m.anonymity.minimumK == if m.observed == 0 then 0 else 1
  {
    var x := Prints(s, draws);
    forall v | v in x ensures Count(x, v) <= 1 {
      ClassBound(s, draws, v);
    }
    UniqueMetrics(a, x, m.anonymity);
  }

  lemma UniqueMetrics(a: Analysis, x: seq<Fingerprint>, m: AnonymityMetrics)
    requires a.Lawful() && MeasuresAnonymity(a, x, m) && forall v :: v in x ==> Count(x, v) <= 1
    ensures m.unique == |x| && |m.groups| == |x| && m.minimumK == if x == [] then 0 else 1
  {
    NoneTwice(x);
    assert |m.groups| == |m.groups.Keys|;
    forall v | v in x ensures Count(x, v) == 1 {
      CountPositive(x, v);
    }
  }

  // ---------- which features are redundant ----------

  /** Switching features off leaves the partition as it was, whatever the draws. */
  ghost predicate KeepsPartition(s: Scenario, f: Features) {
    forall draws :: |draws| == s.participants ==>
      SamePartition(Prints(s, draws), Prints(s.(features := f), draws))
  }

  /** Nobody drops out and everybody acts at once. */
  function Calm(n: nat): (d: seq<Draw>)
    ensures |d| == n && forall i :: 0 <= i < n ==> d[i] == Draw(false, 0, 0.0)
  {
    if n == 0 then [] else Calm(n - 1) + [Draw(false, 0, 0.0)]
  }

  /** Undisturbed participants are all seen, at the target slot. */
  ghost predicate SeesCalm(g: Observer) {
    forall p: nat :: g(p, Draw(false, 0, 0.0)).executed && g(p, Draw(false, 0, 0.0)).slot == TARGET_SLOT
  }

  lemma {:induction false} CalmSeen(g: Observer, n: nat)
    requires SeesCalm(g)
    ensures |SeenBy(g, Calm(n))| == n
    ensures forall i :: 0 <= i < n ==> SeenBy(g, Calm(n))[i] == g(i, Draw(false, 0, 0.0))
  {
    if n > 0 {
      CalmSeen(g, n - 1);
      SeenStep(g, Calm(n));
      assert Calm(n)[..n - 1] == Calm(n - 1);
      assert SeenBy(g, Calm(n)) == SeenBy(g, Calm(n - 1)) + [g(n - 1, Draw(false, 0, 0.0))];
    }
  }

  lemma CalmPrints(s: Scenario, n: nat, p: nat)
    requires p < n
    ensures |Prints(s, Calm(n))| == n
    ensures Prints(s, Calm(n))[p] == FingerprintOf(s.features, PeriodCount(s), p, TARGET_SLOT)
  {
    var g := ObserverOf(s);
    forall q: nat ensures g(q, Draw(false, 0, 0.0)).executed && g(q, Draw(false, 0, 0.0)).slot == TARGET_SLOT {
      assert g(q, Draw(false, 0, 0.0)) == Observe(s, q, Draw(false, 0, 0.0));
    }
    CalmSeen(g, n);
    ObserverReports(s);
    assert ReportsOne(s, p, g(p, Draw(false, 0, 0.0)));
  }

  /** Two participants the full observer tells apart and the lesser one does not. */
  lemma Confused(s: Scenario, f: Features, p: nat, q: nat)
    requires p < s.participants && q < s.participants
    requires FingerprintOf(s.features, PeriodCount(s), p, TARGET_SLOT) != FingerprintOf(s.features, PeriodCount(s), q, TARGET_SLOT)
    requires FingerprintOf(f, PeriodCount(s), p, TARGET_SLOT) == FingerprintOf(f, PeriodCount(s), q, TARGET_SLOT)
    ensures !KeepsPartition(s, f)
  {
    var n, s' := s.participants, s.(features := f);
    CalmPrints(s, n, p);
    CalmPrints(s, n, q);
    CalmPrints(s', n, p);
    CalmPrints(s', n, q);
    var x, y := Prints(s, Calm(n)), Prints(s', Calm(n));
    ToldApart(x, y, p, q);
  }

  lemma ToldApart<T(!new), U(!new)>(x: seq<T>, y: seq<U>, p: nat, q: nat)
    requires p < |x| == |y| && q < |x| && x[p] != x[q] && y[p] == y[q]
    ensures !SamePartition(x, y)
  {
  }

  /** No two participants that look alike to the lesser observer look different to the full one. */
  ghost predicate Agree(s: Scenario, f: Features, p: nat, q: nat, a: nat, b: nat) {
    FingerprintOf(f, PeriodCount(s), p, a) == FingerprintOf(f, PeriodCount(s), q, b)
    ==> FingerprintOf(s.features, PeriodCount(s), p, a) == FingerprintOf(s.features, PeriodCount(s), q, b)
  }

  /** If the lesser observer confuses nobody the full one tells apart, the partition is kept. */
  lemma NeverConfused(s: Scenario, f: Features)
    requires Weaker(f, s.features)
    requires forall p: nat, q: nat, a: nat, b: nat :: p < s.participants && q < s.participants ==> Agree(s, f, p, q, a, b)
    ensures KeepsPartition(s, f)
  {
    ObserversMasked(s, f);
    ObserverReports(s);
    forall draws | |draws| == s.participants
      ensures SamePartition(Prints(s, draws), Prints(s.(features := f), draws))
    {
      SamePrints(s, f, ObserverOf(s), ObserverOf(s.(features := f)), draws);
    }
  }

  lemma SamePrints(s: Scenario, f: Features, g: Observer, g': Observer, draws: seq<Draw>)
    requires MasksAll(f, g, g') && Reports(s, g) && Weaker(f, s.features) && |draws| == s.participants
    requires forall p: nat, q: nat, a: nat, b: nat :: p < s.participants && q < s.participants ==> Agree(s, f, p, q, a, b)
    ensures SamePartition(PrintsBy(g, draws), PrintsBy(g', draws))
  {
    PrintsCoarsen(f, g, g', draws);
    var x, y := PrintsBy(g, draws), PrintsBy(g', draws);
    SeenMasked(f, g, g', draws);
    forall i, j | 0 <= i < |y| && 0 <= j < |y| && y[i] == y[j] ensures x[i] == x[j] {
      SeenIs(s, g, draws, i);
      SeenIs(s, g, draws, j);
      SeenPair(s, f, SeenBy(g, draws), SeenBy(g', draws), i, j);
    }
  }

  lemma SeenPair(s: Scenario, f: Features, a: seq<Observation>, b: seq<Observation>, i: nat, j: nat)
    requires AllMasked(f, a, b) && Weaker(f, s.features) && i < |a| && j < |a| && b[i].fingerprint == b[j].fingerprint
    requires ReportsOne(s, a[i].participant, a[i]) && ReportsOne(s, a[j].participant, a[j])
    requires Agree(s, f, a[i].participant, a[j].participant, a[i].slot, a[j].slot)
    ensures a[i].fingerprint == a[j].fingerprint
  {
    assert Masked(f, a[i], b[i]) && Masked(f, a[j], b[j]);
  }

  lemma HistoryAgrees(s: Scenario, p: nat, q: nat, a: nat, b: nat)
    requires Modular(s.features) && p < s.participants && q < s.participants
    requires s.participants <= 420 || 420 % PeriodCount(s) == 0
    ensures Agree(s, s.features.(history := false), p, q, a, b)
  {
    var f, n := s.features.(history := false), PeriodCount(s);
    if FingerprintOf(f, n, p, a) == FingerprintOf(f, n, q, b) {
      FourResidues(p, q);
      HistoryResidue(p, q, n, s.participants);
    }
  }

  lemma HistoryResidue(p: nat, q: nat, n: nat, count: nat)
    requires n >= 1 && p % 420 == q % 420 && p < count && q < count && (count <= 420 || 420 % n == 0)
    ensures p % n == q % n
  {
    if count <= 420 {
      assert p == q;
    } else {
      DivisorAgreement(p, q, 420, n);
    }
  }

  /**
   Exactly when history is redundant beside the modular features: with at most 420 participants, or
   with a period count that divides 420.
   */
  lemma HistoryRedundant(s: Scenario)
    requires Modular(s.features) && s.features.history
    ensures KeepsPartition(s, s.features.(history := false))
       <==> s.participants <= 420 || 420 % PeriodCount(s) == 0
  {
    var f := s.features.(history := false);
    if s.participants <= 420 || 420 % PeriodCount(s) == 0 {
      forall p: nat, q: nat, a: nat, b: nat | p < s.participants && q < s.participants ensures Agree(s, f, p, q, a, b) {
        HistoryAgrees(s, p, q, a, b);
      }
      NeverConfused(s, f);
    } else {
      HistoryMatters(s);
    }
  }

  lemma HistoryMatters(s: Scenario)
    requires Modular(s.features) && s.features.history && s.participants > 420 && 420 % PeriodCount(s) != 0
    ensures !KeepsPartition(s, s.features.(history := false))
  {
    Confused(s, s.features.(history := false), 0, 420);
  }

  lemma ShapeAgrees(s: Scenario, p: nat, q: nat, a: nat, b: nat)
    requires Modular(s.features) && s.features.history && p < s.participants && q < s.participants
    requires PeriodCount(s) % 5 == 0 || s.participants <= CommonPeriod(PeriodCount(s))
    ensures Agree(s, s.features.(shape := false), p, q, a, b)
  {
    var f, n := s.features.(shape := false), PeriodCount(s);
    if FingerprintOf(f, n, p, a) == FingerprintOf(f, n, q, b) {
      if n % 5 == 0 {
        DivisorAgreement(p, q, n, 5);
      } else if p <= q {
        CloseAgreement(p, q, n);
      } else {
        CloseAgreement(q, p, n);
      }
    }
  }

  /**
   Exactly when shape is redundant beside fee, funding, amount and history: when five divides the
   period count, or when there are no more participants than the least common multiple of 84 and the
   period count.
   */
  lemma ShapeRedundant(s: Scenario)
    requires Modular(s.features) && s.features.history
    ensures KeepsPartition(s, s.features.(shape := false))
       <==> PeriodCount(s) % 5 == 0 || s.participants <= CommonPeriod(PeriodCount(s))
  {
    var f, l := s.features.(shape := false), CommonPeriod(PeriodCount(s));
    if PeriodCount(s) % 5 == 0 || s.participants <= l {
      forall p: nat, q: nat, a: nat, b: nat | p < s.participants && q < s.participants ensures Agree(s, f, p, q, a, b) {
        ShapeAgrees(s, p, q, a, b);
      }
      NeverConfused(s, f);
    } else {
      ShapeMatters(s);
    }
  }

  lemma HistoryKept(s: Scenario)
    requires Modular(s.features) && s.features.history && 420 % PeriodCount(s) == 0
    ensures KeepsPartition(s, s.features.(history := false))
  {
    HistoryRedundant(s);
  }

  lemma ShapeKept(s: Scenario)
    requires Modular(s.features) && s.features.history && PeriodCount(s) % 5 == 0
    ensures KeepsPartition(s, s.features.(shape := false))
  {
    ShapeRedundant(s);
  }

  /** The repository's own ablation runs ten periods, where neither history nor shape tells anyone apart. */
  lemma TenPeriods(s: Scenario)
    requires Modular(s.features) && s.features.history && s.periods == 10
    ensures KeepsPartition(s, s.features.(history := false))
    ensures KeepsPartition(s, s.features.(shape := false))
  {
    assert PeriodCount(s) == 10;
    HistoryKept(s);
    ShapeKept(s);
  }

  lemma ShapeMatters(s: Scenario)
    requires Modular(s.features) && s.features.history
    requires PeriodCount(s) % 5 != 0 && s.participants > CommonPeriod(PeriodCount(s))
    ensures !KeepsPartition(s, s.features.(shape := false))
  {
    var l := CommonPeriod(PeriodCount(s));
    CommonPeriodByFive(PeriodCount(s));
    MultiplesOf84(l);
    Confused(s, s.features.(shape := false), 0, l);
  }

  lemma MultiplesOf84(l: nat)
    requires l % 84 == 0
    ensures l % 3 == 0 && l % 7 == 0 && l % 4 == 0
  {
    var g := l / 84;
    assert l == 3 * (28 * g);
    assert l == 7 * (12 * g);
    assert l == 4 * (21 * g);
  }

  /** Numbers closer than the common period that agree modulo 3, 7, 4 and the period are equal. */
  lemma CloseAgreement(p: nat, q: nat, n: nat)
    requires n >= 1 && p <= q && q - p < CommonPeriod(n)
    requires p % 3 == q % 3 && p % 7 == q % 7 && p % 4 == q % 4 && p % n == q % n
    ensures p == q
  {
    var g := GapBy84(q, p);
    DifferenceDivides(p, q, n);
    TooClose(q - p, n, g);
  }

  lemma TooClose(d: nat, n: nat, g: int)
    requires n >= 1 && d < CommonPeriod(n) && d == 84 * g && d % n == 0
    ensures d == 0
  {
    assert d % 84 == 0;
  }

  lemma DifferenceDivides(p: nat, q: nat, n: nat)
    requires n >= 1 && p <= q && p % n == q % n
    ensures (q - p) % n == 0
  {
    var a, b := p / n, q / n;
    assert p == n * a + p % n && q == n * b + q % n;
    assert n * (b + 1) == n * b + n;
    if b < a { MulLe(n, b + 1, a); }
    assert a <= b;
    assert q - p == n * (b - a) + 0;
    AddMultiple(0, n, b - a);
  }
}
