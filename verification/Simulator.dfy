/**
 The synthetic evaluator: the observation loop and the metrics. Random draws are an input, scores and
 rates are reals, and a fingerprint is the tuple of its features.
 */
module Simulator {
  import opened Bytes
  import opened Statistics

  datatype Strategy = FixedSlot | NarrowWindow | RandomizedWithinWindow | LatencyAware

  datatype Features = Features(
    timing: bool, shape: bool, fee: bool, funding: bool, amount: bool, history: bool)

  datatype Scenario = Scenario(
    version: U16, participants: U32, strategy: Strategy, window: U64, dropout: real, periods: U16, features: Features)

  /** One participant's random draws: whether it drops out, how far into the window it acts, score noise. */
  datatype Draw = Draw(dropped: bool, offset: nat, noise: real)

  datatype Fingerprint = Fingerprint(timing: nat, shape: nat, fee: nat, funding: nat, amount: nat, history: nat)

  datatype Observation = Observation(
    participant: nat, executed: bool, slot: nat, fingerprint: Fingerprint, score: real, trueLink: bool)

  datatype EvaluationError = InvalidScenario | Serialization

  const TARGET_SLOT: nat := 10_000

  predicate ValidScenario(s: Scenario) {
    s.version == 1 && 2 <= s.participants <= 100_000 && s.window != 0 && 0.0 <= s.dropout < 1.0
  }

  function PeriodCount(s: Scenario): (p: nat)
    ensures p >= 1
  {
    if s.periods == 0 then 1 else s.periods
  }

  /** A fixed slot ignores the draw; the other strategies add it. */
  function SlotOf(strategy: Strategy, d: Draw): nat {
    if strategy.FixedSlot? then TARGET_SLOT else TARGET_SLOT + d.offset
  }

  function FingerprintOf(f: Features, periods: nat, participant: nat, slot: nat): Fingerprint
    requires periods >= 1
  {
    Fingerprint(
      if f.timing then slot % 4 else 0,
      if f.shape then participant % 5 else 0,
      if f.fee then participant % 3 else 0,
      if f.funding then participant % 7 else 0,
      if f.amount then participant % 4 else 0,
      if f.history then participant % periods else 0)
  }

  function Signal(x: Fingerprint): nat {
    x.timing + x.shape + x.fee + x.funding + x.amount + x.history
  }

  function Clamp(x: real): real {
    if x < 0.0 then 0.0 else if x > 1.0 then 1.0 else x
  }

  /** How linkable the observer thinks a fingerprint is. */
  function Score(x: Fingerprint, noise: real): real {
    Clamp(Signal(x) as real / 28.0 + noise)
  }

  function Observe(s: Scenario, participant: nat, d: Draw): Observation {
    var slot := SlotOf(s.strategy, d);
    var x := FingerprintOf(s.features, PeriodCount(s), participant, slot);
    Observation(participant, !d.dropped, slot, x, Score(x, d.noise), participant % 2 == 0)
  }

  /** What is observed of a participant, given its draws. */
  type Observer = (nat, Draw) -> Observation

  function ObserverOf(s: Scenario): Observer {
    (participant: nat, d: Draw) => Observe(s, participant, d)
  }

  /** Observations of the first participants, one per draw. */
  function TraceBy(observe: Observer, draws: seq<Draw>): (t: seq<Observation>)
    ensures |t| == |draws|
  {
    if draws == [] then []
    else
      var n := |draws| - 1;
      TraceBy(observe, draws[..n]) + [observe(n, draws[n])]
  }

  function Trace(s: Scenario, draws: seq<Draw>): (t: seq<Observation>)
    ensures |t| == |draws|
  {
    TraceBy(ObserverOf(s), draws)
  }

  function Executed(obs: seq<Observation>): seq<Observation> {
    if obs == [] then []
    else
      var last := obs[|obs| - 1];
      Executed(obs[..|obs| - 1]) + if last.executed then [last] else []
  }

  function Fingerprints(obs: seq<Observation>): (r: seq<Fingerprint>)
    ensures |r| == |obs|
    ensures forall i :: 0 <= i < |r| ==> r[i] == obs[i].fingerprint
  {
    seq(|obs|, i requires 0 <= i < |obs| => obs[i].fingerprint)
  }

  function Deviation(slot: nat): nat {
    if slot < TARGET_SLOT then TARGET_SLOT - slot else slot - TARGET_SLOT
  }

  /** Latest minus earliest slot, zero when nothing was observed. */
  ghost predicate IsSpread(obs: seq<Observation>, spread: nat) {
    if obs == [] then spread == 0
    else exists i, j :: 0 <= i < |obs| && 0 <= j < |obs| && spread == obs[i].slot - obs[j].slot
                        && forall k :: 0 <= k < |obs| ==> obs[j].slot <= obs[k].slot <= obs[i].slot
  }

  function Deviations(obs: seq<Observation>): seq<nat> {
    if obs == [] then [] else Deviations(obs[..|obs| - 1]) + [Deviation(obs[|obs| - 1].slot)]
  }

  const THRESHOLD: real := 0.5

  /** Observations judged linked or not, that are linked or not. */
  function Tally(obs: seq<Observation>, judged: bool, linked: bool): nat {
    if obs == [] then 0
    else
      var o := obs[|obs| - 1];
      Tally(obs[..|obs| - 1], judged, linked)
      + if (o.score >= THRESHOLD) == judged && o.trueLink == linked then 1 else 0
  }

  /** Scores of the observations that are linked, or of those that are not. */
  function Scores(obs: seq<Observation>, linked: bool): seq<real> {
    if obs == [] then []
    else
      var o := obs[|obs| - 1];
      Scores(obs[..|obs| - 1], linked) + if o.trueLink == linked then [o.score] else []
  }

  datatype TimingMetrics = TimingMetrics(spread: nat, deviations: seq<nat>, median: nat, p95: nat)

  datatype AnonymityMetrics = AnonymityMetrics(
    groups: map<Fingerprint, nat>, unique: nat, uniqueRate: real, minimumK: nat,
    entropy: real, effective: real, normalized: real)

  datatype LinkageMetrics = LinkageMetrics(
    tp: nat, fp: nat, tn: nat, fn: nat, precision: real, recall: real, f1: real,
    area: real, falsePositive: real, falseNegative: real)

  datatype Metrics = Metrics(
    announced: nat, observed: nat, completion: real,
    timing: TimingMetrics, anonymity: AnonymityMetrics, linkage: LinkageMetrics)

  ghost predicate MeasuresTiming(e: seq<Observation>, m: TimingMetrics) {
    && IsSpread(e, m.spread)
    && Ascending(m.deviations) && multiset(m.deviations) == multiset(Deviations(e))
    && m.median == Percentile(m.deviations, 0.5) && m.p95 == Percentile(m.deviations, 0.95)
  }

  ghost predicate MeasuresAnonymity(a: Analysis, fps: seq<Fingerprint>, m: AnonymityMetrics)
    requires a.Lawful()
  {
    && m.groups.Keys == Classes(fps)
    && (forall x :: x in m.groups ==> m.groups[x] == Count(fps, x))
    && m.unique == |Singletons(fps)| && m.uniqueRate == Ratio(m.unique, |fps|)
    && IsMinimumClass(fps, m.minimumK)
    && m.entropy == Entropy(a, fps) && m.effective == a.exp(m.entropy)
    && m.normalized == if |fps| > 1 then m.entropy / a.ln(|fps| as real) else 0.0
  }

  ghost predicate MeasuresLinkage(e: seq<Observation>, m: LinkageMetrics) {
    && m.tp == Tally(e, true, true) && m.fp == Tally(e, true, false)
    && m.tn == Tally(e, false, false) && m.fn == Tally(e, false, true)
    && m.precision == Ratio(m.tp, m.tp + m.fp) && m.recall == Ratio(m.tp, m.tp + m.fn)
    && m.f1 == F1(m.precision, m.recall)
    && m.area == Area(Scores(e, true), Scores(e, false))
    && m.falsePositive == Ratio(m.fp, m.fp + m.tn) && m.falseNegative == Ratio(m.fn, m.fn + m.tp)
  }

  /** What the metrics of a list of observations are. */
  ghost predicate Measures(a: Analysis, obs: seq<Observation>, announced: nat, m: Metrics)
    requires a.Lawful()
  {
    var e := Executed(obs);
    && m.announced == announced && m.observed == |e| && m.completion == Ratio(|e|, announced)
    && MeasuresTiming(e, m.timing)
    && MeasuresAnonymity(a, Fingerprints(e), m.anonymity)
    && MeasuresLinkage(e, m.linkage)
  }

  /** Judged linked or not, observations stay as many as are linked; and every one is in one cell. */
  lemma {:induction false} TallyRows(obs: seq<Observation>, linked: bool)
    ensures Tally(obs, true, linked) + Tally(obs, false, linked) == |Scores(obs, linked)|
    ensures |Scores(obs, true)| + |Scores(obs, false)| == |obs|
    decreases |obs|
  {
    if obs != [] {
      TallyRows(obs[..|obs| - 1], linked);
    }
  }

  /** The four cells partition what was observed, and the rates are shares. */
  lemma LinkageConsistent(e: seq<Observation>, m: LinkageMetrics)
    requires MeasuresLinkage(e, m)
    ensures m.tp + m.fp + m.tn + m.fn == |e|
    ensures 0.0 <= m.precision <= 1.0 && 0.0 <= m.recall <= 1.0
    ensures 0.0 <= m.falsePositive <= 1.0 && 0.0 <= m.area <= 1.0
    ensures m.tp + m.fn > 0 ==> m.recall + m.falseNegative == 1.0
  {
    TallyRows(e, true);
    TallyRows(e, false);
    RatioIsShare(m.tp, m.tp + m.fp);
    RatioIsShare(m.tp, m.tp + m.fn);
    RatioIsShare(m.fp, m.fp + m.tn);
    if m.tp + m.fn > 0 { RatioComplement(m.tp, m.fn); }
    AreaIsShare(Scores(e, true), Scores(e, false));
  }

  /** The median deviation is at most the 95th percentile. */
  lemma TimingConsistent(e: seq<Observation>, m: TimingMetrics)
    requires MeasuresTiming(e, m)
    ensures m.median <= m.p95
  {
    PercentileMonotone(m.deviations, 0.5, 0.95);
  }

  // ---------- the loops ----------

  method CollectExecuted(obs: seq<Observation>) returns (e: seq<Observation>)
    ensures e == Executed(obs)
  {
    e := [];
    for i := 0 to |obs|
      invariant e == Executed(obs[..i])
    {
      if obs[i].executed {
        e := e + [obs[i]];
      }
      assert obs[..i + 1][..i] == obs[..i];
    }
    assert obs[..|obs|] == obs;
  }

  method GroupByFingerprint(fps: seq<Fingerprint>) returns (groups: map<Fingerprint, nat>)
    ensures groups.Keys == Classes(fps)
    ensures forall x :: x in groups ==> groups[x] == Count(fps, x)
  {
    groups := map[];
    for i := 0 to |fps|
      invariant groups.Keys == Classes(fps[..i])
      invariant forall x :: x in groups ==> groups[x] == Count(fps[..i], x)
    {
      var y := fps[i];
      CountPositive(fps[..i], y);
      ClassesStep(fps[..i], y);
      forall x ensures Count(fps[..i] + [y], x) == Count(fps[..i], x) + if y == x then 1 else 0 {
        CountStep(fps[..i], y, x);
      }
      assert fps[..i + 1] == fps[..i] + [y];
      groups := groups[y := (if y in groups then groups[y] else 0) + 1];
    }
    assert fps[..|fps|] == fps;
  }

  method CountSingletons(groups: map<Fingerprint, nat>, ghost fps: seq<Fingerprint>) returns (n: nat)
    requires groups.Keys == Classes(fps) && forall x :: x in groups ==> groups[x] == Count(fps, x)
    ensures n == |Singletons(fps)|
  {
    var rest := groups.Keys;
    ghost var seen: set<Fingerprint> := {};
    n := 0;
    while rest != {}
      invariant rest <= groups.Keys && seen == (set x | x in groups.Keys - rest && groups[x] == 1)
      invariant n == |seen|
      decreases |rest|
    {
      var x :| x in rest;
      rest := rest - {x};
      if groups[x] == 1 {
        n := n + 1;
        seen := seen + {x};
      }
    }
    assert seen == Singletons(fps);
  }

  method SmallestGroup(groups: map<Fingerprint, nat>, ghost fps: seq<Fingerprint>) returns (k: nat)
    requires groups.Keys == Classes(fps) && forall x :: x in groups ==> groups[x] == Count(fps, x)
    ensures IsMinimumClass(fps, k)
  {
    assert fps != [] ==> fps[0] in Classes(fps);
    if groups.Keys == {} {
      return 0;
    }
    var x :| x in groups.Keys;
    k := groups[x];
    var rest := groups.Keys - {x};
    while rest != {}
      invariant rest <= groups.Keys
      invariant exists y :: y in fps && Count(fps, y) == k
      invariant forall y :: y in groups.Keys - rest ==> k <= groups[y]
      decreases |rest|
    {
      var y :| y in rest;
      rest := rest - {y};
      if groups[y] < k {
        k := groups[y];
        assert y in fps && Count(fps, y) == k;
      }
    }
    forall y | y in fps ensures k <= Count(fps, y) { assert y in Classes(fps); }
  }

  method MeasureSpread(obs: seq<Observation>) returns (spread: nat)
    ensures IsSpread(obs, spread)
  {
    if |obs| == 0 {
      return 0;
    }
    var lo, hi := 0, 0;
    for i := 1 to |obs|
      invariant 0 <= lo < |obs| && 0 <= hi < |obs|
      invariant forall k :: 0 <= k < i ==> obs[lo].slot <= obs[k].slot <= obs[hi].slot
    {
      if obs[i].slot < obs[lo].slot {
        lo := i;
      }
      if obs[i].slot > obs[hi].slot {
        hi := i;
      }
    }
    return obs[hi].slot - obs[lo].slot;
  }

  method SortedDeviations(obs: seq<Observation>) returns (r: seq<nat>)
    ensures Ascending(r) && multiset(r) == multiset(Deviations(obs))
  {
    r := [];
    for i := 0 to |obs|
      invariant Ascending(r) && multiset(r) == multiset(Deviations(obs[..i]))
    {
      InsertKeepsAscending(Deviation(obs[i].slot), r);
      r := InsertAscending(Deviation(obs[i].slot), r);
      assert obs[..i + 1][..i] == obs[..i];
    }
    assert obs[..|obs|] == obs;
  }

  method MeasureTiming(e: seq<Observation>) returns (m: TimingMetrics)
    ensures MeasuresTiming(e, m)
  {
    var deviations := SortedDeviations(e);
    var spread := MeasureSpread(e);
    return TimingMetrics(spread, deviations, Percentile(deviations, 0.5), Percentile(deviations, 0.95));
  }

  /** The entropy loop over the groups, in any order. */
  method MeasureEntropy(a: Analysis, groups: map<Fingerprint, nat>, ghost fps: seq<Fingerprint>, n: nat)
    returns (entropy: real)
    requires n == |fps| && groups.Keys == Classes(fps) && forall x :: x in groups ==> groups[x] == Count(fps, x)
    ensures entropy == Entropy(a, fps)
  {
    entropy := 0.0;
    ghost var g := LogShare(a, n);
    var rest := groups.Keys;
    WeighNothing(g, fps, fps);
    assert groups.Keys - rest == {};
    while rest != {}
      invariant rest <= groups.Keys
      invariant entropy == -Weigh(g, fps, fps, groups.Keys - rest)
      decreases |rest|
    {
      var x :| x in rest;
      WeighClass(g, fps, fps, groups.Keys - rest, x);
      assert groups.Keys - (rest - {x}) == (groups.Keys - rest) + {x};
      CountAtMost(fps, x);
      CountPositive(fps, x);
      entropy := entropy - ClassTerm(a, groups[x], n);
      rest := rest - {x};
    }
    assert groups.Keys - rest == Classes(fps);
  }

  method MeasureAnonymity(a: Analysis, fps: seq<Fingerprint>) returns (m: AnonymityMetrics)
    requires a.Lawful()
    ensures MeasuresAnonymity(a, fps, m)
  {
    var n := |fps|;
    var groups := GroupByFingerprint(fps);
    var unique := CountSingletons(groups, fps);
    var minimum := SmallestGroup(groups, fps);
    var entropy := MeasureEntropy(a, groups, fps, n);
    return AnonymityMetrics(groups, unique, Ratio(unique, n), minimum, entropy, a.exp(entropy),
                            if n > 1 then entropy / a.ln(n as real) else 0.0);
  }

  method CountConfusion(obs: seq<Observation>) returns (tp: nat, fp: nat, tn: nat, fn: nat)
    ensures tp == Tally(obs, true, true) && fp == Tally(obs, true, false)
    ensures tn == Tally(obs, false, false) && fn == Tally(obs, false, true)
  {
    tp, fp, tn, fn := 0, 0, 0, 0;
    for i := 0 to |obs|
      invariant tp == Tally(obs[..i], true, true) && fp == Tally(obs[..i], true, false)
      invariant tn == Tally(obs[..i], false, false) && fn == Tally(obs[..i], false, true)
    {
      assert obs[..i + 1][..i] == obs[..i];
      match (obs[i].score >= THRESHOLD, obs[i].trueLink)
      case (true, true) => tp := tp + 1;
      case (true, false) => fp := fp + 1;
      case (false, false) => tn := tn + 1;
      case (false, true) => fn := fn + 1;
    }
    assert obs[..|obs|] == obs;
  }

  method CollectScores(obs: seq<Observation>, linked: bool) returns (scores: seq<real>)
    ensures scores == Scores(obs, linked)
  {
    scores := [];
    for i := 0 to |obs|
      invariant scores == Scores(obs[..i], linked)
    {
      assert obs[..i + 1][..i] == obs[..i];
      if obs[i].trueLink == linked {
        scores := scores + [obs[i].score];
      }
    }
    assert obs[..|obs|] == obs;
  }

  method CountWins(p: real, negatives: seq<real>) returns (wins: real)
    ensures wins == WinsAgainst(p, negatives)
  {
    wins := 0.0;
    for j := 0 to |negatives|
      invariant wins == WinsAgainst(p, negatives[..j])
    {
      assert negatives[..j + 1][..j] == negatives[..j];
      wins := wins + Win(p, negatives[j]);
    }
    assert negatives[..|negatives|] == negatives;
  }

  /** Every linked observation's score against every unlinked one's. */
  method MeasureArea(obs: seq<Observation>) returns (area: real)
    ensures area == Area(Scores(obs, true), Scores(obs, false))
  {
    var positives := CollectScores(obs, true);
    var negatives := CollectScores(obs, false);
    if |positives| == 0 || |negatives| == 0 {
      return 0.5;
    }
    var wins := 0.0;
    for i := 0 to |positives|
      invariant wins == Wins(positives[..i], negatives)
    {
      assert positives[..i + 1][..i] == positives[..i];
      var w := CountWins(positives[i], negatives);
      wins := wins + w;
    }
    assert positives[..|positives|] == positives;
    PairCount(|positives|, |negatives|);
    return wins / (|positives| * |negatives|) as real;
  }

  method MeasureLinkage(e: seq<Observation>) returns (m: LinkageMetrics)
    ensures MeasuresLinkage(e, m)
  {
    var tp, fp, tn, fn := CountConfusion(e);
    var precision, recall := Ratio(tp, tp + fp), Ratio(tp, tp + fn);
    var area := MeasureArea(e);
    return LinkageMetrics(tp, fp, tn, fn, precision, recall, F1(precision, recall), area,
                          Ratio(fp, fp + tn), Ratio(fn, fn + tp));
  }

  method Measure(a: Analysis, obs: seq<Observation>, announced: nat) returns (m: Metrics)
    requires a.Lawful()
    ensures Measures(a, obs, announced, m)
  {
    var executed := CollectExecuted(obs);
    var timing := MeasureTiming(executed);
    var anonymity := MeasureAnonymity(a, Fingerprints(executed));
    var linkage := MeasureLinkage(executed);
    return Metrics(announced, |executed|, Ratio(|executed|, announced), timing, anonymity, linkage);
  }

  method ObserveAll(observe: Observer, draws: seq<Draw>) returns (observations: seq<Observation>)
    ensures observations == TraceBy(observe, draws)
  {
    observations := [];
    for participant := 0 to |draws|
      invariant observations == TraceBy(observe, draws[..participant])
    {
      observations := observations + [observe(participant, draws[participant])];
      assert draws[..participant + 1][..participant] == draws[..participant];
    }
    assert draws[..|draws|] == draws;
  }

  /** ASCII bytes of "evaluation-trace". */
  const TRACE_DOMAIN: seq<Byte> :=
    [101, 118, 97, 108, 117, 97, 116, 105, 111, 110, 45, 116, 114, 97, 99, 101]

  lemma TraceDomainString()
    ensures TRACE_DOMAIN == Ascii("evaluation-trace")
  {
  }

  /** Hashing and serialisation, which may fail. */
  datatype Printing = Printing(h: Hasher, serialize: seq<Observation> -> Option<seq<Byte>>)

  /** The report row, without the fixed list of limitations. */
  datatype Report = Report(scenario: Scenario, metrics: Metrics, traceHash: Digest)

  /** The hash a report carries stands for one serialised trace, unless two byte strings collide. */
  lemma TraceHashBinds(h: Hasher, x: seq<Byte>, y: seq<Byte>)
    requires h(HashInput(TRACE_DOMAIN, x)) == h(HashInput(TRACE_DOMAIN, y))
    ensures x == y || Collision(h, HashInput(TRACE_DOMAIN, x), HashInput(TRACE_DOMAIN, y))
  {
    if HashInput(TRACE_DOMAIN, x) == HashInput(TRACE_DOMAIN, y) { HashInputInjective(TRACE_DOMAIN, x, y); }
  }

  /** Validate, observe every participant, measure, then hash the serialised trace. */
  method Evaluate(a: Analysis, out: Printing, s: Scenario, draws: seq<Draw>) returns (r: Result<Report, EvaluationError>)
    requires a.Lawful() && |draws| == s.participants
    ensures r == Err(InvalidScenario) <==> !ValidScenario(s)
    ensures r == Err(Serialization) <==> ValidScenario(s) && out.serialize(Trace(s, draws)).None?
    ensures r.Ok? <==> ValidScenario(s) && out.serialize(Trace(s, draws)).Some?
    ensures r.Ok? ==>
              && r.value.scenario == s && Measures(a, Trace(s, draws), s.participants, r.value.metrics)
              && r.value.traceHash == out.h(HashInput(TRACE_DOMAIN, out.serialize(Trace(s, draws)).value))
  {
    if !ValidScenario(s) {
      return Err(InvalidScenario);
    }
    var observations := ObserveAll(ObserverOf(s), draws);
    var metrics := Measure(a, observations, s.participants);
    var bytes := out.serialize(observations);
    if bytes.None? {
      return Err(Serialization);
    }
    return Ok(Report(s, metrics, out.h(HashInput(TRACE_DOMAIN, bytes.value))));
  }
}
