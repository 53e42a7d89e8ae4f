/**
 What the evaluator's numbers mean: how far a strategy can spread executions, who is judged linked, and
 which scenarios are evaluated at all.
 */
module Evaluation {
  import opened Statistics
  import opened Simulator
  import opened Ablation

  /** How far into the window a strategy can put a participant. */
  function Reach(strategy: Strategy, window: nat): nat {
    match strategy
    case FixedSlot => 0
    case NarrowWindow => if window < 3 then window else 3
    case RandomizedWithinWindow => window
    case LatencyAware => if window < 2 then window else 2
  }

  /** The draws a scenario can make: offsets up to the strategy's reach, noise below 0.15. */
  ghost predicate Drawable(s: Scenario, draws: seq<Draw>) {
    forall i :: 0 <= i < |draws| ==>
      (s.strategy.FixedSlot? || draws[i].offset <= Reach(s.strategy, s.window)) && 0.0 <= draws[i].noise < 0.15
  }

  /** Every participant's slot is the target plus at most the reach. */
  ghost predicate SlotsWithin(g: Observer, draws: seq<Draw>, reach: nat) {
    forall i :: 0 <= i < |draws| ==> 10_000 <= g(i, draws[i]).slot <= 10_000 + reach
  }

  lemma {:induction false} SeenWithin(g: Observer, draws: seq<Draw>, reach: nat)
    requires SlotsWithin(g, draws, reach)
    ensures forall i :: 0 <= i < |SeenBy(g, draws)| ==> 10_000 <= SeenBy(g, draws)[i].slot <= 10_000 + reach
    decreases |draws|
  {
    if draws != [] {
      var n := |draws| - 1;
      assert forall i :: 0 <= i < n ==> draws[..n][i] == draws[i];
      SeenWithin(g, draws[..n], reach);
      SeenStep(g, draws);
      assert 10_000 <= g(n, draws[n]).slot <= 10_000 + reach;
    }
  }

  lemma ObserverWithin(s: Scenario, draws: seq<Draw>)
    requires Drawable(s, draws)
    ensures SlotsWithin(ObserverOf(s), draws, Reach(s.strategy, s.window))
  {
    forall i | 0 <= i < |draws|
      ensures 10_000 <= ObserverOf(s)(i, draws[i]).slot <= 10_000 + Reach(s.strategy, s.window)
    {
      assert ObserverOf(s)(i, draws[i]) == Observe(s, i, draws[i]);
    }
  }

  lemma {:induction false} DeviationsWithin(e: seq<Observation>, reach: nat)
    requires forall i :: 0 <= i < |e| ==> 10_000 <= e[i].slot <= 10_000 + reach
    ensures forall x :: x in Deviations(e) ==> x <= reach
    decreases |e|
  {
    if e != [] {
      DeviationsWithin(e[..|e| - 1], reach);
    }
  }

  lemma PercentileWithin(s: seq<nat>, t: seq<nat>, fraction: real, reach: nat)
    requires multiset(s) == multiset(t) && 0.0 <= fraction <= 1.0 && forall x :: x in t ==> x <= reach
    ensures Percentile(s, fraction) <= reach
  {
    if s != [] {
      var x := s[Rank(|s|, fraction)];
      assert x in multiset(s);
      assert x in t;
    }
  }

  lemma SpreadWithin(e: seq<Observation>, reach: nat, m: TimingMetrics)
    requires MeasuresTiming(e, m) && forall i :: 0 <= i < |e| ==> 10_000 <= e[i].slot <= 10_000 + reach
    ensures m.spread <= reach && m.median <= m.p95 <= reach
  {
    DeviationsWithin(e, reach);
    TimingConsistent(e, m);
    PercentileWithin(m.deviations, Deviations(e), 0.95, reach);
  }

  lemma ObserverBoundsSpread(a: Analysis, g: Observer, draws: seq<Draw>, n: nat, reach: nat, m: Metrics)
    requires a.Lawful() && SlotsWithin(g, draws, reach) && Measures(a, TraceBy(g, draws), n, m)
    ensures m.timing.spread <= reach && m.timing.median <= m.timing.p95 <= reach
  {
    SeenWithin(g, draws, reach);
    SpreadWithin(SeenBy(g, draws), reach, m.timing);
  }

  /**
   Executions spread no further than the strategy reaches: not at all at a fixed slot, three slots in a
   narrow window, two when latency-aware, and the whole window when randomized.
   */
  lemma StrategyBoundsSpread(a: Analysis, s: Scenario, draws: seq<Draw>, m: Metrics)
    requires a.Lawful() && Drawable(s, draws) && Measures(a, Trace(s, draws), s.participants, m)
    ensures m.timing.spread <= Reach(s.strategy, s.window)
    ensures m.timing.median <= m.timing.p95 <= Reach(s.strategy, s.window)
  {
    ObserverWithin(s, draws);
    ObserverBoundsSpread(a, ObserverOf(s), draws, s.participants, Reach(s.strategy, s.window), m);
  }

  /** Where each strategy puts a participant. */
  lemma SlotsExactly(strategy: Strategy, d: Draw)
    ensures SlotOf(strategy, d) == if strategy.FixedSlot? then 10_000 else 10_000 + d.offset
  {
  }

  /** A score is a share; with admissible noise, fourteen points of signal are judged linked, nine are not. */
  lemma JudgedBySignal(x: Fingerprint, noise: real)
    requires 0.0 <= noise < 0.15
    ensures 0.0 <= Score(x, noise) <= 1.0
    ensures Signal(x) >= 14 ==> Score(x, noise) >= THRESHOLD
    ensures Signal(x) <= 9 ==> Score(x, noise) < THRESHOLD
    ensures Signal(x) >= 28 ==> Score(x, noise) == 1.0
  {
  }

  /** What is observed of a participant. */
  lemma ObservedOf(s: Scenario, p: nat, d: Draw)
    ensures var o := Observe(s, p, d);
            && o.participant == p && (o.executed <==> !d.dropped) && (o.trueLink <==> p % 2 == 0)
            && o.score == Score(o.fingerprint, d.noise)
            && (s.features.timing ==> o.fingerprint.timing == o.slot % 4)
            && (s.features.shape ==> o.fingerprint.shape == p % 5) && (s.features.fee ==> o.fingerprint.fee == p % 3)
            && (s.features.funding ==> o.fingerprint.funding == p % 7)
            && (s.features.amount ==> o.fingerprint.amount == p % 4)
            && (s.features.history ==> o.fingerprint.history == p % (if s.periods == 0 then 1 else s.periods))
            && (s.features == Features(false, false, false, false, false, false) ==> Signal(o.fingerprint) == 0)
  {
  }

  /** Which scenarios are evaluated, at the edges. */
  lemma ScenarioEdges(s: Scenario)
    ensures ValidScenario(s) ==> s.version == 1 && 2 <= s.participants && s.window > 0
    ensures var ok := s.(version := 1, participants := 2, window := 1, dropout := 0.0);
            && ValidScenario(ok) && ValidScenario(ok.(participants := 100_000)) && ValidScenario(ok.(dropout := 0.999))
            && !ValidScenario(ok.(version := 2)) && !ValidScenario(ok.(participants := 1))
            && !ValidScenario(ok.(participants := 100_001)) && !ValidScenario(ok.(window := 0))
            && !ValidScenario(ok.(dropout := 1.0)) && !ValidScenario(ok.(dropout := -0.1))
  {
  }
}
