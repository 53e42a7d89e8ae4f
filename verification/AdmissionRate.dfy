/** The rate limit, carried from calls that pass the gate to tickets that are admitted. */
module AdmissionRate {
  import opened Store
  import opened RateLimit
  import opened Admission

  /** The clock readings of the rate checks among the first `n` moves. */
  function GateTicks(env: Env, cfg: Config, start: Db, run: seq<Move>, n: nat): seq<Tick>
    requires n <= |run|
  {
    if n == 0 then []
    else if AtGate(After(env, cfg, start, run, n - 1), run[n - 1])
    then GateTicks(env, cfg, start, run, n - 1) + [run[n - 1].tick]
    else GateTicks(env, cfg, start, run, n - 1)
  }

  /** The move is a request's rate check. */
  predicate AtGate(s: Coord, m: Move) {
    m.Advance? && m.id in s.requests && s.requests[m.id].AtRateGate?
  }

  /** Requests that passed the gate in a span and are not finished. */
  function Flying(requests: map<nat, Phase>, lo: nat, hi: nat): set<nat> {
    set id | id in requests && requests[id].InFlight() && lo <= requests[id].passed < hi
  }

  /** Tickets admitted by requests that passed the gate in a span. */
  function AdmittedIn(admitted: seq<Admitted>, lo: nat, hi: nat): nat {
    if admitted == [] then 0
    else
      var last := admitted[|admitted| - 1];
      AdmittedIn(admitted[..|admitted| - 1], lo, hi) + if lo <= last.passed < hi then 1 else 0
  }

  /** Tickets admitted, and requests that may still admit one. */
  function Let(s: Coord, lo: nat, hi: nat): nat {
    AdmittedIn(s.admitted, lo, hi) + |Flying(s.requests, lo, hi)|
  }

  // ---------- what one request's step does ----------

  /** How a request may move on: it passes the gate, goes on, is admitted, or ends. */
  ghost predicate MovesOn(cfg: Config, s: Coord, s': Coord, id: nat, tick: Tick)
    requires id in s.requests
  {
    var p := s.requests[id];
    && s'.requests.Keys == s.requests.Keys
    && (forall j :: j in s.requests && j != id ==> s'.requests[j] == s.requests[j])
    && var p' := s'.requests[id];
       if p.AtRateGate? then
         && s'.admitted == s.admitted
         && (p'.InFlight() ==> Admits(cfg.rpm, s.rate, tick) && p'.passed == tick.now)
       else if p.InFlight() then
         || (s'.admitted == s.admitted && (p'.InFlight() ==> p'.passed == p.passed))
         || (p.Counted? && !p'.InFlight() && s'.admitted == s.admitted + [Admitted(p.ticket, p.slot, p.passed)])
       else s'.admitted == s.admitted && !p'.InFlight()
  }

  lemma GateMoves(env: Env, cfg: Config, s: Coord, id: nat, tick: Tick)
    requires id in s.requests && s.requests[id].AtRateGate?
    ensures MovesOn(cfg, s, Next(env, cfg, s, id, tick), id, tick)
  {
  }

  lemma CountedMoves(env: Env, cfg: Config, s: Coord, id: nat, tick: Tick)
    requires id in s.requests && s.requests[id].Counted?
    ensures MovesOn(cfg, s, Next(env, cfg, s, id, tick), id, tick)
  {
  }

  lemma OtherMoves(env: Env, cfg: Config, s: Coord, id: nat, tick: Tick)
    requires id in s.requests && !s.requests[id].AtRateGate? && !s.requests[id].Counted?
    ensures MovesOn(cfg, s, Next(env, cfg, s, id, tick), id, tick)
  {
    NextOthers(env, cfg, s, id, tick);
    OthersAdmitNothing(env, cfg, s, id, tick);
  }

  lemma NextMoves(env: Env, cfg: Config, s: Coord, id: nat, tick: Tick)
    requires id in s.requests
    ensures MovesOn(cfg, s, Next(env, cfg, s, id, tick), id, tick)
  {
    if s.requests[id].AtRateGate? {
      GateMoves(env, cfg, s, id, tick);
    } else if s.requests[id].Counted? {
      CountedMoves(env, cfg, s, id, tick);
    } else {
      OtherMoves(env, cfg, s, id, tick);
    }
  }

  /** Only a request's own place among those in flight changes. */
  lemma FlyingMoves(q: map<nat, Phase>, q': map<nat, Phase>, id: nat, lo: nat, hi: nat)
    requires q'.Keys == q.Keys && id in q && forall j :: j in q && j != id ==> q'[j] == q[j]
    ensures var n, n' := |Flying(q, lo, hi)|, |Flying(q', lo, hi)|;
            n' == n + (if id in Flying(q', lo, hi) then 1 else 0) - (if id in Flying(q, lo, hi) then 1 else 0)
  {
    var rest := Flying(q, lo, hi) - {id};
    assert rest == Flying(q', lo, hi) - {id};
    assert id in Flying(q, lo, hi) ==> Flying(q, lo, hi) == rest + {id};
    assert id in Flying(q', lo, hi) ==> Flying(q', lo, hi) == rest + {id};
  }

  lemma AdmittedOne(admitted: seq<Admitted>, x: Admitted, lo: nat, hi: nat)
    ensures AdmittedIn(admitted + [x], lo, hi) == AdmittedIn(admitted, lo, hi) + if lo <= x.passed < hi then 1 else 0
  {
    assert (admitted + [x])[..|admitted|] == admitted;
  }

  /** A step lets in at most one more, and only by passing the gate. */
  lemma MovesLet(cfg: Config, s: Coord, s': Coord, id: nat, tick: Tick, lo: nat, hi: nat)
    requires id in s.requests && MovesOn(cfg, s, s', id, tick)
    ensures var passes := s.requests[id].AtRateGate? && Admits(cfg.rpm, s.rate, tick) && lo <= tick.now < hi;
            Let(s', lo, hi) <= Let(s, lo, hi) + if passes then 1 else 0
  {
    var p := s.requests[id];
    FlyingMoves(s.requests, s'.requests, id, lo, hi);
    if p.InFlight() { AdmittedOne(s.admitted, Admitted(p.ticket, p.slot, p.passed), lo, hi); }
  }

  /** The limiter moves only at the gate. */
  lemma RateMoves(env: Env, cfg: Config, s: Coord, id: nat, tick: Tick)
    requires id in s.requests
    ensures Next(env, cfg, s, id, tick).rate == if s.requests[id].AtRateGate? then Checked(cfg.rpm, s.rate, tick) else s.rate
  {
  }

  lemma ArrivalLets(s: Coord, id: nat, p: Phase, lo: nat, hi: nat)
    requires id !in s.requests && !p.InFlight()
    ensures Let(s.(requests := s.requests[id := p]), lo, hi) == Let(s, lo, hi)
  {
    assert Flying(s.requests[id := p], lo, hi) == Flying(s.requests, lo, hi);
  }

  /** One move of any kind. */
  lemma DoLets(env: Env, cfg: Config, s: Coord, m: Move, lo: nat, hi: nat)
    ensures var s' := Do(env, cfg, s, m);
            var passes := AtGate(s, m) && Admits(cfg.rpm, s.rate, m.tick) && lo <= m.tick.now < hi;
            && Let(s', lo, hi) <= Let(s, lo, hi) + (if passes then 1 else 0)
            && s'.rate == if AtGate(s, m) then Checked(cfg.rpm, s.rate, m.tick) else s.rate
  {
    match m
    case Arrive(id, t, slot) => if id !in s.requests { ArrivalLets(s, id, AtRateGate(t, slot), lo, hi); }
    case ArriveSeal(id) => if id !in s.requests { ArrivalLets(s, id, SealAwaiting, lo, hi); }
    case Advance(id, tick) =>
      if id in s.requests {
        NextMoves(env, cfg, s, id, tick);
        MovesLet(cfg, s, Next(env, cfg, s, id, tick), id, tick, lo, hi);
        RateMoves(env, cfg, s, id, tick);
      }
  }

  // ---------- over runs ----------

  /** What is let in came through the gate, and the limiter has seen exactly the gate's readings. */
  lemma {:induction false} LetWithinPasses(env: Env, cfg: Config, start: Db, run: seq<Move>, n: nat, lo: nat, hi: nat)
    requires n <= |run|
    ensures var s, ticks := After(env, cfg, start, run, n), GateTicks(env, cfg, start, run, n);
            && s.rate == CheckedAll(cfg.rpm, Rate(0, 0), ticks)
            && Let(s, lo, hi) <= Passes(cfg.rpm, Rate(0, 0), ticks, lo, hi)
    decreases n
  {
    if n > 0 {
      LetWithinPasses(env, cfg, start, run, n - 1, lo, hi);
      var s, ticks := After(env, cfg, start, run, n - 1), GateTicks(env, cfg, start, run, n - 1);
      DoLets(env, cfg, s, run[n - 1], lo, hi);
      if AtGate(s, run[n - 1]) { PassesAppend(cfg.rpm, Rate(0, 0), ticks, run[n - 1].tick, lo, hi); }
    }
  }

  /**
   However requests interleave, and whenever they finish: of the tickets admitted, at most `k + 1` times
   the limit came from requests that passed the gate in any one span of `k` minutes.
   */
  lemma AdmittedInSpan(env: Env, cfg: Config, start: Db, run: seq<Move>, n: nat, lo: nat, k: nat)
    requires n <= |run| && Timely(0, GateTicks(env, cfg, start, run, n))
    ensures AdmittedIn(After(env, cfg, start, run, n).admitted, lo, lo + k * 60_000_000_000) <= (k + 1) * cfg.rpm
  {
    LetWithinPasses(env, cfg, start, run, n, lo, lo + k * MINUTE);
    PassesInSpan(cfg.rpm, Rate(0, 0), GateTicks(env, cfg, start, run, n), lo, k);
  }
}
