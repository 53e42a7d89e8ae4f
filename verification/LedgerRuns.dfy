/** Safety over whole runs of the on-chain program, from an empty ledger. */
module LedgerRuns {
  import opened Bytes
  import opened Accounts
  import opened Handlers
  import opened Ledger
  import opened LedgerInvariant
  import Lifecycle

  // ---------- what one step can do to one account ----------

  /** The state of the protocol's lifecycle an on-chain state stands for. */
  function Core(s: State): Lifecycle.RoundState {
    match s
    case Registration => Lifecycle.Registration
    case ThresholdReached => Lifecycle.ThresholdReached
    case Sealed => Lifecycle.Sealed
    case ReleaseScheduled => Lifecycle.ReleaseScheduled
    case ExecutionWindow => Lifecycle.ExecutionWindow
    case Finalizing => Lifecycle.Finalizing
    case Completed => Lifecycle.Completed
    case Cancelled => Lifecycle.Cancelled
    case Expired => Lifecycle.Expired
  }

  function Order(s: State): nat { Core(s).Rank() }

  /**
   How a round may differ later on. Identity is fixed; the state only climbs; from `Sealed` on, and
   already from a published root, count and root are fixed; from `ReleaseScheduled` on the window is
   fixed; a completed or cancelled round is fixed altogether.
   */
  predicate Frozen(r: Round, r': Round) {
    && SameIdentity(r, r')
    && Order(r.state) <= Order(r'.state)
    && (Order(r.state) >= Order(Sealed) || r.cohortRoot != ZERO ==>
          r'.acceptedCount == r.acceptedCount && r'.cohortRoot == r.cohortRoot)
    && (Order(r.state) >= Order(ReleaseScheduled) ==>
          r'.releaseSlot == r.releaseSlot && r'.windowEndSlot == r.windowEndSlot)
    && (Order(r.state) == 7 ==> r' == r)
    && r.acceptedCount <= r'.acceptedCount
  }

  lemma FrozenTransitive(r: Round, s: Round, t: Round)
    requires Frozen(r, s) && Frozen(s, t)
    ensures Frozen(r, t)
  {
  }

  /** The writes one instruction can make. */
  predicate Writes(l: Ledger, l': Ledger, c: Call) {
    || l' == l
    || (c.pool !in l && c.pool.PoolPda? && c.pool in l' && l' == l[c.pool := l'[c.pool]])
    || (&& IsPool(l, c.pool) && c.round !in l && IsRound(l', c.round) && l[c.pool].pool.nextRound < U64_MAX
        && c.round.RoundPda? && c.round.pool == c.pool
        && l' == l[c.pool := PoolData(l[c.pool].pool.(nextRound := l[c.pool].pool.nextRound + 1))][c.round := l'[c.round]])
    || (&& IsRound(l, c.round) && IsRound(l', c.round) && c.record !in l && c.record.RecordPda? && c.record in l'
        && l' == l[c.record := l'[c.record]][c.round := l'[c.round]])
    || (IsRound(l, c.round) && IsRound(l', c.round) && l' == l[c.round := l'[c.round]])
    || (IsRound(l, c.round) && l' == l - {c.round})
  }

  lemma ProcessWrites(l: Ledger, e: Event, l': Ledger)
    requires Process(l, e) == Result.Ok(l')
    ensures Writes(l, l', e.call)
  {
    if e.ins.OpenRound? { OpenForm(l, e.call, e.ins, l'); }
  }

  lemma StepWrites(l: Ledger, e: Event)
    ensures Writes(l, Step(l, e), e.call)
  {
    if Succeeds(l, e) { ProcessWrites(l, e, Process(l, e).value); }
  }

  /** Only opening a round touches a pool that is there. */
  lemma PoolsUnlessOpened(l: Ledger, e: Event, a: Address)
    requires IsPool(l, a) && !(e.ins.OpenRound? && Succeeds(l, e))
    ensures IsPool(Step(l, e), a) && Step(l, e)[a] == l[a]
  {
  }

  /** A round an instruction does not name is left alone, whether it is there or not. */
  lemma OthersKept(l: Ledger, l': Ledger, c: Call, a: Address)
    requires WellFormed(l) && Writes(l, l', c) && a.RoundPda? && a != c.round
    ensures a in l <==> a in l'
    ensures a in l ==> l'[a] == l[a]
  {
    if c.pool in l { assert AccountOk(l, c.pool); }
  }

  lemma OthersUntouched(l: Ledger, e: Event, a: Address)
    requires WellFormed(l) && a.RoundPda? && a != e.call.round
    ensures a in l <==> a in Step(l, e)
    ensures a in l ==> Step(l, e)[a] == l[a]
  {
    StepWrites(l, e);
    OthersKept(l, Step(l, e), e.call, a);
  }

  /** Successful instructions aimed at a round. */
  predicate Hits(l: Ledger, e: Event, a: Address) {
    !e.ins.InitializePool? && e.call.round == a && Succeeds(l, e)
  }

  /** How a successful instruction other than closing changes the round it names. */
  predicate Changes(own: Pool, e: Event, r: Round, r': Round) {
    match e.ins
    case RegisterTransparent(_, _) =>
      && own.backend == TransparentRegistry && (r.state == Registration || r.state == ThresholdReached)
      && e.call.slot < r.registrationDeadline && r.acceptedCount < own.maxParticipants
      && r' == r.(acceptedCount := r.acceptedCount + 1,
                  state := if r.acceptedCount + 1 >= own.minParticipants then ThresholdReached else r.state)
    case PublishCohortRoot(root, count) =>
      && own.backend == MerkleCohort && r.state == Registration && r.cohortRoot == ZERO
      && own.minParticipants <= count <= own.maxParticipants && root != ZERO
      && r' == r.(cohortRoot := root, acceptedCount := count, state := ThresholdReached)
    case SealRound => r.state == ThresholdReached && r' == r.(state := Sealed)
    case ScheduleRelease(release) =>
      && r.state == Sealed && e.call.slot <= release < r'.windowEndSlot
      && r' == r.(releaseSlot := release, windowEndSlot := r'.windowEndSlot, state := ReleaseScheduled)
    case BeginExecutionWindow =>
      && r.state == ReleaseScheduled && r.releaseSlot <= e.call.slot <= r.windowEndSlot
      && r' == r.(state := ExecutionWindow)
    case FinalizeRound(metrics) =>
      && r.state == ExecutionWindow && r.windowEndSlot < e.call.slot && metrics != ZERO
      && r' == r.(metricsHash := metrics, state := Completed)
    case CancelRound =>
      && r.state != Completed && r.state != Cancelled && r.state != Expired && r' == r.(state := Cancelled)
    case _ => false
  }

  /** An administrative instruction changes its round as it says. */
  lemma AdminChanges(own: Pool, p: Pool, r: Round, e: Event)
    requires Administers(e.ins)
    requires AdminRound(p, r, e.call, e.ins).Ok? && (r.pool == e.call.pool ==> p == own) && p.executionWindow > 0
    ensures Changes(own, e, r, AdminRound(p, r, e.call, e.ins).value)
  {
  }

  /** What a successful instruction on a live round that leaves it there did. */
  lemma HitChanges(l: Ledger, e: Event, a: Address, l': Ledger)
    requires WellFormed(l) && IsRound(l, a) && IsRound(l', a) && e.call.round == a && !e.ins.InitializePool?
    requires Process(l, e) == Result.Ok(l') && IsPool(l, l[a].round.pool)
    ensures Changes(l[l[a].round.pool].pool, e, l[a].round, l'[a].round)
  {
    if e.call.pool in l { assert AccountOk(l, e.call.pool); }
    if Administers(e.ins) {
      AdminChanges(l[l[a].round.pool].pool, l[e.call.pool].pool, l[a].round, e);
    }
  }

  /** A live round that is still there after a step is the same, or was changed as its instruction says. */
  lemma StepOnRound(l: Ledger, e: Event, a: Address)
    requires WellFormed(l) && IsRound(l, a) && IsRound(Step(l, e), a)
    ensures IsPool(l, l[a].round.pool) && RoundOk(l[a].round, l[l[a].round.pool].pool)
    ensures if Hits(l, e, a) then Changes(l[l[a].round.pool].pool, e, l[a].round, Step(l, e)[a].round)
            else Step(l, e)[a] == l[a]
  {
    assert AccountOk(l, a);
    if a != e.call.round {
      OthersUntouched(l, e, a);
    } else if Hits(l, e, a) {
      HitChanges(l, e, a, Process(l, e).value);
    }
  }

  lemma StepFreezes(l: Ledger, e: Event, a: Address)
    requires WellFormed(l) && IsRound(l, a) && IsRound(Step(l, e), a)
    ensures Frozen(l[a].round, Step(l, e)[a].round)
  {
    StepOnRound(l, e, a);
    if Hits(l, e, a) {
      ChangesFreeze(l[l[a].round.pool].pool, e, l[a].round, Step(l, e)[a].round);
    }
  }

  lemma ChangesFreeze(own: Pool, e: Event, r: Round, r': Round)
    requires RoundOk(r, own) && Changes(own, e, r, r')
    ensures Frozen(r, r')
  {
    if e.ins.RegisterTransparent? {
      assert r.cohortRoot == ZERO;
    } else if e.ins.ScheduleRelease? {
      assert r.state == Sealed;
    }
  }

  /** An instruction that opens a round of this pool. */
  predicate Opens(l: Ledger, e: Event, pool: Address) {
    e.ins.OpenRound? && e.call.pool == pool && Succeeds(l, e)
  }

  /** A pool stays, and changes only in its round counter: by one when it opens a round. */
  lemma StepKeepsPool(l: Ledger, e: Event, a: Address)
    requires IsPool(l, a)
    ensures IsPool(Step(l, e), a)
    ensures var n := l[a].pool.nextRound + if Opens(l, e, a) then 1 else 0;
            n <= U64_MAX && Step(l, e)[a].pool == l[a].pool.(nextRound := n)
  {
    if e.ins.OpenRound? && Succeeds(l, e) {
      OpenedPool(l, Step(l, e), e, a);
    } else {
      PoolsUnlessOpened(l, e, a);
    }
  }

  lemma OpenedPool(l: Ledger, l': Ledger, e: Event, a: Address)
    requires IsPool(l, a) && e.ins.OpenRound? && Open(l, e.call, e.ins) == Result.Ok(l')
    ensures IsPool(l', a) && a != e.call.round
    ensures l'[a].pool == if a == e.call.pool then l[a].pool.(nextRound := l[a].pool.nextRound + 1) else l[a].pool
    ensures a == e.call.pool ==> l[a].pool.nextRound < U64_MAX
  {
  }

  /** A closed round is not there to be reopened. */
  lemma StepKeepsGone(l: Ledger, e: Event, a: Address)
    requires WellFormed(l) && Issued(l, a) && a !in l
    ensures Issued(Step(l, e), a) && a !in Step(l, e)
  {
    StepKeepsPool(l, e, a.pool);
    if a != e.call.round { OthersUntouched(l, e, a); }
  }

  /** A round number, once used, stays used. */
  lemma StepKeepsIssued(l: Ledger, e: Event, a: Address)
    requires WellFormed(l) && Issued(l, a)
    ensures Issued(Step(l, e), a)
  {
    StepKeepsPool(l, e, a.pool);
  }

  // ---------- freezing and no reopening ----------

  lemma {:induction false} IssuedForever(run: seq<Event>, m: nat, n: nat, a: Address)
    requires m <= n <= |run| && Issued(After(run, m), a)
    ensures Issued(After(run, n), a)
    ensures a !in After(run, m) ==> a !in After(run, n)
    decreases n
  {
    if m < n {
      IssuedForever(run, m, n - 1, a);
      AlwaysWellFormed(run, n - 1);
      StepKeepsIssued(After(run, n - 1), run[n - 1], a);
      if a !in After(run, n - 1) { StepKeepsGone(After(run, n - 1), run[n - 1], a); }
    }
  }

  /** A round live at two times was live throughout. */
  lemma LiveBetween(run: seq<Event>, m: nat, k: nat, n: nat, a: Address)
    requires m <= k <= n <= |run| && IsRound(After(run, m), a) && IsRound(After(run, n), a)
    ensures IsRound(After(run, k), a)
  {
    AlwaysWellFormed(run, m);
    AlwaysWellFormed(run, k);
    assert AccountOk(After(run, m), a);
    IssuedForever(run, m, k, a);
    if a !in After(run, k) {
      IssuedForever(run, k, n, a);
    } else {
      assert AccountOk(After(run, k), a);
    }
  }

  lemma RunFreezes(run: seq<Event>, n: nat, a: Address)
    requires 0 < n <= |run| && IsRound(After(run, n - 1), a) && IsRound(After(run, n), a)
    ensures Frozen(After(run, n - 1)[a].round, After(run, n)[a].round)
  {
    AlwaysWellFormed(run, n - 1);
    StepFreezes(After(run, n - 1), run[n - 1], a);
  }

  /** Freezing over any stretch of any run. */
  lemma {:induction false} FrozenOverRuns(run: seq<Event>, m: nat, n: nat, a: Address)
    requires m <= n <= |run| && IsRound(After(run, m), a) && IsRound(After(run, n), a)
    ensures Frozen(After(run, m)[a].round, After(run, n)[a].round)
    decreases n
  {
    if m < n {
      LiveBetween(run, m, n - 1, n, a);
      FrozenOverRuns(run, m, n - 1, a);
      RunFreezes(run, n, a);
      FrozenTransitive(After(run, m)[a].round, After(run, n - 1)[a].round, After(run, n)[a].round);
    }
  }

  /** How many rounds of a pool a stretch of a run opens. */
  function OpenCount(run: seq<Event>, m: nat, n: nat, pool: Address): nat
    requires m <= n <= |run|
    decreases n
  {
    if m == n then 0
    else OpenCount(run, m, n - 1, pool) + if Opens(After(run, n - 1), run[n - 1], pool) then 1 else 0
  }

  /** A pool never changes except that its counter counts the rounds it opened. */
  lemma {:induction false} PoolCountsOpens(run: seq<Event>, m: nat, n: nat, a: Address)
    requires m <= n <= |run| && IsPool(After(run, m), a)
    ensures IsPool(After(run, n), a)
    ensures var next := After(run, m)[a].pool.nextRound + OpenCount(run, m, n, a);
            next <= U64_MAX && After(run, n)[a].pool == After(run, m)[a].pool.(nextRound := next)
    decreases n
  {
    if m < n {
      PoolCountsOpens(run, m, n - 1, a);
      AlwaysWellFormed(run, n - 1);
      StepKeepsPool(After(run, n - 1), run[n - 1], a);
    }
  }

  /** No pool opens one round number twice, under any bump, closed in between or not. */
  lemma NeverReopened(run: seq<Event>, i: nat, j: nat)
    requires i < j < |run| && run[i].ins.OpenRound? && run[j].ins.OpenRound?
    requires Succeeds(After(run, i), run[i]) && Succeeds(After(run, j), run[j])
    requires run[i].call.pool == run[j].call.pool
    ensures run[i].ins.roundId < run[j].ins.roundId
  {
    var p := run[i].call.pool;
    AlwaysWellFormed(run, i);
    StepKeepsPool(After(run, i), run[i], p);
    PoolCountsOpens(run, i + 1, j, p);
  }

  // ---------- a bound on the instructions a round accepts ----------

  function HitCount(run: seq<Event>, m: nat, n: nat, a: Address): nat
    requires m <= n <= |run|
    decreases n
  {
    if m == n then 0
    else HitCount(run, m, n - 1, a) + if Hits(After(run, n - 1), run[n - 1], a) then 1 else 0
  }

  /** Free places, plus the lifecycle steps ahead. */
  function Remaining(p: Pool, r: Round): int {
    p.maxParticipants - r.acceptedCount
    + match r.state
      case Registration | ThresholdReached => 5
      case Sealed => 4
      case ReleaseScheduled => 3
      case ExecutionWindow => 2
      case _ => 1
  }

  /** What a round may still accept: nothing once it is closed. */
  function Budget(l: Ledger, a: Address): int {
    if !IsRound(l, a) || !IsPool(l, l[a].round.pool) then 0
    else Remaining(l[l[a].round.pool].pool, l[a].round)
  }

  lemma ChangesSpend(own: Pool, e: Event, r: Round, r': Round)
    requires PoolOk(own) && RoundOk(r, own) && Changes(own, e, r, r')
    ensures 0 <= Remaining(own, r') < Remaining(own, r)
  {
  }

  /** Every successful instruction on a live round uses up some of its budget. */
  lemma StepSpends(l: Ledger, e: Event, a: Address)
    requires WellFormed(l) && IsRound(l, a)
    ensures 0 <= Budget(Step(l, e), a)
    ensures Budget(Step(l, e), a) + (if Hits(l, e, a) then 1 else 0) <= Budget(l, a)
  {
    assert AccountOk(l, a);
    var p := l[a].round.pool;
    assert AccountOk(l, p);
    StepKeepsPool(l, e, p);
    if IsRound(Step(l, e), a) {
      StepOnRound(l, e, a);
      if Hits(l, e, a) {
        ChangesSpend(l[p].pool, e, l[a].round, Step(l, e)[a].round);
      }
    }
  }

  /** The same for a round number already used, whether its account is still there or not. */
  lemma IssuedSpends(l: Ledger, e: Event, a: Address)
    requires WellFormed(l) && Issued(l, a)
    ensures 0 <= Budget(Step(l, e), a)
    ensures Budget(Step(l, e), a) + (if Hits(l, e, a) then 1 else 0) <= Budget(l, a)
  {
    if a in l {
      assert AccountOk(l, a);
      StepSpends(l, e, a);
    } else {
      StepKeepsGone(l, e, a);
    }
  }

  lemma {:induction false} RunSpends(run: seq<Event>, m: nat, n: nat, a: Address)
    requires m <= n <= |run| && Issued(After(run, m), a) && 0 <= Budget(After(run, m), a)
    ensures 0 <= Budget(After(run, n), a)
    ensures HitCount(run, m, n, a) + Budget(After(run, n), a) <= Budget(After(run, m), a)
    decreases n
  {
    if m < n {
      RunSpends(run, m, n - 1, a);
      AlwaysWellFormed(run, n - 1);
      IssuedForever(run, m, n - 1, a);
      IssuedSpends(After(run, n - 1), run[n - 1], a);
    }
  }

  /** A round just opened has its whole budget. */
  lemma OpenedBudget(l: Ledger, c: Call, i: Instruction, l': Ledger)
    requires WellFormed(l') && i.OpenRound? && Open(l, c, i) == Result.Ok(l')
    ensures IsPool(l, c.pool) && Issued(l', c.round) && 0 <= Budget(l', c.round) <= l[c.pool].pool.maxParticipants + 5
  {
    OpenForm(l, c, i, l');
    assert AccountOk(l', c.pool);
  }

  /** After it is opened, a round accepts at most `max_participants + 5` successful instructions. */
  lemma InstructionsBounded(run: seq<Event>, i: nat, n: nat)
    requires i < n <= |run| && run[i].ins.OpenRound? && Succeeds(After(run, i), run[i])
    ensures IsPool(After(run, i), run[i].call.pool)
    ensures HitCount(run, i + 1, n, run[i].call.round)
         <= After(run, i)[run[i].call.pool].pool.maxParticipants + 5
  {
    AlwaysWellFormed(run, i + 1);
    OpenedBudget(After(run, i), run[i].call, run[i].ins, After(run, i + 1));
    RunSpends(run, i + 1, n, run[i].call.round);
  }

  // ---------- timing ----------

  /** The round was scheduled by instruction `i`, under the policy of the pool named there. */
  predicate ScheduledBy(run: seq<Event>, i: nat, a: Address, r: Round)
    requires i < |run|
  {
    var l, c := After(run, i), run[i].call;
    && run[i].ins.ScheduleRelease? && c.round == a && Succeeds(l, run[i]) && IsPool(l, c.pool)
    && r.releaseSlot == run[i].ins.releaseSlot
    && c.slot + l[c.pool].pool.minReleaseDelay <= r.releaseSlot <= c.slot + l[c.pool].pool.maxReleaseDelay
    && r.windowEndSlot == r.releaseSlot + l[c.pool].pool.executionWindow
  }

  /** A round appears in registration, so one past it was there before. */
  lemma StepBorn(l: Ledger, e: Event, a: Address)
    requires WellFormed(l) && a.RoundPda? && IsRound(Step(l, e), a) && Step(l, e)[a].round.state != Registration
    ensures IsRound(l, a)
  {
    if a != e.call.round {
      OthersUntouched(l, e, a);
    }
  }

  /** A round past registration was there one instruction earlier. */
  lemma BornRegistering(run: seq<Event>, n: nat, a: Address)
    requires n <= |run| && IsRound(After(run, n), a) && After(run, n)[a].round.state != Registration
    ensures n > 0 && IsRound(After(run, n - 1), a)
  {
    AlwaysWellFormed(run, n);
    assert AccountOk(After(run, n), a);
    AlwaysWellFormed(run, n - 1);
    StepBorn(After(run, n - 1), run[n - 1], a);
  }

  /** What a successful scheduling fixed, under the policy of the pool named. */
  lemma ScheduledNow(l: Ledger, e: Event)
    requires e.ins.ScheduleRelease? && Succeeds(l, e)
    ensures IsPool(l, e.call.pool) && IsRound(Step(l, e), e.call.round)
    ensures var p, r := l[e.call.pool].pool, Step(l, e)[e.call.round].round;
            && r.releaseSlot == e.ins.releaseSlot
            && e.call.slot + p.minReleaseDelay <= r.releaseSlot <= e.call.slot + p.maxReleaseDelay
            && r.windowEndSlot == r.releaseSlot + p.executionWindow
  {
  }

  predicate HasWindow(r: Round) {
    r.state in {ReleaseScheduled, ExecutionWindow, Completed}
  }

  /** A window that was not fixed by this step was there before it. */
  lemma WindowKept(own: Pool, e: Event, r: Round, r': Round)
    requires Changes(own, e, r, r') && HasWindow(r') && !e.ins.ScheduleRelease?
    ensures HasWindow(r) && r'.releaseSlot == r.releaseSlot && r'.windowEndSlot == r.windowEndSlot
  {
  }

  lemma WindowBefore(l: Ledger, e: Event, a: Address)
    requires WellFormed(l) && IsRound(l, a) && IsRound(Step(l, e), a) && HasWindow(Step(l, e)[a].round)
    requires !(e.ins.ScheduleRelease? && Hits(l, e, a))
    ensures HasWindow(l[a].round)
    ensures Step(l, e)[a].round.releaseSlot == l[a].round.releaseSlot
    ensures Step(l, e)[a].round.windowEndSlot == l[a].round.windowEndSlot
  {
    StepOnRound(l, e, a);
    if Hits(l, e, a) {
      WindowKept(l[l[a].round.pool].pool, e, l[a].round, Step(l, e)[a].round);
    }
  }

  /** Every scheduled, running or completed round has the instruction that scheduled it. */
  lemma {:induction false} ScheduleOrigin(run: seq<Event>, n: nat, a: Address) returns (i: nat)
    requires n <= |run| && IsRound(After(run, n), a) && HasWindow(After(run, n)[a].round)
    ensures i < n && ScheduledBy(run, i, a, After(run, n)[a].round)
    decreases n
  {
    BornRegistering(run, n, a);
    var l, e := After(run, n - 1), run[n - 1];
    if e.ins.ScheduleRelease? && Hits(l, e, a) {
      i := n - 1;
      ScheduledNow(l, e);
    } else {
      AlwaysWellFormed(run, n - 1);
      WindowBefore(l, e, a);
      i := ScheduleOrigin(run, n - 1, a);
    }
  }

  predicate BegunBy(run: seq<Event>, i: nat, a: Address, r: Round)
    requires i < |run|
  {
    && run[i].ins.BeginExecutionWindow? && run[i].call.round == a && Succeeds(After(run, i), run[i])
    && r.releaseSlot <= run[i].call.slot <= r.windowEndSlot
  }

  /** A round that runs now was begun by this step, or ran before it in the same window. */
  lemma RunningBefore(own: Pool, e: Event, r: Round, r': Round)
    requires Changes(own, e, r, r') && r'.state in {ExecutionWindow, Completed}
    ensures r'.releaseSlot == r.releaseSlot && r'.windowEndSlot == r.windowEndSlot
    ensures if e.ins.BeginExecutionWindow?
            then r.state == ReleaseScheduled && r.releaseSlot <= e.call.slot <= r.windowEndSlot
            else r.state in {ExecutionWindow, Completed}
  {
  }

  lemma StepRunning(l: Ledger, e: Event, a: Address)
    requires WellFormed(l) && IsRound(l, a) && IsRound(Step(l, e), a)
    requires Step(l, e)[a].round.state in {ExecutionWindow, Completed}
    ensures var r, r' := l[a].round, Step(l, e)[a].round;
            && r'.releaseSlot == r.releaseSlot && r'.windowEndSlot == r.windowEndSlot
            && if e.ins.BeginExecutionWindow? && Hits(l, e, a)
               then r.state == ReleaseScheduled && r.releaseSlot <= e.call.slot <= r.windowEndSlot
               else r.state in {ExecutionWindow, Completed}
  {
    StepOnRound(l, e, a);
    if Hits(l, e, a) {
      RunningBefore(l[l[a].round.pool].pool, e, l[a].round, Step(l, e)[a].round);
    }
  }

  /** Every running or completed round began inside its window. */
  lemma {:induction false} BeginOrigin(run: seq<Event>, n: nat, a: Address) returns (i: nat)
    requires n <= |run| && IsRound(After(run, n), a)
    requires After(run, n)[a].round.state in {ExecutionWindow, Completed}
    ensures i < n && BegunBy(run, i, a, After(run, n)[a].round)
    ensures IsRound(After(run, i), a) && After(run, i)[a].round.state == ReleaseScheduled
    ensures After(run, i)[a].round.releaseSlot == After(run, n)[a].round.releaseSlot
    ensures After(run, i)[a].round.windowEndSlot == After(run, n)[a].round.windowEndSlot
    decreases n
  {
    BornRegistering(run, n, a);
    AlwaysWellFormed(run, n - 1);
    StepRunning(After(run, n - 1), run[n - 1], a);
    if run[n - 1].ins.BeginExecutionWindow? && Hits(After(run, n - 1), run[n - 1], a) {
      i := n - 1;
    } else {
      i := BeginOrigin(run, n - 1, a);
    }
  }

  /**
   Timing of a completed round. It was scheduled, then begun at a slot inside its window, then
   finalized at `k`, and finalization came strictly later than the scheduling slot plus the minimum
   delay plus the execution window of the pool named when scheduling.
   */
  lemma CompletionTiming(run: seq<Event>, k: nat) returns (i: nat, j: nat)
    requires k < |run| && run[k].ins.FinalizeRound? && Succeeds(After(run, k), run[k])
    ensures var a := run[k].call.round;
            && IsRound(After(run, k), a)
            && i < j < k
            && ScheduledBy(run, i, a, After(run, k)[a].round)
            && BegunBy(run, j, a, After(run, k)[a].round)
            && run[j].call.slot < run[k].call.slot
            && (var p := After(run, i)[run[i].call.pool].pool;
                run[i].call.slot + p.minReleaseDelay + p.executionWindow < run[k].call.slot)
  {
    var a := run[k].call.round;
    j := BeginOrigin(run, k, a);
    i := ScheduleOrigin(run, j, a);
  }

  /** Slots never run backwards. */
  predicate SlotsAscend(run: seq<Event>) {
    forall i, j :: 0 <= i < j < |run| ==> run[i].call.slot <= run[j].call.slot
  }

  /** A scheduled round that was not begun by the end of its window never runs: it can only be cancelled. */
  lemma {:induction false} MissedWindow(run: seq<Event>, m: nat, n: nat, a: Address)
    requires SlotsAscend(run) && m < n <= |run| && IsRound(After(run, m), a) && IsRound(After(run, n), a)
    requires After(run, m)[a].round.state == ReleaseScheduled
    requires run[m].call.slot > After(run, m)[a].round.windowEndSlot
    ensures After(run, n)[a].round.state in {ReleaseScheduled, Cancelled}
    decreases n
  {
    LiveBetween(run, m, n - 1, n, a);
    if m < n - 1 { MissedWindow(run, m, n - 1, a); }
    FrozenOverRuns(run, m, n - 1, a);
    AlwaysWellFormed(run, n - 1);
    MissedStep(After(run, n - 1), run[n - 1], a);
  }

  /** Past its window a scheduled round stays, or is cancelled. */
  lemma MissedStep(l: Ledger, e: Event, a: Address)
    requires WellFormed(l) && IsRound(l, a) && IsRound(Step(l, e), a)
    requires l[a].round.state in {ReleaseScheduled, Cancelled} && e.call.slot > l[a].round.windowEndSlot
    ensures Step(l, e)[a].round.state in {ReleaseScheduled, Cancelled}
  {
    StepOnRound(l, e, a);
  }

  /** Instruction `k` leaves the records of a round as they are. */
  ghost predicate Steady(run: seq<Event>, k: nat, a: Address)
    requires k < |run|
  {
    RecordsOf(After(run, k + 1), a) == RecordsOf(After(run, k), a)
  }

  lemma {:induction false} SteadyAlong(run: seq<Event>, m: nat, n: nat, a: Address)
    requires m <= n <= |run| && forall k: nat :: m <= k < n ==> Steady(run, k, a)
    ensures RecordsOf(After(run, n), a) == RecordsOf(After(run, m), a)
    decreases n
  {
    if m < n {
      SteadyAlong(run, m, n - 1, a);
      assert Steady(run, n - 1, a);
    }
  }

  /** With ascending slots, nobody registers at or after the deadline: a round's records stay as they are. */
  lemma RegistrationCloses(run: seq<Event>, m: nat, n: nat, a: Address)
    requires SlotsAscend(run) && m <= n <= |run| && IsRound(After(run, m), a)
    requires m < |run| && run[m].call.slot >= After(run, m)[a].round.registrationDeadline
    ensures RecordsOf(After(run, n), a) == RecordsOf(After(run, m), a)
  {
    forall k: nat | m <= k < n ensures Steady(run, k, a) {
      AlwaysWellFormed(run, k);
      DeadlineBehind(run, m, k, a);
      NoLateRecord(After(run, k), run[k], a);
    }
    SteadyAlong(run, m, n, a);
  }

  predicate PublishesRoot(l: Ledger, e: Event, a: Address) {
    e.ins.PublishCohortRoot? && Hits(l, e, a)
  }

  /** At or after the deadline only a publication changes the count of a live round, and it raises it. */
  lemma LateCount(l: Ledger, e: Event, a: Address)
    requires WellFormed(l) && IsRound(l, a) && IsRound(Step(l, e), a) && e.call.slot >= l[a].round.registrationDeadline
    ensures var n, n' := l[a].round.acceptedCount, Step(l, e)[a].round.acceptedCount;
            if PublishesRoot(l, e, a) then n < n' else n' == n
  {
    StepOnRound(l, e, a);
    if PublishesRoot(l, e, a) {
      PoolInOrder(l, l[a].round.pool);
    }
  }

  /** Instruction `k` publishes on a live round. */
  predicate PublishedAt(run: seq<Event>, k: nat, a: Address)
    requires k < |run|
  {
    IsRound(After(run, k), a) && PublishesRoot(After(run, k), run[k], a)
  }

  /** No instruction of a stretch publishes on the round. */
  ghost predicate Unpublished(run: seq<Event>, m: nat, n: nat, a: Address)
    requires n <= |run|
  {
    forall k: nat :: m <= k < n ==> !PublishedAt(run, k, a)
  }

  lemma UnpublishedStep(run: seq<Event>, m: nat, n: nat, a: Address)
    requires m < n <= |run|
    ensures Unpublished(run, m, n, a) <==> Unpublished(run, m, n - 1, a) && !PublishedAt(run, n - 1, a)
  {
  }

  /** One instruction past the deadline. */
  lemma LateCountAt(run: seq<Event>, m: nat, n: nat, a: Address)
    requires SlotsAscend(run) && m < n <= |run| && IsRound(After(run, m), a)
    requires IsRound(After(run, n - 1), a) && IsRound(After(run, n), a)
    requires run[m].call.slot >= After(run, m)[a].round.registrationDeadline
    ensures var c, c' := After(run, n - 1)[a].round.acceptedCount, After(run, n)[a].round.acceptedCount;
            if PublishedAt(run, n - 1, a) then c < c' else c' == c
    ensures After(run, m)[a].round.acceptedCount <= After(run, n - 1)[a].round.acceptedCount
  {
    FrozenOverRuns(run, m, n - 1, a);
    DeadlineBehind(run, m, n - 1, a);
    AlwaysWellFormed(run, n - 1);
    LateCount(After(run, n - 1), run[n - 1], a);
  }

  /**
   With ascending slots, from the deadline on a live round's count stays as it is if and only if nobody
   publishes on it: publication, unlike registration, has no deadline.
   */
  lemma {:induction false} CountCloses(run: seq<Event>, m: nat, n: nat, a: Address)
    requires SlotsAscend(run) && m <= n <= |run| && IsRound(After(run, m), a) && IsRound(After(run, n), a)
    requires m < |run| && run[m].call.slot >= After(run, m)[a].round.registrationDeadline
    ensures After(run, n)[a].round.acceptedCount == After(run, m)[a].round.acceptedCount <==> Unpublished(run, m, n, a)
    decreases n
  {
    if m < n {
      LiveBetween(run, m, n - 1, n, a);
      CountCloses(run, m, n - 1, a);
      LateCountAt(run, m, n, a);
      UnpublishedStep(run, m, n, a);
    }
  }

  lemma NoLateRecord(l: Ledger, e: Event, a: Address)
    requires WellFormed(l) && (IsRound(l, a) ==> e.call.slot >= l[a].round.registrationDeadline)
    ensures RecordsOf(Step(l, e), a) == RecordsOf(l, a)
  {
    LateRegistrationFails(l, e, a);
    RecordsUnlessRegistered(l, e, a);
  }

  lemma DeadlineBehind(run: seq<Event>, m: nat, n: nat, a: Address)
    requires SlotsAscend(run) && m <= n < |run| && IsRound(After(run, m), a)
    requires run[m].call.slot >= After(run, m)[a].round.registrationDeadline
    ensures IsRound(After(run, n), a) ==> run[n].call.slot >= After(run, n)[a].round.registrationDeadline
  {
    if IsRound(After(run, n), a) {
      FrozenOverRuns(run, m, n, a);
    }
  }

  lemma LateRegistrationFails(l: Ledger, e: Event, a: Address)
    requires IsRound(l, a) ==> e.call.slot >= l[a].round.registrationDeadline
    ensures !(e.ins.RegisterTransparent? && Hits(l, e, a))
  {
  }

  /** Records of a round change only by a registration in it. */
  lemma RecordsUnlessRegistered(l: Ledger, e: Event, a: Address)
    requires WellFormed(l) && !(e.ins.RegisterTransparent? && Hits(l, e, a))
    ensures RecordsOf(Step(l, e), a) == RecordsOf(l, a)
  {
    if e.ins.RegisterTransparent? && Succeeds(l, e) {
      RecordElsewhere(l, e, a);
    } else {
      StepAddsNoRecord(l, e);
      RecordsKept(l, Step(l, e), a);
    }
  }

  lemma RecordElsewhere(l: Ledger, e: Event, a: Address)
    requires e.ins.RegisterTransparent? && Succeeds(l, e) && e.call.round != a
    ensures RecordsOf(Step(l, e), a) == RecordsOf(l, a)
  {
  }

  lemma StepAddsNoRecord(l: Ledger, e: Event)
    requires !(e.ins.RegisterTransparent? && Succeeds(l, e))
    ensures SameRecords(l, Step(l, e))
  {
  }
}
