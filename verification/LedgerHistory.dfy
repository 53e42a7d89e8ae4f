/** Where each account of a reachable ledger came from, and on whose authority. */
module LedgerHistory {
  import opened Accounts
  import opened Ledger
  import opened LedgerInvariant
  import opened LedgerRuns

  /** Instruction `i` created this pool, with this policy, for the authority that signed it. */
  predicate InitializedBy(run: seq<Event>, i: nat, a: Address, p: Pool)
    requires i < |run|
  {
    var ins, c := run[i].ins, run[i].call;
    && ins.InitializePool? && Succeeds(After(run, i), run[i]) && c.pool == a && c.signed
    && p.authority == c.authority && p.poolId == ins.poolId && p.templateHash == ins.templateHash
    && p.minParticipants == ins.minParticipants && p.maxParticipants == ins.maxParticipants
    && p.minReleaseDelay == ins.minReleaseDelay && p.maxReleaseDelay == ins.maxReleaseDelay
    && p.executionWindow == ins.executionWindow && p.backend == ins.backend && p.bump == ins.bump
  }

  /** Only initialisation makes a pool. */
  lemma NoNewPool(l: Ledger, e: Event, l': Ledger, a: Address)
    requires Succeeds(l, e) && l' == Process(l, e).value && !IsPool(l, a) && IsPool(l', a)
    ensures e.ins.InitializePool? && e.call.pool == a
  {
    if e.ins.OpenRound? { OpenForm(l, e.call, e.ins, l'); }
  }

  /** An account that appears as a pool was just initialised. */
  lemma PoolBorn(l: Ledger, e: Event, a: Address)
    requires !IsPool(l, a) && IsPool(Step(l, e), a)
    ensures e.ins.InitializePool? && Succeeds(l, e) && e.call.pool == a
  {
    assert Succeeds(l, e);
    NoNewPool(l, e, Process(l, e).value, a);
  }

  lemma PoolAsInitialized(l: Ledger, e: Event)
    requires e.ins.InitializePool? && Succeeds(l, e)
    ensures var l', a, i := Step(l, e), e.call.pool, e.ins;
            && IsPool(l', a) && e.call.signed && l'[a].pool.authority == e.call.authority
            && l'[a].pool == PoolAccount(
                 1, i.bump, e.call.authority, i.poolId, i.templateHash, i.minParticipants, i.maxParticipants,
                 i.minReleaseDelay, i.maxReleaseDelay, i.executionWindow, i.backend, 0, false)
  {
  }

  lemma {:induction false} PoolOrigin(run: seq<Event>, n: nat, a: Address) returns (i: nat)
    requires n <= |run| && IsPool(After(run, n), a)
    ensures i < n && InitializedBy(run, i, a, After(run, n)[a].pool)
    decreases n
  {
    if IsPool(After(run, n - 1), a) {
      i := PoolOrigin(run, n - 1, a);
      StepKeepsPool(After(run, n - 1), run[n - 1], a);
    } else {
      PoolBorn(After(run, n - 1), run[n - 1], a);
      PoolAsInitialized(After(run, n - 1), run[n - 1]);
      i := n - 1;
    }
  }

  /** The instructions that act in the name of a pool. */
  predicate Administrative(ins: Instruction) {
    ins.OpenRound? || ins.PublishCohortRoot? || ins.SealRound? || ins.ScheduleRelease? || ins.FinalizeRound?
    || ins.CancelRound? || ins.CloseRound?
  }

  lemma AdministrativeSigned(l: Ledger, e: Event)
    requires Administrative(e.ins) && Succeeds(l, e)
    ensures IsPool(l, e.call.pool) && e.call.signed && e.call.authority == l[e.call.pool].pool.authority
  {
  }

  /**
   Authority: every successful administrative instruction, anywhere in any run, was signed by the same
   authority that signed the initialisation of the pool it names.
   */
  lemma AuthorityOverRuns(run: seq<Event>, k: nat) returns (i: nat)
    requires k < |run| && Administrative(run[k].ins) && Succeeds(After(run, k), run[k])
    ensures i < k && run[i].ins.InitializePool? && Succeeds(After(run, i), run[i])
    ensures run[i].call.pool == run[k].call.pool && run[i].call.authority == run[k].call.authority
    ensures run[i].call.signed && run[k].call.signed
  {
    AdministrativeSigned(After(run, k), run[k]);
    i := PoolOrigin(run, k, run[k].call.pool);
  }

  /** Instruction `i` opened this round: before its deadline, under its pool's template. */
  predicate OpenedBy(run: seq<Event>, i: nat, a: Address, r: Round)
    requires i < |run|
  {
    var ins, c := run[i].ins, run[i].call;
    && ins.OpenRound? && Succeeds(After(run, i), run[i]) && c.round == a && c.pool == r.pool
    && r.roundId == ins.roundId && r.bump == ins.roundBump && r.templateHash == ins.roundTemplateHash
    && r.registrationDeadline == ins.registrationDeadline && c.slot < r.registrationDeadline
  }

  lemma RoundBorn(l: Ledger, e: Event, a: Address)
    requires WellFormed(l) && WellFormed(Step(l, e)) && !IsRound(l, a) && IsRound(Step(l, e), a)
    ensures e.ins.OpenRound? && Succeeds(l, e) && e.call.round == a
  {
    assert AccountOk(Step(l, e), a);
    if a != e.call.round { OthersUntouched(l, e, a); }
  }

  lemma RoundAsOpened(l: Ledger, e: Event)
    requires e.ins.OpenRound? && Succeeds(l, e)
    ensures IsRound(Step(l, e), e.call.round) && Step(l, e)[e.call.round].round == FreshRound(e.call.pool, e.ins)
    ensures e.call.slot < e.ins.registrationDeadline
  {
    OpenForm(l, e.call, e.ins, Step(l, e));
  }

  lemma OriginStays(run: seq<Event>, n: nat, i: nat, a: Address)
    requires i < n <= |run| && IsRound(After(run, n - 1), a) && IsRound(After(run, n), a)
    requires OpenedBy(run, i, a, After(run, n - 1)[a].round)
    ensures OpenedBy(run, i, a, After(run, n)[a].round)
  {
    AlwaysWellFormed(run, n - 1);
    StepFreezes(After(run, n - 1), run[n - 1], a);
  }

  lemma OpenedNow(run: seq<Event>, n: nat, a: Address)
    requires 0 < n <= |run| && !IsRound(After(run, n - 1), a) && IsRound(After(run, n), a)
    ensures OpenedBy(run, n - 1, a, After(run, n)[a].round)
  {
    AlwaysWellFormed(run, n - 1);
    AlwaysWellFormed(run, n);
    RoundBorn(After(run, n - 1), run[n - 1], a);
    RoundAsOpened(After(run, n - 1), run[n - 1]);
  }

  lemma {:induction false} RoundOrigin(run: seq<Event>, n: nat, a: Address) returns (i: nat)
    requires n <= |run| && IsRound(After(run, n), a)
    ensures i < n && OpenedBy(run, i, a, After(run, n)[a].round)
    decreases n
  {
    if IsRound(After(run, n - 1), a) {
      i := RoundOrigin(run, n - 1, a);
      OriginStays(run, n, i, a);
    } else {
      OpenedNow(run, n, a);
      i := n - 1;
    }
  }

  /** Instruction `i` registered this participant, before the deadline its round had then. */
  predicate RegisteredBy(run: seq<Event>, i: nat, rec: Participant)
    requires i < |run|
  {
    var l, ins, c := After(run, i), run[i].ins, run[i].call;
    && ins.RegisterTransparent? && Succeeds(l, run[i]) && c.signed
    && rec.round == c.round && rec.coordinationKey == ins.coordinationKey && rec.bump == ins.recordBump
    && IsRound(l, c.round) && c.slot < l[c.round].round.registrationDeadline
  }

  lemma RecordBorn(l: Ledger, e: Event, b: Address)
    requires b in Step(l, e) && Step(l, e)[b].RecordData? && !(b in l && Step(l, e)[b] == l[b])
    ensures e.ins.RegisterTransparent? && Succeeds(l, e) && e.call.record == b
    ensures var rec := Step(l, e)[b].record;
            rec.round == e.call.round && rec.coordinationKey == e.ins.coordinationKey && rec.bump == e.ins.recordBump
  {
  }

  /** Every participant record ever found was made by a registration before the deadline. */
  lemma {:induction false} RecordOrigin(run: seq<Event>, n: nat, b: Address) returns (i: nat)
    requires n <= |run| && b in After(run, n) && After(run, n)[b].RecordData?
    ensures i < n && RegisteredBy(run, i, After(run, n)[b].record)
    decreases n
  {
    var l, e := After(run, n - 1), run[n - 1];
    if b in l && After(run, n)[b] == l[b] {
      i := RecordOrigin(run, n - 1, b);
    } else {
      RecordBorn(l, e, b);
      i := n - 1;
    }
  }

  lemma StepCloses(l: Ledger, e: Event, a: Address)
    requires WellFormed(l) && IsRound(l, a) && a !in Step(l, e)
    ensures e.ins.CloseRound? && e.call.round == a && l[a].round.state in {Completed, Cancelled}
  {
    assert AccountOk(l, a);
    if a != e.call.round {
      OthersUntouched(l, e, a);
    } else {
      ProcessCloses(l, e, Process(l, e).value);
    }
  }

  lemma ProcessCloses(l: Ledger, e: Event, l': Ledger)
    requires IsRound(l, e.call.round) && Succeeds(l, e) && l' == Process(l, e).value && e.call.round !in l'
    ensures e.ins.CloseRound? && l[e.call.round].round.state in {Completed, Cancelled, Expired}
  {
  }

  /** A round account disappears only by closing it, and only when it was completed or cancelled. */
  lemma ClosedWhenTerminal(run: seq<Event>, k: nat, a: Address)
    requires k < |run| && IsRound(After(run, k), a) && a !in After(run, k + 1)
    ensures run[k].ins.CloseRound? && run[k].call.round == a
    ensures After(run, k)[a].round.state in {Completed, Cancelled}
  {
    AlwaysWellFormed(run, k);
    StepCloses(After(run, k), run[k], a);
  }
}
