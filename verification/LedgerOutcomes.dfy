/**
 When each instruction succeeds and what it then leaves, and which error it gives otherwise: for every
 ledger and every call, in terms of the accounts' own fields.
 */
module LedgerOutcomes {
  import opened Bytes
  import opened Accounts
  import opened Handlers
  import opened Ledger
  import opened LedgerInvariant

  /** The caller signed, and the accounts passed are a pool and a round. */
  predicate Reads(l: Ledger, c: Call) {
    c.signed && IsPool(l, c.pool) && IsRound(l, c.round)
  }

  // ---------- success ----------

  lemma InitializesExactly(l: Ledger, e: Event)
    requires e.ins.InitializePool?
    ensures var c, i := e.call, e.ins;
            && (Succeeds(l, e) <==>
                && 2 <= i.minParticipants <= i.maxParticipants <= 100_000
                && i.executionWindow > 0 && i.minReleaseDelay <= i.maxReleaseDelay
                && c.signed && c.derives && c.pool == PoolPda(i.poolId, i.bump) && c.pool !in l && c.creates)
            && (Succeeds(l, e) ==>
                Step(l, e) == l[c.pool := PoolData(PoolAccount(
                  1, i.bump, c.authority, i.poolId, i.templateHash, i.minParticipants, i.maxParticipants,
                  i.minReleaseDelay, i.maxReleaseDelay, i.executionWindow, i.backend, 0, false))])
  {
    assert Process(l, e) == Initialize(l, e.call, e.ins);
  }

  lemma OpensExactly(l: Ledger, e: Event)
    requires e.ins.OpenRound?
    ensures var c, i := e.call, e.ins;
            && (Succeeds(l, e) <==>
                && c.signed && IsPool(l, c.pool) && !l[c.pool].pool.paused
                && l[c.pool].pool.authority == c.authority && l[c.pool].pool.templateHash == i.roundTemplateHash
                && l[c.pool].pool.nextRound == i.roundId < 0xFFFF_FFFF_FFFF_FFFF && c.slot < i.registrationDeadline
                && c.derives && c.round == RoundPda(c.pool, i.roundId, i.roundBump) && c.round !in l && c.creates)
            && (Succeeds(l, e) ==>
                var p := l[c.pool].pool;
                Step(l, e) == l[c.pool := PoolData(p.(nextRound := p.nextRound + 1))]
                               [c.round := RoundData(RoundAccount(
                                 1, i.roundBump, c.pool, i.roundId, Registration, i.registrationDeadline,
                                 i.roundTemplateHash, 0, ZERO, 0, 0, ZERO))])
  {
    assert Process(l, e) == Open(l, e.call, e.ins);
  }

  lemma RegistersOnExactly(l: Ledger, e: Event)
    requires e.ins.RegisterTransparent?
    ensures var c, i := e.call, e.ins;
            && (Succeeds(l, e) <==>
                && Reads(l, c) && l[c.round].round.pool == c.pool && l[c.pool].pool.backend == TransparentRegistry
                && l[c.round].round.state in {Registration, ThresholdReached}
                && c.slot < l[c.round].round.registrationDeadline
                && l[c.round].round.acceptedCount < l[c.pool].pool.maxParticipants
                && c.derives && c.record == RecordPda(c.round, i.coordinationKey, i.recordBump)
                && c.record !in l && c.creates)
            && (Succeeds(l, e) ==>
                var r, n := l[c.round].round, l[c.round].round.acceptedCount + 1;
                Step(l, e) == l[c.record := RecordData(ParticipantRecord(1, i.recordBump, c.round, i.coordinationKey))]
                               [c.round := RoundData(r.(acceptedCount := n,
                                 state := if n >= l[c.pool].pool.minParticipants then ThresholdReached else r.state))])
  {
    assert Process(l, e) == Register(l, e.call, e.ins);
  }

  lemma PublishesExactly(l: Ledger, e: Event)
    requires e.ins.PublishCohortRoot?
    ensures var c, i := e.call, e.ins;
            && (Succeeds(l, e) <==>
                && Reads(l, c) && l[c.round].round.pool == c.pool && l[c.pool].pool.authority == c.authority
                && l[c.pool].pool.backend == MerkleCohort && l[c.round].round.state == Registration
                && l[c.pool].pool.minParticipants <= i.acceptedCount <= l[c.pool].pool.maxParticipants
                && i.root != ZERO && l[c.round].round.cohortRoot == ZERO)
            && (Succeeds(l, e) ==>
                Step(l, e) == l[c.round := RoundData(l[c.round].round.(
                  cohortRoot := i.root, acceptedCount := i.acceptedCount, state := ThresholdReached))])
  {
    assert Process(l, e) == Admin(l, e.call, e.ins);
  }

  lemma SealsExactly(l: Ledger, e: Event)
    requires e.ins.SealRound?
    ensures var c := e.call;
            && (Succeeds(l, e) <==>
                && Reads(l, c) && l[c.round].round.pool == c.pool && l[c.pool].pool.authority == c.authority
                && l[c.round].round.state == ThresholdReached
                && l[c.pool].pool.minParticipants <= l[c.round].round.acceptedCount)
            && (Succeeds(l, e) ==> Step(l, e) == l[c.round := RoundData(l[c.round].round.(state := Sealed))])
  {
    assert Process(l, e) == Admin(l, e.call, e.ins);
  }

  lemma SchedulesExactly(l: Ledger, e: Event)
    requires e.ins.ScheduleRelease?
    ensures var c, t := e.call, e.ins.releaseSlot;
            && (Succeeds(l, e) <==>
                && Reads(l, c) && l[c.pool].pool.authority == c.authority
                && l[c.round].round.state == Sealed && l[c.round].round.releaseSlot == 0
                && c.slot + l[c.pool].pool.minReleaseDelay <= t <= c.slot + l[c.pool].pool.maxReleaseDelay
                && t + l[c.pool].pool.executionWindow <= 0xFFFF_FFFF_FFFF_FFFF)
            && (Succeeds(l, e) ==>
                Step(l, e) == l[c.round := RoundData(l[c.round].round.(
                  releaseSlot := t, windowEndSlot := t + l[c.pool].pool.executionWindow, state := ReleaseScheduled))])
  {
    assert Process(l, e) == Admin(l, e.call, e.ins);
  }

  lemma BeginsExactly(l: Ledger, e: Event)
    requires e.ins.BeginExecutionWindow?
    ensures var c := e.call;
            && (Succeeds(l, e) <==>
                && IsRound(l, c.round) && l[c.round].round.state == ReleaseScheduled
                && l[c.round].round.releaseSlot <= c.slot <= l[c.round].round.windowEndSlot)
            && (Succeeds(l, e) ==> Step(l, e) == l[c.round := RoundData(l[c.round].round.(state := ExecutionWindow))])
  {
    assert Process(l, e) == Begin(l, e.call);
  }

  lemma FinalizesExactly(l: Ledger, e: Event)
    requires e.ins.FinalizeRound?
    ensures var c, m := e.call, e.ins.metricsHash;
            && (Succeeds(l, e) <==>
                && Reads(l, c) && l[c.pool].pool.authority == c.authority
                && l[c.round].round.state == ExecutionWindow && l[c.round].round.windowEndSlot < c.slot && m != ZERO)
            && (Succeeds(l, e) ==>
                Step(l, e) == l[c.round := RoundData(l[c.round].round.(metricsHash := m, state := Completed))])
  {
    assert Process(l, e) == Admin(l, e.call, e.ins);
  }

  lemma CancelsExactly(l: Ledger, e: Event)
    requires e.ins.CancelRound?
    ensures var c := e.call;
            && (Succeeds(l, e) <==>
                && Reads(l, c) && l[c.pool].pool.authority == c.authority
                && l[c.round].round.state !in {Completed, Cancelled, Expired})
            && (Succeeds(l, e) ==> Step(l, e) == l[c.round := RoundData(l[c.round].round.(state := Cancelled))])
  {
    assert Process(l, e) == Admin(l, e.call, e.ins);
  }

  lemma ClosesExactly(l: Ledger, e: Event)
    requires e.ins.CloseRound?
    ensures var c := e.call;
            && (Succeeds(l, e) <==>
                && Reads(l, c) && l[c.pool].pool.authority == c.authority && c.writable && c.credits
                && l[c.round].round.state in {Completed, Cancelled, Expired})
            && (Succeeds(l, e) ==> Step(l, e) == l - {c.round})
  {
    assert Process(l, e) == Close(l, e.call);
  }

  // ---------- on a ledger in order ----------

  /** A call on a live round that names its own pool and is signed by that pool's authority. */
  predicate ByOwner(l: Ledger, c: Call) {
    Reads(l, c) && l[c.round].round.pool == c.pool && l[c.pool].pool.authority == c.authority
  }

  /**
   For the owner of a live round: publication takes exactly a Merkle round in registration, a count
   between the bounds and a nonzero root; sealing exactly a round at its threshold; scheduling exactly a
   sealed round and a release within the delays.
   */
  lemma OwnerSucceeds(l: Ledger, e: Event)
    requires WellFormed(l) && ByOwner(l, e.call)
    ensures var p, r := l[e.call.pool].pool, l[e.call.round].round;
            && (e.ins.PublishCohortRoot? ==>
                (Succeeds(l, e) <==>
                 && p.backend == MerkleCohort && r.state == Registration
                 && p.minParticipants <= e.ins.acceptedCount <= p.maxParticipants && e.ins.root != ZERO))
            && (e.ins.SealRound? ==> (Succeeds(l, e) <==> r.state == ThresholdReached))
            && (e.ins.ScheduleRelease? ==>
                (Succeeds(l, e) <==>
                 && r.state == Sealed
                 && e.call.slot + p.minReleaseDelay <= e.ins.releaseSlot <= e.call.slot + p.maxReleaseDelay
                 && e.ins.releaseSlot + p.executionWindow <= 0xFFFF_FFFF_FFFF_FFFF))
  {
    assert AccountOk(l, e.call.round);
    if e.ins.PublishCohortRoot? { PublishesExactly(l, e); }
    if e.ins.SealRound? { SealsExactly(l, e); }
    if e.ins.ScheduleRelease? { SchedulesExactly(l, e); }
  }

  /** The next round of a pool opens for its authority exactly when its deadline is ahead and numbers are left. */
  lemma OwnerOpens(l: Ledger, e: Event)
    requires WellFormed(l) && e.ins.OpenRound? && IsPool(l, e.call.pool)
    requires var c, i, p := e.call, e.ins, l[e.call.pool].pool;
             && c.signed && c.authority == p.authority && c.derives && c.creates
             && i.roundId == p.nextRound && i.roundTemplateHash == p.templateHash
             && c.round == RoundPda(c.pool, i.roundId, i.roundBump)
    ensures Succeeds(l, e) <==> e.call.slot < e.ins.registrationDeadline && e.ins.roundId < 0xFFFF_FFFF_FFFF_FFFF
  {
    OpensExactly(l, e);
    PoolInOrder(l, e.call.pool);
    NextIsUnused(l, e.call.pool, e.ins.roundBump);
  }

  /** There is no account yet at a pool's next round number. */
  lemma NextIsUnused(l: Ledger, pool: Address, bump: Byte)
    requires WellFormed(l) && IsPool(l, pool)
    ensures RoundPda(pool, l[pool].pool.nextRound, bump) !in l
  {
    var a := RoundPda(pool, l[pool].pool.nextRound, bump);
    assert a in l ==> AccountOk(l, a);
  }

  // ---------- errors ----------

  /** The order of the checks shared by administrative instructions and closing. */
  lemma AccountErrors(l: Ledger, e: Event)
    requires Administers(e.ins) || e.ins.CloseRound?
    ensures var c := e.call; var there := c.pool in l && c.round in l;
            && (Process(l, e) == Err(MissingSignature) <==> !c.signed)
            && (Process(l, e) == Err(IllegalOwner) <==> c.signed && !there)
            && (Process(l, e) == Err(InvalidAccountData) <==> c.signed && there && !Reads(l, c))
  {
  }

  /** And what they answer once both accounts have been read. */
  lemma GuardErrors(l: Ledger, e: Event)
    requires (Administers(e.ins) || e.ins.CloseRound?) && Reads(l, e.call) && !Succeeds(l, e)
    ensures e.ins.ScheduleRelease? ==> Process(l, e).error in {InvalidTiming, Overflow}
    ensures !e.ins.ScheduleRelease? && !e.ins.CloseRound? ==> Process(l, e).error == InvalidState
    ensures e.ins.CloseRound? ==> Process(l, e).error in {InvalidState, Overflow}
  {
  }

  /** Overflow is the last thing scheduling and closing check. */
  lemma OverflowErrors(l: Ledger, e: Event)
    requires Reads(l, e.call)
    ensures var c, p, r := e.call, l[e.call.pool].pool, l[e.call.round].round;
            && (e.ins.ScheduleRelease? ==>
                (Process(l, e) == Err(Overflow) <==>
                 && p.authority == c.authority && r.state == Sealed && r.releaseSlot == 0
                 && c.slot + p.minReleaseDelay <= e.ins.releaseSlot <= c.slot + p.maxReleaseDelay
                 && e.ins.releaseSlot + p.executionWindow > 0xFFFF_FFFF_FFFF_FFFF))
            && (e.ins.CloseRound? ==>
                (Process(l, e) == Err(Overflow) <==>
                 p.authority == c.authority && r.state in {Completed, Cancelled, Expired} && c.writable && !c.credits))
  {
  }

  lemma InitializeErrors(l: Ledger, e: Event)
    requires e.ins.InitializePool?
    ensures var c, i := e.call, e.ins;
            var policy := 2 <= i.minParticipants <= i.maxParticipants <= 100_000
                          && i.executionWindow > 0 && i.minReleaseDelay <= i.maxReleaseDelay;
            var derived := c.derives && c.pool == PoolPda(i.poolId, i.bump);
            && (Process(l, e) == Err(InvalidPolicy) <==> !policy)
            && (Process(l, e) == Err(MissingSignature) <==> policy && !c.signed)
            && (Process(l, e) == Err(InvalidPda) <==> policy && c.signed && !derived)
            && (Process(l, e) == Err(AlreadyInitialized) <==> policy && c.signed && derived && c.pool in l)
            && (Process(l, e) == Err(IllegalOwner) <==> policy && c.signed && derived && c.pool !in l && !c.creates)
  {
  }

  lemma OpenErrors(l: Ledger, e: Event)
    requires e.ins.OpenRound? && e.call.signed
    ensures var c, i := e.call, e.ins;
            && (c.pool !in l ==> Process(l, e) == Err(IllegalOwner))
            && (c.pool in l && !IsPool(l, c.pool) ==> Process(l, e) == Err(InvalidAccountData))
            && (IsPool(l, c.pool) ==>
                var p := l[c.pool].pool;
                var mine := p.authority == c.authority && !p.paused && p.nextRound == i.roundId && p.templateHash == i.roundTemplateHash;
                var timely := c.slot < i.registrationDeadline;
                var derived := c.derives && c.round == RoundPda(c.pool, i.roundId, i.roundBump);
                && (Process(l, e) == Err(Unauthorized) <==> !mine)
                && (Process(l, e) == Err(InvalidTiming) <==> mine && !timely)
                && (Process(l, e) == Err(InvalidPda) <==> mine && timely && !derived)
                && (Process(l, e) == Err(AlreadyInitialized) <==> mine && timely && derived && c.round in l)
                && (Process(l, e) == Err(IllegalOwner) <==> mine && timely && derived && c.round !in l && !c.creates)
                && (Process(l, e) == Err(Overflow) <==>
                    mine && timely && derived && c.round !in l && c.creates && p.nextRound == 0xFFFF_FFFF_FFFF_FFFF))
  {
    assert Process(l, e) == Open(l, e.call, e.ins);
  }

  lemma RegisterErrors(l: Ledger, e: Event)
    requires e.ins.RegisterTransparent? && Reads(l, e.call)
    ensures var c, i, p, r := e.call, e.ins, l[e.call.pool].pool, l[e.call.round].round;
            var open := p.backend == TransparentRegistry && r.pool == c.pool && r.state in {Registration, ThresholdReached}
                        && c.slot < r.registrationDeadline && r.acceptedCount < p.maxParticipants;
            var derived := c.derives && c.record == RecordPda(c.round, i.coordinationKey, i.recordBump);
            && (Process(l, e) == Err(InvalidState) <==> !open)
            && (Process(l, e) == Err(InvalidPda) <==> open && !derived)
            && (Process(l, e) == Err(AlreadyInitialized) <==> open && derived && c.record in l)
            && (Process(l, e) == Err(IllegalOwner) <==> open && derived && c.record !in l && !c.creates)
  {
    assert Process(l, e) == Register(l, e.call, e.ins);
  }

  lemma BeginErrors(l: Ledger, e: Event)
    requires e.ins.BeginExecutionWindow?
    ensures Process(l, e) == Err(IllegalOwner) <==> e.call.round !in l
    ensures Process(l, e) == Err(InvalidAccountData) <==> e.call.round in l && !IsRound(l, e.call.round)
    ensures IsRound(l, e.call.round) && !Succeeds(l, e) ==> Process(l, e) == Err(InvalidTiming)
  {
  }
}
