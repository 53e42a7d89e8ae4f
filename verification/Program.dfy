/**
 The on-chain handlers as the program runs them: read accounts, check, create, update fields, write
 back. A handler can fail after the account it creates has been allocated; the runtime's rollback is in
 `ProcessInstruction`.
 */
module Program {
  import opened Bytes
  import opened Accounts
  import opened Handlers
  import opened Ledger
  import opened LedgerInvariant

  type Status = Result<(), ProgramError>

  class Coordination {
    var accounts: Ledger

    /** Accounts allocated for the program whose bytes are still zero. */
    var blank: set<Address>

    constructor ()
      ensures accounts == map[] && Valid()
    {
      accounts, blank := map[], {};
    }

    /** What holds between instructions: the ledger is in order and nothing is left half created. */
    ghost predicate Valid()
      reads this
    {
      WellFormed(accounts) && Conserved(accounts) && blank == {}
    }

    /** What a handler must have done, given what the specification says of the old accounts. */
    ghost predicate Matches(r: Status, spec: Outcome)
      reads this
    {
      if r.Ok? then spec == Ok(accounts) else spec == Err(r.error)
    }

    /**
     A live account is refused, an owned account that is still zero is taken as it is, and otherwise the
     system program allocates one.
     */
    method CreatePdaAccount(c: Call, a: Address) returns (r: Status)
      modifies this`blank
      ensures a in old(blank) && a !in accounts ==> r.Ok?
      ensures a !in old(blank) ==> r == match CreateErrors(accounts, c, a) case Some(e) => Err(e) case None => Ok(())
      ensures blank == if r.Ok? then old(blank) + {a} else old(blank)
    {
      if a in accounts {
        return Err(AlreadyInitialized);
      }
      if a in blank {
        return Ok(());
      }
      if !c.creates {
        return Err(IllegalOwner);
      }
      blank := blank + {a};
      return Ok(());
    }

    /** Bytes are written to an account that is there. */
    method WriteAccount(a: Address, value: Account)
      requires a in accounts || a in blank
      modifies this
      ensures accounts == old(accounts)[a := value] && blank == old(blank) - {a}
    {
      accounts := accounts[a := value];
      blank := blank - {a};
    }

    method AdminAccounts(c: Call) returns (r: Result<(Pool, Round), ProgramError>)
      ensures match ReadErrors(accounts, c)
              case Some(e) => r == Err(e)
              case None => r == Ok((accounts[c.pool].pool, accounts[c.round].round))
    {
      if !c.signed {
        return Err(MissingSignature);
      }
      if c.pool !in accounts || c.round !in accounts {
        return Err(IllegalOwner);
      }
      var pool, round := accounts[c.pool], accounts[c.round];
      if !pool.PoolData? || !round.RoundData? {
        return Err(InvalidAccountData);
      }
      return Ok((pool.pool, round.round));
    }

    method InitializePool(c: Call, i: Instruction) returns (r: Status)
      requires i.InitializePool?
      requires Valid()
      modifies this
      ensures Matches(r, Initialize(old(accounts), c, i))
      ensures r.Ok? ==> Valid()
    {
      if i.minParticipants < 2 || i.minParticipants > i.maxParticipants || i.maxParticipants > MAX_COHORT_SIZE
         || i.executionWindow == 0 || i.minReleaseDelay > i.maxReleaseDelay {
        return Err(InvalidPolicy);
      }
      if !c.signed {
        return Err(MissingSignature);
      }
      if !c.derives || PoolPda(i.poolId, i.bump) != c.pool {
        return Err(InvalidPda);
      }
      r := CreatePdaAccount(c, c.pool);
      if r.Err? {
        return;
      }
      var pool := PoolAccount(
        1, i.bump, c.authority, i.poolId, i.templateHash, i.minParticipants, i.maxParticipants,
        i.minReleaseDelay, i.maxReleaseDelay, i.executionWindow, i.backend, 0, false);
      WriteAccount(c.pool, PoolData(pool));
      InitializeKeeps(old(accounts), c, i, accounts);
    }

    method OpenRound(c: Call, i: Instruction) returns (r: Status)
      requires i.OpenRound?
      requires Valid()
      modifies this
      ensures Matches(r, Open(old(accounts), c, i))
      ensures blank == if r == Err(Overflow) then {c.round} else {}
      ensures r.Ok? ==> Valid()
    {
      if !c.signed {
        return Err(MissingSignature);
      }
      if c.pool !in accounts {
        return Err(IllegalOwner);
      }
      if !accounts[c.pool].PoolData? {
        return Err(InvalidAccountData);
      }
      var pool := accounts[c.pool].pool;
      if pool.authority != c.authority || pool.paused || pool.nextRound != i.roundId
         || pool.templateHash != i.roundTemplateHash {
        return Err(Unauthorized);
      }
      if i.registrationDeadline <= c.slot {
        return Err(InvalidTiming);
      }
      if !c.derives || RoundPda(c.pool, i.roundId, i.roundBump) != c.round {
        return Err(InvalidPda);
      }
      r := CreatePdaAccount(c, c.round);
      if r.Err? {
        return;
      }
      var round := FreshRound(c.pool, i);
      if pool.nextRound == U64_MAX {
        return Err(Overflow);
      }
      pool := pool.(nextRound := pool.nextRound + 1);
      WriteAccount(c.pool, PoolData(pool));
      WriteAccount(c.round, RoundData(round));
      OpenKeeps(old(accounts), c, i, accounts);
    }

    method RegisterTransparent(c: Call, i: Instruction) returns (r: Status)
      requires i.RegisterTransparent?
      requires Valid()
      modifies this
      ensures Matches(r, Register(old(accounts), c, i))
      ensures r.Ok? ==> Valid()
    {
      var read := AdminAccounts(c);
      if read.Err? {
        return Err(read.error);
      }
      var (pool, round) := read.value;
      if pool.backend != TransparentRegistry || round.pool != c.pool
         || !(round.state.Registration? || round.state.ThresholdReached?)
         || c.slot >= round.registrationDeadline || round.acceptedCount >= pool.maxParticipants {
        return Err(InvalidState);
      }
      if !c.derives || RecordPda(c.round, i.coordinationKey, i.recordBump) != c.record {
        return Err(InvalidPda);
      }
      r := CreatePdaAccount(c, c.record);
      if r.Err? {
        return;
      }
      round := round.(acceptedCount := round.acceptedCount + 1);
      if round.acceptedCount >= pool.minParticipants {
        round := round.(state := ThresholdReached);
      }
      WriteAccount(c.record, RecordData(ParticipantRecord(1, i.recordBump, c.round, i.coordinationKey)));
      WriteAccount(c.round, RoundData(round));
      RegisterKeeps(old(accounts), c, i, accounts);
    }

    method PublishRoot(c: Call, root: Digest, count: U32) returns (r: Status)
      requires Valid()
      modifies this
      ensures Matches(r, Admin(old(accounts), c, PublishCohortRoot(root, count)))
      ensures r.Ok? ==> Valid()
    {
      var read := AdminAccounts(c);
      if read.Err? {
        return Err(read.error);
      }
      var (pool, round) := read.value;
      if pool.backend != MerkleCohort || round.pool != c.pool || round.state != Registration
         || count < pool.minParticipants || count > pool.maxParticipants
         || root == ZERO || round.cohortRoot != ZERO || pool.authority != c.authority {
        return Err(InvalidState);
      }
      round := round.(cohortRoot := root);
      round := round.(acceptedCount := count);
      round := round.(state := ThresholdReached);
      assert AdminRound(pool, old(accounts[c.round].round), c, PublishCohortRoot(root, count)) == Ok(round);
      WriteAccount(c.round, RoundData(round));
      AdminKeeps(old(accounts), c, PublishCohortRoot(root, count), accounts);
      return Ok(());
    }

    method Seal(c: Call) returns (r: Status)
      requires Valid()
      modifies this
      ensures Matches(r, Admin(old(accounts), c, SealRound))
      ensures r.Ok? ==> Valid()
    {
      var read := AdminAccounts(c);
      if read.Err? {
        return Err(read.error);
      }
      var (pool, round) := read.value;
      if pool.authority != c.authority || round.pool != c.pool || round.state != ThresholdReached
         || round.acceptedCount < pool.minParticipants {
        return Err(InvalidState);
      }
      round := round.(state := Sealed);
      assert AdminRound(pool, old(accounts[c.round].round), c, SealRound) == Ok(round);
      WriteAccount(c.round, RoundData(round));
      AdminKeeps(old(accounts), c, SealRound, accounts);
      return Ok(());
    }

    method Schedule(c: Call, release: U64) returns (r: Status)
      requires Valid()
      modifies this
      ensures Matches(r, Admin(old(accounts), c, ScheduleRelease(release)))
      ensures r.Ok? ==> Valid()
    {
      var read := AdminAccounts(c);
      if read.Err? {
        return Err(read.error);
      }
      var (pool, round) := read.value;
      if release < c.slot {
        return Err(InvalidTiming);
      }
      var delay := release - c.slot;
      if pool.authority != c.authority || round.state != Sealed || round.releaseSlot != 0
         || delay < pool.minReleaseDelay || delay > pool.maxReleaseDelay {
        return Err(InvalidTiming);
      }
      round := round.(releaseSlot := release);
      if release + pool.executionWindow > U64_MAX {
        return Err(Overflow);
      }
      round := round.(windowEndSlot := release + pool.executionWindow);
      round := round.(state := ReleaseScheduled);
      assert AdminRound(pool, old(accounts[c.round].round), c, ScheduleRelease(release)) == Ok(round);
      WriteAccount(c.round, RoundData(round));
      AdminKeeps(old(accounts), c, ScheduleRelease(release), accounts);
      return Ok(());
    }

    method BeginWindow(c: Call) returns (r: Status)
      requires Valid()
      modifies this
      ensures Matches(r, Begin(old(accounts), c))
      ensures r.Ok? ==> Valid()
    {
      if c.round !in accounts {
        return Err(IllegalOwner);
      }
      if !accounts[c.round].RoundData? {
        return Err(InvalidAccountData);
      }
      var round := accounts[c.round].round;
      if round.state != ReleaseScheduled || c.slot < round.releaseSlot || c.slot > round.windowEndSlot {
        return Err(InvalidTiming);
      }
      round := round.(state := ExecutionWindow);
      WriteAccount(c.round, RoundData(round));
      BeginKeeps(old(accounts), c, accounts);
      return Ok(());
    }

    method Finalize(c: Call, metrics: Digest) returns (r: Status)
      requires Valid()
      modifies this
      ensures Matches(r, Admin(old(accounts), c, FinalizeRound(metrics)))
      ensures r.Ok? ==> Valid()
    {
      var read := AdminAccounts(c);
      if read.Err? {
        return Err(read.error);
      }
      var (pool, round) := read.value;
      if pool.authority != c.authority || round.state != ExecutionWindow || c.slot <= round.windowEndSlot
         || metrics == ZERO {
        return Err(InvalidState);
      }
      round := round.(metricsHash := metrics);
      round := round.(state := Completed);
      assert AdminRound(pool, old(accounts[c.round].round), c, FinalizeRound(metrics)) == Ok(round);
      WriteAccount(c.round, RoundData(round));
      AdminKeeps(old(accounts), c, FinalizeRound(metrics), accounts);
      return Ok(());
    }

    method Cancel(c: Call) returns (r: Status)
      requires Valid()
      modifies this
      ensures Matches(r, Admin(old(accounts), c, CancelRound))
      ensures r.Ok? ==> Valid()
    {
      var read := AdminAccounts(c);
      if read.Err? {
        return Err(read.error);
      }
      var (pool, round) := read.value;
      if pool.authority != c.authority || round.state.Completed? || round.state.Cancelled? || round.state.Expired? {
        return Err(InvalidState);
      }
      round := round.(state := Cancelled);
      assert AdminRound(pool, old(accounts[c.round].round), c, CancelRound) == Ok(round);
      WriteAccount(c.round, RoundData(round));
      AdminKeeps(old(accounts), c, CancelRound, accounts);
      return Ok(());
    }

    method CloseRound(c: Call) returns (r: Status)
      requires Valid()
      modifies this
      ensures Matches(r, Close(old(accounts), c))
      ensures r.Ok? ==> Valid()
    {
      var read := AdminAccounts(c);
      if read.Err? {
        return Err(read.error);
      }
      var (pool, round) := read.value;
      if pool.authority != c.authority || !c.writable
         || !(round.state.Completed? || round.state.Cancelled? || round.state.Expired?) {
        return Err(InvalidState);
      }
      if !c.credits {
        return Err(Overflow);
      }
      accounts := accounts - {c.round};
      CloseKeeps(old(accounts), c, accounts);
      return Ok(());
    }

    /** Each instruction goes to its handler, which may leave an allocated account behind when it fails. */
    method Dispatch(e: Event) returns (r: Status)
      requires Valid()
      modifies this
      ensures Matches(r, Process(old(accounts), e))
      ensures r.Ok? ==> Valid()
    {
      match e.ins {
        case InitializePool(_, _, _, _, _, _, _, _, _) => r := InitializePool(e.call, e.ins);
        case OpenRound(_, _, _, _) => r := OpenRound(e.call, e.ins);
        case RegisterTransparent(_, _) => r := RegisterTransparent(e.call, e.ins);
        case PublishCohortRoot(root, count) => r := PublishRoot(e.call, root, count);
        case SealRound => r := Seal(e.call);
        case ScheduleRelease(release) => r := Schedule(e.call, release);
        case BeginExecutionWindow => r := BeginWindow(e.call);
        case FinalizeRound(metrics) => r := Finalize(e.call, metrics);
        case CancelRound => r := Cancel(e.call);
        case CloseRound => r := CloseRound(e.call);
      }
    }

    /** Dispatch, and commit or roll back as the runtime does. */
    method ProcessInstruction(e: Event) returns (r: Status)
      requires Valid()
      modifies this
      ensures Valid() && accounts == Step(old(accounts), e)
      ensures r.Ok? <==> Succeeds(old(accounts), e)
      ensures r.Err? ==> Process(old(accounts), e) == Err(r.error) && accounts == old(accounts)
    {
      var snapshot, unallocated := accounts, blank;
      r := Dispatch(e);
      if r.Err? {
        accounts, blank := snapshot, unallocated;
      }
    }

    /** A whole run, from an empty ledger: the ledger ends well-formed, with every count conserved. */
    method ProcessAll(run: seq<Event>)
      requires accounts == map[] && Valid()
      modifies this
      ensures Valid() && accounts == After(run, |run|)
    {
      for n := 0 to |run|
        invariant Valid() && accounts == After(run, n)
      {
        var _ := ProcessInstruction(run[n]);
      }
    }
  }
}
