/**
 What the on-chain handlers decide from the accounts they have read: which call is refused, and how a
 pool or round changes. Generic in the key type, so that the same decisions serve the ledger of typed
 accounts and the ledger of account bytes.
 */
module Handlers {
  import opened Bytes
  import opened Accounts

  datatype ProgramError =
    | MissingSignature | IllegalOwner | InvalidAccountData | AlreadyInitialized | AccountDataTooSmall
    | InvalidPolicy | InvalidPda | Unauthorized | InvalidTiming | InvalidState | Overflow

  predicate PolicyOk(min: U32, max: U32, minDelay: U64, maxDelay: U64, window: U64) {
    2 <= min <= max <= MAX_COHORT_SIZE && window != 0 && minDelay <= maxDelay
  }

  /** The instructions that read a pool and a round and rewrite the round. */
  predicate Administers(i: Instruction) {
    i.PublishCohortRoot? || i.SealRound? || i.ScheduleRelease? || i.FinalizeRound? || i.CancelRound?
  }

  function NewPool<K>(authority: K, i: Instruction): PoolAccount<K>
    requires i.InitializePool?
  {
    PoolAccount(1, i.bump, authority, i.poolId, i.templateHash, i.minParticipants, i.maxParticipants,
                i.minReleaseDelay, i.maxReleaseDelay, i.executionWindow, i.backend, 0, false)
  }

  function NewRound<K>(pool: K, i: Instruction): RoundAccount<K>
    requires i.OpenRound?
  {
    RoundAccount(1, i.roundBump, pool, i.roundId, Registration, i.registrationDeadline,
                 i.roundTemplateHash, 0, ZERO, 0, 0, ZERO)
  }

  function OpenRefusal<K(==)>(p: PoolAccount<K>, authority: K, slot: U64, i: Instruction): Option<ProgramError>
    requires i.OpenRound?
  {
    if p.authority != authority || p.paused || p.nextRound != i.roundId || p.templateHash != i.roundTemplateHash
    then Some(Unauthorized)
    else if i.registrationDeadline <= slot then Some(InvalidTiming)
    else None
  }

  predicate RegisterAllowed<K(==)>(p: PoolAccount<K>, r: RoundAccount<K>, pool: K, slot: U64) {
    p.backend == TransparentRegistry && r.pool == pool
    && (r.state == Registration || r.state == ThresholdReached)
    && slot < r.registrationDeadline && r.acceptedCount < p.maxParticipants
  }

  function OneMore<K>(p: PoolAccount<K>, r: RoundAccount<K>): RoundAccount<K>
    requires r.acceptedCount < U32_MAX
  {
    var n := r.acceptedCount + 1;
    r.(acceptedCount := n, state := if n >= p.minParticipants then ThresholdReached else r.state)
  }

  /** The round after an administrative instruction, or why it is refused. */
  function Administered<K(==)>(p: PoolAccount<K>, r: RoundAccount<K>, authority: K, pool: K, slot: U64, i: Instruction)
    : Result<RoundAccount<K>, ProgramError>
    requires Administers(i)
  {
    match i
    case PublishCohortRoot(root, count) =>
      if p.backend != MerkleCohort || r.pool != pool || r.state != Registration
         || count < p.minParticipants || count > p.maxParticipants
         || root == ZERO || r.cohortRoot != ZERO || p.authority != authority
      then Err(InvalidState)
      else Ok(r.(cohortRoot := root, acceptedCount := count, state := ThresholdReached))
    case SealRound =>
      if p.authority != authority || r.pool != pool || r.state != ThresholdReached
         || r.acceptedCount < p.minParticipants
      then Err(InvalidState)
      else Ok(r.(state := Sealed))
    case ScheduleRelease(release) =>
      if release < slot then Err(InvalidTiming)
      else if p.authority != authority || r.state != Sealed || r.releaseSlot != 0
              || release - slot < p.minReleaseDelay || release - slot > p.maxReleaseDelay
      then Err(InvalidTiming)
      else if release + p.executionWindow > U64_MAX then Err(Overflow)
      else Ok(r.(releaseSlot := release, windowEndSlot := release + p.executionWindow, state := ReleaseScheduled))
    case FinalizeRound(metrics) =>
      if p.authority != authority || r.state != ExecutionWindow || slot <= r.windowEndSlot || metrics == ZERO
      then Err(InvalidState)
      else Ok(r.(metricsHash := metrics, state := Completed))
    case CancelRound =>
      if p.authority != authority || (r.state == Completed || r.state == Cancelled || r.state == Expired)
      then Err(InvalidState)
      else Ok(r.(state := Cancelled))
  }

  predicate BeginAllowed<K>(r: RoundAccount<K>, slot: U64) {
    r.state == ReleaseScheduled && r.releaseSlot <= slot <= r.windowEndSlot
  }

  function CloseRefusal<K(==)>(p: PoolAccount<K>, r: RoundAccount<K>, authority: K, writable: bool, credits: bool)
    : Option<ProgramError>
  {
    if p.authority != authority || (r.state != Completed && r.state != Cancelled && r.state != Expired) || !writable
    then Some(InvalidState)
    else if !credits then Some(Overflow)
    else None
  }
}
