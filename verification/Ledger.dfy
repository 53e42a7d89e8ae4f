/**
 The on-chain program as a state machine over a ledger of typed accounts.

 Premises of the model: an address remembers its derivation, so derivation is injective in its seeds,
 bump included; account bytes are typed; a failed instruction changes nothing; a closed account is
 gone. Each instruction checks exactly what the program checks, in the same order.
 */
module Ledger {
  import opened Bytes
  import opened Accounts
  import opened Handlers

  datatype Address =
    | PoolPda(poolId: Digest, bump: Byte)
    | RoundPda(pool: Address, roundId: U64, bump: Byte)
    | RecordPda(round: Address, key: Digest, bump: Byte)
    | Wallet(id: Digest)

  type Pool = PoolAccount<Address>
  type Round = RoundAccount<Address>
  type Participant = ParticipantRecord<Address>

  datatype Account = PoolData(pool: Pool) | RoundData(round: Round) | RecordData(record: Participant)

  type Ledger = map<Address, Account>

  /**
   The accounts an instruction is given and what the runtime contributes: the slot, whether the seeds
   derive an off-curve address, whether the system program can create the account, and whether the
   authority's balance can take the refunded rent.
   */
  datatype Call = Call(
    authority: Address, signed: bool, writable: bool,
    pool: Address, round: Address, record: Address,
    slot: U64, derives: bool, creates: bool, credits: bool)

  datatype Event = Event(ins: Instruction, call: Call)

  type Outcome = Result<Ledger, ProgramError>

  /** `require_owned` on pool and round, then both reads; runs of checks shared by the handlers. */
  function ReadErrors(l: Ledger, c: Call): Option<ProgramError> {
    if !c.signed then Some(MissingSignature)
    else if c.pool !in l || c.round !in l then Some(IllegalOwner)
    else if !l[c.pool].PoolData? || !l[c.round].RoundData? then Some(InvalidAccountData)
    else None
  }

  /** `create_pda_account`: a live account is already initialised; otherwise the system creates it. */
  function CreateErrors(l: Ledger, c: Call, a: Address): Option<ProgramError> {
    if a in l then Some(AlreadyInitialized)
    else if !c.creates then Some(IllegalOwner)
    else None
  }

  function Initialize(l: Ledger, c: Call, i: Instruction): Outcome
    requires i.InitializePool?
  {
    if !PolicyOk(i.minParticipants, i.maxParticipants, i.minReleaseDelay, i.maxReleaseDelay, i.executionWindow)
    then Err(InvalidPolicy)
    else if !c.signed then Err(MissingSignature)
    else if !c.derives || c.pool != PoolPda(i.poolId, i.bump) then Err(InvalidPda)
    else if CreateErrors(l, c, c.pool).Some? then Err(CreateErrors(l, c, c.pool).value)
    else Ok(l[c.pool := PoolData(NewPool(c.authority, i))])
  }

  function FreshRound(pool: Address, i: Instruction): Round
    requires i.OpenRound?
  {
    NewRound(pool, i)
  }

  function Open(l: Ledger, c: Call, i: Instruction): Outcome
    requires i.OpenRound?
  {
    if !c.signed then Err(MissingSignature)
    else if c.pool !in l then Err(IllegalOwner)
    else if !l[c.pool].PoolData? then Err(InvalidAccountData)
    else
      var p := l[c.pool].pool;
      if OpenRefusal(p, c.authority, c.slot, i).Some? then Err(OpenRefusal(p, c.authority, c.slot, i).value)
      else if !c.derives || c.round != RoundPda(c.pool, i.roundId, i.roundBump) then Err(InvalidPda)
      else if CreateErrors(l, c, c.round).Some? then Err(CreateErrors(l, c, c.round).value)
      else if p.nextRound == U64_MAX then Err(Overflow)
      else Ok(l[c.pool := PoolData(p.(nextRound := p.nextRound + 1))]
               [c.round := RoundData(FreshRound(c.pool, i))])
  }

  function Register(l: Ledger, c: Call, i: Instruction): Outcome
    requires i.RegisterTransparent?
  {
    if ReadErrors(l, c).Some? then Err(ReadErrors(l, c).value)
    else
      var p, r := l[c.pool].pool, l[c.round].round;
      if !RegisterAllowed(p, r, c.pool, c.slot) then Err(InvalidState)
      else if !c.derives || c.record != RecordPda(c.round, i.coordinationKey, i.recordBump) then Err(InvalidPda)
      else if CreateErrors(l, c, c.record).Some? then Err(CreateErrors(l, c, c.record).value)
      else if r.acceptedCount == U32_MAX then Err(Overflow)
      else
        Ok(l[c.record := RecordData(ParticipantRecord(1, i.recordBump, c.round, i.coordinationKey))]
            [c.round := RoundData(OneMore(p, r))])
  }

  /** The round after an administrative instruction, or why it is refused. */
  function AdminRound(p: Pool, r: Round, c: Call, i: Instruction): Result<Round, ProgramError>
    requires Administers(i)
  {
    Administered(p, r, c.authority, c.pool, c.slot, i)
  }

  function Admin(l: Ledger, c: Call, i: Instruction): Outcome
    requires Administers(i)
  {
    if ReadErrors(l, c).Some? then Err(ReadErrors(l, c).value)
    else
      match AdminRound(l[c.pool].pool, l[c.round].round, c, i)
      case Err(e) => Err(e)
      case Ok(r) => Ok(l[c.round := RoundData(r)])
  }

  /** Anyone may open the execution window once the slot is inside it. */
  function Begin(l: Ledger, c: Call): Outcome {
    if c.round !in l then Err(IllegalOwner)
    else if !l[c.round].RoundData? then Err(InvalidAccountData)
    else
      var r := l[c.round].round;
      if !BeginAllowed(r, c.slot) then Err(InvalidTiming)
      else Ok(l[c.round := RoundData(r.(state := ExecutionWindow))])
  }

  function Close(l: Ledger, c: Call): Outcome {
    if ReadErrors(l, c).Some? then Err(ReadErrors(l, c).value)
    else
      var refused := CloseRefusal(l[c.pool].pool, l[c.round].round, c.authority, c.writable, c.credits);
      if refused.Some? then Err(refused.value) else Ok(l - {c.round})
  }

  /** `process_instruction` on a decoded instruction. */
  function Process(l: Ledger, e: Event): Outcome {
    match e.ins
    case InitializePool(_, _, _, _, _, _, _, _, _) => Initialize(l, e.call, e.ins)
    case OpenRound(_, _, _, _) => Open(l, e.call, e.ins)
    case RegisterTransparent(_, _) => Register(l, e.call, e.ins)
    case PublishCohortRoot(_, _) => Admin(l, e.call, e.ins)
    case SealRound => Admin(l, e.call, e.ins)
    case ScheduleRelease(_) => Admin(l, e.call, e.ins)
    case BeginExecutionWindow => Begin(l, e.call)
    case FinalizeRound(_) => Admin(l, e.call, e.ins)
    case CancelRound => Admin(l, e.call, e.ins)
    case CloseRound => Close(l, e.call)
  }

  predicate Succeeds(l: Ledger, e: Event) {
    Process(l, e).Ok?
  }

  /** The runtime commits a successful instruction and discards a failed one. */
  function Step(l: Ledger, e: Event): Ledger {
    if Process(l, e).Ok? then Process(l, e).value else l
  }

  /** The ledger after the first `n` instructions of a run that starts with no accounts. */
  function After(run: seq<Event>, n: nat): Ledger
    requires n <= |run|
  {
    if n == 0 then map[] else Step(After(run, n - 1), run[n - 1])
  }

  predicate IsPool(l: Ledger, a: Address) { a in l && l[a].PoolData? }

  predicate IsRound(l: Ledger, a: Address) { a in l && l[a].RoundData? }
}
