/**
 The program on account bytes. An account is a buffer; a handler reads buffers, decides, and writes
 buffers back, and nothing in a buffer says which type it holds. The lemmas relate this machine to the
 ledger of typed accounts: they agree, step by step and over runs, as long as every pool id's ninth byte
 is at least nine and no derived address signs -- and the first condition is needed.
 */
module ByteLedger {
  import opened Bytes
  import opened Accounts
  import opened Handlers
  import opened Ledger
  import opened Codec
  import opened AccountTypes
  import opened AccountMisreads

  /**
   What the program is given: the 32 bytes of each address, and how accounts are read from and written
   to bytes. The program's own reading and writing is `Real`; what the machine needs of it is `Lawful`.
   */
  datatype Wire = Wire(
    key: Address -> Key,
    readPool: seq<Byte> -> Option<PoolAccount<Key>>,
    readRound: seq<Byte> -> Option<RoundAccount<Key>>,
    pool: PoolAccount<Key> -> seq<Byte>,
    round: RoundAccount<Key> -> seq<Byte>,
    record: ParticipantRecord<Key> -> seq<Byte>)
  {
    ghost predicate Real() {
      && (forall b :: readPool(b) == ReadPool(b)) && (forall b :: readRound(b) == ReadRound(b))
      && (forall p :: pool(p) == PoolBytes(p)) && (forall r :: round(r) == RoundBytes(r))
      && (forall r :: record(r) == RecordBytes(r))
    }

    /**
     A pool is read back. It reads as a round exactly when its id's ninth byte is below nine: a round in
     the state that byte names, which, cancelled and written back, is the pool with that byte seven.
     */
    ghost predicate PoolLaw(p: PoolAccount<Key>) {
      |pool(p)| <= POOL_ACCOUNT_SIZE &&
      var b := Filled(pool(p), POOL_ACCOUNT_SIZE);
      && b[0] == p.version && readPool(b) == Some(p)
      && (readRound(b).Some? <==> p.poolId.bytes[8] < 9)
      && (readRound(b).Some? ==> Misreads(p, readRound(b).value))
    }

    ghost predicate Misreads(p: PoolAccount<Key>, r: RoundAccount<Key>) {
      && r.state == StateOf(p.poolId.bytes[8])
      && |round(r.(state := Cancelled))| <= POOL_ACCOUNT_SIZE && |pool(Renamed(p))| <= POOL_ACCOUNT_SIZE
      && Filled(round(r.(state := Cancelled)), POOL_ACCOUNT_SIZE) == Filled(pool(Renamed(p)), POOL_ACCOUNT_SIZE)
    }

    /** A round is read back, and if it reads as a pool its authority is the round's pool. */
    ghost predicate RoundLaw(r: RoundAccount<Key>) {
      |round(r)| <= ROUND_ACCOUNT_SIZE &&
      var b := Filled(round(r), ROUND_ACCOUNT_SIZE);
      && b[0] == r.version && readRound(b) == Some(r)
      && (readPool(b).Some? ==> readPool(b).value.authority == r.pool)
    }

    /** A record reads as neither. */
    ghost predicate RecordLaw(r: ParticipantRecord<Key>) {
      |record(r)| <= RECORD_ACCOUNT_SIZE &&
      var b := Filled(record(r), RECORD_ACCOUNT_SIZE);
      b[0] == r.version && readPool(b) == None && readRound(b) == None
    }

    ghost predicate Lawful() {
      && (forall p {:trigger PoolLaw(p)} :: PoolLaw(p))
      && (forall r {:trigger RoundLaw(r)} :: RoundLaw(r))
      && (forall r {:trigger RecordLaw(r)} :: RecordLaw(r))
    }
  }

  /** An encoding followed by zeros. */
  function Filled(bytes: seq<Byte>, size: nat): (b: seq<Byte>)
    requires |bytes| <= size
    ensures |b| == size
  {
    bytes + Zeros(size - |bytes|)
  }

  type Buffers = map<Address, seq<Byte>>

  type ByteOutcome = Result<Buffers, ProgramError>

  // ---------- the machine ----------

  /** `create_pda_account`: an owned account must still be zero; otherwise the system allocates one. */
  function Created(b: Buffers, c: Call, a: Address, size: nat): ByteOutcome {
    if a in b then if b[a] != [] && b[a][0] != 0 then Err(AlreadyInitialized) else Ok(b)
    else if !c.creates then Err(IllegalOwner)
    else Ok(b[a := Zeros(size)])
  }

  /** `write_account`: the encoding, then zeros to the end of the buffer. */
  function Written(b: Buffers, a: Address, bytes: seq<Byte>): ByteOutcome
    requires a in b
  {
    if |bytes| > |b[a]| then Err(AccountDataTooSmall) else Ok(b[a := Filled(bytes, |b[a]|)])
  }

  /** `admin_accounts` and both reads. */
  function ReadBoth(w: Wire, b: Buffers, c: Call): Result<(PoolAccount<Key>, RoundAccount<Key>), ProgramError> {
    if !c.signed then Err(MissingSignature)
    else if c.pool !in b || c.round !in b then Err(IllegalOwner)
    else if w.readPool(b[c.pool]).None? || w.readRound(b[c.round]).None? then Err(InvalidAccountData)
    else Ok((w.readPool(b[c.pool]).value, w.readRound(b[c.round]).value))
  }

  function InitializeBytes(w: Wire, b: Buffers, c: Call, i: Instruction): ByteOutcome
    requires i.InitializePool?
  {
    if !PolicyOk(i.minParticipants, i.maxParticipants, i.minReleaseDelay, i.maxReleaseDelay, i.executionWindow)
    then Err(InvalidPolicy)
    else if !c.signed then Err(MissingSignature)
    else if !c.derives || c.pool != PoolPda(i.poolId, i.bump) then Err(InvalidPda)
    else
      match Created(b, c, c.pool, POOL_ACCOUNT_SIZE)
      case Err(e) => Err(e)
      case Ok(b1) => Written(b1, c.pool, w.pool(NewPool(w.key(c.authority), i)))
  }

  /** Opening writes the pool, then the round. */
  function Opened(b: Buffers, c: Call, pool: seq<Byte>, round: seq<Byte>): ByteOutcome
    requires c.pool in b && c.round in b
  {
    match Written(b, c.pool, pool)
    case Err(e) => Err(e)
    case Ok(b1) => Written(b1, c.round, round)
  }

  function OpenBytes(w: Wire, b: Buffers, c: Call, i: Instruction): ByteOutcome
    requires i.OpenRound?
  {
    if !c.signed then Err(MissingSignature)
    else if c.pool !in b then Err(IllegalOwner)
    else
      match w.readPool(b[c.pool])
      case None => Err(InvalidAccountData)
      case Some(p) =>
        if OpenRefusal(p, w.key(c.authority), c.slot, i).Some?
        then Err(OpenRefusal(p, w.key(c.authority), c.slot, i).value)
        else if !c.derives || c.round != RoundPda(c.pool, i.roundId, i.roundBump) then Err(InvalidPda)
        else
          match Created(b, c, c.round, ROUND_ACCOUNT_SIZE)
          case Err(e) => Err(e)
          case Ok(b1) =>
            if p.nextRound == U64_MAX then Err(Overflow)
            else Opened(b1, c, w.pool(p.(nextRound := p.nextRound + 1)), w.round(NewRound(w.key(c.pool), i)))
  }

  /** A registration writes the record, then the round. */
  function Registered(b: Buffers, c: Call, record: seq<Byte>, round: seq<Byte>): ByteOutcome
    requires c.record in b && c.round in b
  {
    match Written(b, c.record, record)
    case Err(e) => Err(e)
    case Ok(b1) => Written(b1, c.round, round)
  }

  function RegisterBytes(w: Wire, b: Buffers, c: Call, i: Instruction): ByteOutcome
    requires i.RegisterTransparent?
  {
    match ReadBoth(w, b, c)
    case Err(e) => Err(e)
    case Ok((p, r)) =>
      if !RegisterAllowed(p, r, w.key(c.pool), c.slot) then Err(InvalidState)
      else if !c.derives || c.record != RecordPda(c.round, i.coordinationKey, i.recordBump) then Err(InvalidPda)
      else
        match Created(b, c, c.record, RECORD_ACCOUNT_SIZE)
        case Err(e) => Err(e)
        case Ok(b1) =>
          if r.acceptedCount == U32_MAX then Err(Overflow)
          else Registered(b1, c, w.record(ParticipantRecord(1, i.recordBump, w.key(c.round), i.coordinationKey)),
                          w.round(OneMore(p, r)))
  }

  function AdminBytes(w: Wire, b: Buffers, c: Call, i: Instruction): ByteOutcome
    requires Administers(i)
  {
    match ReadBoth(w, b, c)
    case Err(e) => Err(e)
    case Ok((p, r)) =>
      match Administered(p, r, w.key(c.authority), w.key(c.pool), c.slot, i)
      case Err(e) => Err(e)
      case Ok(r') => Written(b, c.round, w.round(r'))
  }

  function BeginBytes(w: Wire, b: Buffers, c: Call): ByteOutcome {
    if c.round !in b then Err(IllegalOwner)
    else
      match w.readRound(b[c.round])
      case None => Err(InvalidAccountData)
      case Some(r) =>
        if !BeginAllowed(r, c.slot) then Err(InvalidTiming)
        else Written(b, c.round, w.round(r.(state := ExecutionWindow)))
  }

  function CloseBytes(w: Wire, b: Buffers, c: Call): ByteOutcome {
    match ReadBoth(w, b, c)
    case Err(e) => Err(e)
    case Ok((p, r)) =>
      match CloseRefusal(p, r, w.key(c.authority), c.writable, c.credits)
      case Some(e) => Err(e)
      case None => Ok(b - {c.round})
  }

  function ProcessBytes(w: Wire, b: Buffers, e: Event): ByteOutcome {
    match e.ins
    case InitializePool(_, _, _, _, _, _, _, _, _) => InitializeBytes(w, b, e.call, e.ins)
    case OpenRound(_, _, _, _) => OpenBytes(w, b, e.call, e.ins)
    case RegisterTransparent(_, _) => RegisterBytes(w, b, e.call, e.ins)
    case BeginExecutionWindow => BeginBytes(w, b, e.call)
    case CloseRound => CloseBytes(w, b, e.call)
    case _ => AdminBytes(w, b, e.call, e.ins)
  }

  function StepBytes(w: Wire, b: Buffers, e: Event): Buffers {
    if ProcessBytes(w, b, e).Ok? then ProcessBytes(w, b, e).value else b
  }

  function BytesAfter(w: Wire, run: seq<Event>, n: nat): Buffers
    requires n <= |run|
  {
    if n == 0 then map[] else StepBytes(w, BytesAfter(w, run, n - 1), run[n - 1])
  }

  // ---------- typed accounts as buffers ----------

  function WirePool(w: Wire, p: Pool): PoolAccount<Key> {
    PoolAccount(p.version, p.bump, w.key(p.authority), p.poolId, p.templateHash, p.minParticipants, p.maxParticipants,
                p.minReleaseDelay, p.maxReleaseDelay, p.executionWindow, p.backend, p.nextRound, p.paused)
  }

  function WireRound(w: Wire, r: Round): RoundAccount<Key> {
    RoundAccount(r.version, r.bump, w.key(r.pool), r.roundId, r.state, r.registrationDeadline, r.templateHash,
                 r.acceptedCount, r.cohortRoot, r.releaseSlot, r.windowEndSlot, r.metricsHash)
  }

  function WireRecord(w: Wire, r: Participant): ParticipantRecord<Key> {
    ParticipantRecord(r.version, r.bump, w.key(r.round), r.coordinationKey)
  }

  /** The buffer of a typed account. */
  ghost function Image(w: Wire, x: Account): seq<Byte>
    requires w.Lawful()
  {
    match x
    case PoolData(p) => assert w.PoolLaw(WirePool(w, p)); Filled(w.pool(WirePool(w, p)), POOL_ACCOUNT_SIZE)
    case RoundData(r) => assert w.RoundLaw(WireRound(w, r)); Filled(w.round(WireRound(w, r)), ROUND_ACCOUNT_SIZE)
    case RecordData(r) => assert w.RecordLaw(WireRecord(w, r)); Filled(w.record(WireRecord(w, r)), RECORD_ACCOUNT_SIZE)
  }

  /** A typed ledger as the chain holds it. */
  ghost function Images(w: Wire, l: Ledger): (b: Buffers)
    requires w.Lawful()
    ensures b.Keys == l.Keys && forall a :: a in l ==> b[a] == Image(w, l[a])
  {
    map a | a in l :: Image(w, l[a])
  }

  lemma ImagesUpdate(w: Wire, l: Ledger, a: Address, x: Account)
    requires w.Lawful()
    ensures Images(w, l[a := x]) == Images(w, l)[a := Image(w, x)]
  {
  }

  lemma ImagesRemove(w: Wire, l: Ledger, a: Address)
    requires w.Lawful()
    ensures Images(w, l - {a}) == Images(w, l) - {a}
  {
  }

  // ---------- the program's own format is lawful ----------

  lemma FirstByte(ks: seq<Kind>, fs: seq<Field>, rest: seq<Byte>)
    requires FitsAll(ks, fs) && ks != [] && ks[0] == KByte && fs[0].Num? && fs[0].n < 256
    ensures (PutAll(ks, fs) + rest) != [] && (PutAll(ks, fs) + rest)[0] == fs[0].n
  {
    ByteAt(ks, fs, rest, 0, 0);
    assert Le(fs[0].n, 1)[0] == fs[0].n;
  }

  lemma PoolLawful(p: PoolAccount<Key>)
    ensures |PoolBytes(p)| == 140
    ensures var b := Filled(PoolBytes(p), POOL_ACCOUNT_SIZE);
            && b[0] == p.version && ReadPool(b) == Some(p)
            && (ReadRound(b).Some? <==> p.poolId.bytes[8] < 9)
  {
    PoolSize(p);
    PoolFits(p);
    FirstByte(POOL, PoolFields(p), Zeros(116));
    PoolRoundTrip(p, Zeros(116));
    PoolReadsAsRound(p);
  }

  lemma PoolMisread(p: PoolAccount<Key>)
    requires p.poolId.bytes[8] < 9
    ensures |PoolBytes(p)| == 140 && ReadRound(Filled(PoolBytes(p), POOL_ACCOUNT_SIZE)).Some?
    ensures var r := ReadRound(Filled(PoolBytes(p), POOL_ACCOUNT_SIZE)).value;
            && r.state == StateOf(p.poolId.bytes[8])
            && |RoundBytes(r.(state := Cancelled))| == 167 && |PoolBytes(Renamed(p))| == 140
            && Filled(RoundBytes(r.(state := Cancelled)), POOL_ACCOUNT_SIZE) == Filled(PoolBytes(Renamed(p)), POOL_ACCOUNT_SIZE)
  {
    PoolSize(p);
    PoolSize(Renamed(p));
    assert Filled(PoolBytes(p), POOL_ACCOUNT_SIZE) == PoolBuffer(p);
    PoolAsRound(p);
    CancelRenames(p);
  }

  lemma RoundLawful(r: RoundAccount<Key>)
    ensures |RoundBytes(r)| == 167
    ensures var b := Filled(RoundBytes(r), ROUND_ACCOUNT_SIZE);
            && b[0] == r.version && ReadRound(b) == Some(r)
            && (ReadPool(b).Some? ==> ReadPool(b).value.authority == r.pool)
  {
    RoundSize(r);
    RoundFits(r);
    var b := Filled(RoundBytes(r), ROUND_ACCOUNT_SIZE);
    FirstByte(ROUND, RoundFields(r), Zeros(89));
    RoundRoundTrip(r, Zeros(89));
    if ReadPool(b).Some? { SameOwner(b); }
  }

  lemma RecordLawful(r: ParticipantRecord<Key>)
    ensures |RecordBytes(r)| == 66
    ensures var b := Filled(RecordBytes(r), RECORD_ACCOUNT_SIZE);
            b[0] == r.version && ReadPool(b) == None && ReadRound(b) == None
  {
    RecordSize(r);
    RecordFits(r);
    FirstByte(RECORD, RecordFields(r), Zeros(30));
    RecordReadsAsNeither(Filled(RecordBytes(r), RECORD_ACCOUNT_SIZE));
  }

  lemma RealIsLawful(w: Wire)
    requires w.Real()
    ensures w.Lawful()
  {
    forall p ensures w.PoolLaw(p) {
      PoolLawful(p);
      if p.poolId.bytes[8] < 9 { PoolMisread(p); }
    }
    forall r ensures w.RoundLaw(r) { RoundLawful(r); }
    forall r ensures w.RecordLaw(r) { RecordLawful(r); }
  }
}
