/** What every reachable ledger satisfies. */
module LedgerInvariant {
  import opened Bytes
  import opened Accounts
  import opened Handlers
  import opened Ledger

  predicate PoolOk(p: Pool) {
    && p.version == 1 && !p.paused
    && PolicyOk(p.minParticipants, p.maxParticipants, p.minReleaseDelay, p.maxReleaseDelay, p.executionWindow)
  }

  predicate Quorum(r: Round, p: Pool) {
    p.minParticipants <= r.acceptedCount <= p.maxParticipants
  }

  /** A Merkle round has a root and a transparent one has none. */
  predicate RootMatchesBackend(r: Round, p: Pool) {
    r.cohortRoot != ZERO <==> p.backend == MerkleCohort
  }

  predicate Unscheduled(r: Round) {
    r.releaseSlot == 0 && r.windowEndSlot == 0
  }

  /** What each lifecycle state says about the rest of the round; two states are never reached. */
  predicate RoundOk(r: Round, p: Pool) {
    && r.version == 1
    && r.templateHash == p.templateHash && r.registrationDeadline > 0
    && r.acceptedCount <= p.maxParticipants
    && (r.metricsHash != ZERO <==> r.state == Completed)
    && match r.state
       case Registration =>
         r.cohortRoot == ZERO && Unscheduled(r) && r.acceptedCount < p.minParticipants
         && (p.backend == MerkleCohort ==> r.acceptedCount == 0)
       case ThresholdReached | Sealed => Quorum(r, p) && RootMatchesBackend(r, p) && Unscheduled(r)
       case ReleaseScheduled | ExecutionWindow | Completed =>
         Quorum(r, p) && RootMatchesBackend(r, p) && r.releaseSlot < r.windowEndSlot
       case Cancelled =>
         && (r.cohortRoot != ZERO ==> p.backend == MerkleCohort && Quorum(r, p))
         && (Unscheduled(r) || (r.releaseSlot < r.windowEndSlot && Quorum(r, p)))
       case Finalizing | Expired => false
  }

  /** The round at this address has been opened at some time: its number is below the pool's next. */
  predicate Issued(l: Ledger, a: Address) {
    a.RoundPda? && IsPool(l, a.pool) && a.roundId < l[a.pool].pool.nextRound
  }

  predicate AccountOk(l: Ledger, a: Address)
    requires a in l
  {
    match l[a]
    case PoolData(p) => a == PoolPda(p.poolId, p.bump) && PoolOk(p)
    case RoundData(r) =>
      a == RoundPda(r.pool, r.roundId, r.bump) && Issued(l, a) && RoundOk(r, l[r.pool].pool)
    case RecordData(c) =>
      && c.version == 1
      && a == RecordPda(c.round, c.coordinationKey, c.bump)
      && Issued(l, c.round) && l[c.round.pool].pool.backend == TransparentRegistry
  }

  predicate WellFormed(l: Ledger) {
    forall a :: a in l ==> AccountOk(l, a)
  }

  /** Participant records that name a round, one per record address. */
  function RecordsOf(l: Ledger, round: Address): set<Address> {
    set a | a in l && l[a].RecordData? && l[a].record.round == round
  }

  /** A live transparent round counts exactly the records that name it. */
  ghost predicate Conserved(l: Ledger) {
    forall a :: IsRound(l, a) && IsPool(l, l[a].round.pool)
                && l[l[a].round.pool].pool.backend == TransparentRegistry
                ==> l[a].round.acceptedCount == |RecordsOf(l, a)|
  }

  /** Identity fields, fixed when the round is opened. */
  predicate SameIdentity(r: Round, r': Round) {
    && r'.version == r.version && r'.bump == r.bump && r'.pool == r.pool && r'.roundId == r.roundId
    && r'.registrationDeadline == r.registrationDeadline && r'.templateHash == r.templateHash
  }

  /** Replacing a live round by one of the same identity keeps every other account in order. */
  lemma RoundReplaced(l: Ledger, a: Address, r': Round)
    requires WellFormed(l) && IsRound(l, a)
    requires SameIdentity(l[a].round, r') && RoundOk(r', l[r'.pool].pool)
    ensures WellFormed(l[a := RoundData(r')])
    ensures forall b :: RecordsOf(l[a := RoundData(r')], b) == RecordsOf(l, b)
  {
    var l' := l[a := RoundData(r')];
    forall b | b in l' ensures AccountOk(l', b) {
      if b != a { assert AccountOk(l, b); } else { assert AccountOk(l, a); }
    }
    forall b ensures RecordsOf(l', b) == RecordsOf(l, b) {}
  }

  /** Every administrative instruction takes a lawful round to a lawful round of the same identity. */
  lemma AdminRoundLawful(own: Pool, p: Pool, r: Round, c: Call, i: Instruction)
    requires Administers(i)
    requires RoundOk(r, own) && PoolOk(own) && PoolOk(p)
    requires r.pool == c.pool ==> p == own
    requires AdminRound(p, r, c, i).Ok?
    ensures var r' := AdminRound(p, r, c, i).value; SameIdentity(r, r') && RoundOk(r', own)
    ensures own.backend == TransparentRegistry ==> AdminRound(p, r, c, i).value.acceptedCount == r.acceptedCount
  {
  }

  lemma AdminKeeps(l: Ledger, c: Call, i: Instruction, l': Ledger)
    requires WellFormed(l) && Conserved(l) && Administers(i) && Admin(l, c, i) == Ok(l')
    ensures WellFormed(l') && Conserved(l')
  {
    var a, p, r := c.round, l[c.pool].pool, l[c.round].round;
    assert AccountOk(l, a) && AccountOk(l, c.pool) && AccountOk(l, r.pool);
    AdminRoundLawful(l[r.pool].pool, p, r, c, i);
    RoundReplacedKeeps(l, a, AdminRound(p, r, c, i).value);
  }

  /** Replacing a round without changing a transparent count keeps the whole invariant. */
  lemma RoundReplacedKeeps(l: Ledger, a: Address, r': Round)
    requires WellFormed(l) && Conserved(l) && IsRound(l, a)
    requires SameIdentity(l[a].round, r') && IsPool(l, r'.pool) && RoundOk(r', l[r'.pool].pool)
    requires l[r'.pool].pool.backend == TransparentRegistry ==> r'.acceptedCount == l[a].round.acceptedCount
    ensures WellFormed(l[a := RoundData(r')]) && Conserved(l[a := RoundData(r')])
  {
    RoundReplaced(l, a, r');
  }

  lemma BeginKeeps(l: Ledger, c: Call, l': Ledger)
    requires WellFormed(l) && Conserved(l) && Begin(l, c) == Ok(l')
    ensures WellFormed(l') && Conserved(l')
  {
    assert AccountOk(l, c.round);
    RoundReplacedKeeps(l, c.round, l[c.round].round.(state := ExecutionWindow));
  }

  /** No record is added, removed or rewritten. */
  ghost predicate SameRecords(l: Ledger, l': Ledger) {
    forall b :: (b in l && l[b].RecordData?) || (b in l' && l'[b].RecordData?) ==> b in l && b in l' && l'[b] == l[b]
  }

  lemma RecordsKept(l: Ledger, l': Ledger, a: Address)
    requires SameRecords(l, l')
    ensures RecordsOf(l', a) == RecordsOf(l, a)
  {
  }

  /** A new pool at an unused address. */
  lemma PoolAdded(l: Ledger, a: Address, p: Pool)
    requires WellFormed(l) && Conserved(l) && a !in l && a == PoolPda(p.poolId, p.bump) && PoolOk(p)
    ensures WellFormed(l[a := PoolData(p)]) && Conserved(l[a := PoolData(p)])
  {
    var l' := l[a := PoolData(p)];
    forall b | b in l' ensures AccountOk(l', b) {
      if b != a { assert AccountOk(l, b); }
    }
    forall b ensures RecordsOf(l', b) == RecordsOf(l, b) { RecordsKept(l, l', b); }
    forall b | IsRound(l', b) ensures IsRound(l, b) && l[b].round.pool != a { assert AccountOk(l, b); }
  }

  lemma InitializeKeeps(l: Ledger, c: Call, i: Instruction, l': Ledger)
    requires WellFormed(l) && Conserved(l) && i.InitializePool? && Initialize(l, c, i) == Ok(l')
    ensures WellFormed(l') && Conserved(l')
  {
    PoolAdded(l, c.pool, l'[c.pool].pool);
  }

  /** A pool whose counter moves on. */
  lemma PoolAdvanced(l: Ledger, a: Address, next: U64)
    requires WellFormed(l) && Conserved(l) && IsPool(l, a) && l[a].pool.nextRound <= next
    ensures var l' := l[a := PoolData(l[a].pool.(nextRound := next))];
            WellFormed(l') && Conserved(l') && forall b :: RecordsOf(l', b) == RecordsOf(l, b)
  {
    var l' := l[a := PoolData(l[a].pool.(nextRound := next))];
    assert AccountOk(l, a);
    forall b | b in l' ensures AccountOk(l', b) {
      assert AccountOk(l, b);
    }
    forall b ensures RecordsOf(l', b) == RecordsOf(l, b) { RecordsKept(l, l', b); }
  }

  /** A new round without records at an unused address. */
  lemma RoundAdded(l: Ledger, a: Address, r: Round)
    requires WellFormed(l) && Conserved(l) && a !in l && a == RoundPda(r.pool, r.roundId, r.bump)
    requires Issued(l, a) && RoundOk(r, l[r.pool].pool) && r.acceptedCount == 0 && RecordsOf(l, a) == {}
    ensures WellFormed(l[a := RoundData(r)]) && Conserved(l[a := RoundData(r)])
  {
    var l' := l[a := RoundData(r)];
    forall b | b in l' ensures AccountOk(l', b) {
      if b != a { assert AccountOk(l, b); }
    }
    forall b ensures RecordsOf(l', b) == RecordsOf(l, b) { RecordsKept(l, l', b); }
  }

  /** A round number not yet used has no records. */
  lemma UnusedHasNoRecords(l: Ledger, a: Address)
    requires WellFormed(l) && !Issued(l, a)
    ensures RecordsOf(l, a) == {}
  {
    forall b | b in l && l[b].RecordData? ensures l[b].record.round != a { assert AccountOk(l, b); }
  }

  /** A pool that issues its next round number, with an empty round under it. */
  lemma RoundOpened(l: Ledger, pool: Address, a: Address, r: Round, l': Ledger)
    requires WellFormed(l) && Conserved(l) && IsPool(l, pool) && l[pool].pool.nextRound < U64_MAX && a !in l
    requires a == RoundPda(pool, l[pool].pool.nextRound, r.bump) && r.pool == pool && r.roundId == a.roundId
    requires RoundOk(r, l[pool].pool) && r.acceptedCount == 0
    requires l' == l[pool := PoolData(l[pool].pool.(nextRound := l[pool].pool.nextRound + 1))][a := RoundData(r)]
    ensures WellFormed(l') && Conserved(l')
  {
    var p := l[pool].pool;
    PoolAdvanced(l, pool, p.nextRound + 1);
    UnusedHasNoRecords(l, a);
    RoundAdded(l[pool := PoolData(p.(nextRound := p.nextRound + 1))], a, r);
  }

  lemma FreshRoundOk(p: Pool, pool: Address, i: Instruction)
    requires i.OpenRound? && PoolOk(p) && p.templateHash == i.roundTemplateHash && i.registrationDeadline > 0
    ensures var r := FreshRound(pool, i);
            RoundOk(r, p) && r.pool == pool && r.roundId == i.roundId && r.bump == i.roundBump && r.acceptedCount == 0
  {
  }

  /** What a successful opening checked and wrote. */
  lemma OpenForm(l: Ledger, c: Call, i: Instruction, l': Ledger)
    requires i.OpenRound? && Open(l, c, i) == Ok(l')
    ensures IsPool(l, c.pool) && c.round !in l
    ensures var p := l[c.pool].pool;
            && p.nextRound < U64_MAX && p.nextRound == i.roundId && p.templateHash == i.roundTemplateHash
            && c.round == RoundPda(c.pool, i.roundId, i.roundBump) && c.slot < i.registrationDeadline
            && l' == l[c.pool := PoolData(p.(nextRound := p.nextRound + 1))][c.round := RoundData(FreshRound(c.pool, i))]
  {
  }

  lemma OpenKeeps(l: Ledger, c: Call, i: Instruction, l': Ledger)
    requires WellFormed(l) && Conserved(l) && i.OpenRound? && Open(l, c, i) == Ok(l')
    ensures WellFormed(l') && Conserved(l')
  {
    OpenForm(l, c, i, l');
    PoolInOrder(l, c.pool);
    FreshRoundOk(l[c.pool].pool, c.pool, i);
    RoundOpened(l, c.pool, c.round, FreshRound(c.pool, i), l');
  }

  lemma PoolInOrder(l: Ledger, a: Address)
    requires WellFormed(l) && IsPool(l, a)
    ensures PoolOk(l[a].pool)
  {
    assert AccountOk(l, a);
  }

  /** A new record joins the records of its round and of no other. */
  lemma RecordAdded(l: Ledger, a: Address, rec: Participant)
    requires WellFormed(l) && a !in l && rec.version == 1
    requires a == RecordPda(rec.round, rec.coordinationKey, rec.bump) && Issued(l, rec.round)
    requires l[rec.round.pool].pool.backend == TransparentRegistry
    ensures WellFormed(l[a := RecordData(rec)])
    ensures RecordsOf(l[a := RecordData(rec)], rec.round) == RecordsOf(l, rec.round) + {a}
    ensures forall b :: b != rec.round ==> RecordsOf(l[a := RecordData(rec)], b) == RecordsOf(l, b)
  {
    var l' := l[a := RecordData(rec)];
    forall b | b in l' ensures AccountOk(l', b) {
      if b != a { assert AccountOk(l, b); }
    }
    forall b | b != rec.round ensures RecordsOf(l', b) == RecordsOf(l, b) {}
  }

  /** A round that gains one record and one count keeps everything in order. */
  lemma Counted(l: Ledger, a: Address, rec: Participant, round: Address, r': Round)
    requires WellFormed(l) && Conserved(l) && IsRound(l, round) && a !in l && rec.version == 1 && rec.round == round
    requires a == RecordPda(round, rec.coordinationKey, rec.bump)
    requires SameIdentity(l[round].round, r') && IsPool(l, r'.pool) && RoundOk(r', l[r'.pool].pool)
    requires l[r'.pool].pool.backend == TransparentRegistry && r'.acceptedCount == l[round].round.acceptedCount + 1
    ensures WellFormed(l[a := RecordData(rec)][round := RoundData(r')])
    ensures Conserved(l[a := RecordData(rec)][round := RoundData(r')])
  {
    assert AccountOk(l, round);
    var mid := l[a := RecordData(rec)];
    RecordAdded(l, a, rec);
    RoundReplaced(mid, round, r');
    assert |RecordsOf(mid, round)| == |RecordsOf(l, round)| + 1;
    OneMoreCounted(l, mid, mid[round := RoundData(r')], round);
  }

  /** Counts are conserved when one round gains a record and a count and all else keeps both. */
  lemma OneMoreCounted(l: Ledger, mid: Ledger, l': Ledger, round: Address)
    requires Conserved(l) && IsRound(l, round) && IsRound(l', round) && SameIdentity(l[round].round, l'[round].round)
    requires forall b :: IsPool(l', b) ==> IsPool(l, b) && l'[b] == l[b]
    requires forall b :: IsRound(l', b) && b != round ==> IsRound(l, b) && l'[b] == l[b]
    requires forall b :: RecordsOf(l', b) == RecordsOf(mid, b)
    requires forall b :: b != round ==> RecordsOf(mid, b) == RecordsOf(l, b)
    requires |RecordsOf(mid, round)| == |RecordsOf(l, round)| + 1
    requires l'[round].round.acceptedCount == l[round].round.acceptedCount + 1
    ensures Conserved(l')
  {
  }

  lemma RegisterKeeps(l: Ledger, c: Call, i: Instruction, l': Ledger)
    requires WellFormed(l) && Conserved(l) && i.RegisterTransparent? && Register(l, c, i) == Ok(l')
    ensures WellFormed(l') && Conserved(l')
  {
    assert AccountOk(l, c.pool) && AccountOk(l, c.round);
    Counted(l, c.record, l'[c.record].record, c.round, l'[c.round].round);
  }

  lemma CloseKeeps(l: Ledger, c: Call, l': Ledger)
    requires WellFormed(l) && Conserved(l) && Close(l, c) == Ok(l')
    ensures WellFormed(l') && Conserved(l')
  {
    assert l' == l - {c.round} && IsRound(l, c.round);
    RoundRemoved(l, c.round);
  }

  /** A round that goes takes nothing with it. */
  lemma RoundRemoved(l: Ledger, a: Address)
    requires WellFormed(l) && Conserved(l) && IsRound(l, a)
    ensures WellFormed(l - {a}) && Conserved(l - {a})
  {
    var l' := l - {a};
    forall b | b in l' ensures AccountOk(l', b) { assert AccountOk(l, b); }
    forall b ensures RecordsOf(l', b) == RecordsOf(l, b) { RecordsKept(l, l', b); }
  }

  lemma ProcessKeeps(l: Ledger, e: Event, l': Ledger)
    requires WellFormed(l) && Conserved(l) && Process(l, e) == Ok(l')
    ensures WellFormed(l') && Conserved(l')
  {
    match e.ins
    case InitializePool(_, _, _, _, _, _, _, _, _) => InitializeKeeps(l, e.call, e.ins, l');
    case OpenRound(_, _, _, _) => OpenKeeps(l, e.call, e.ins, l');
    case RegisterTransparent(_, _) => RegisterKeeps(l, e.call, e.ins, l');
    case BeginExecutionWindow => BeginKeeps(l, e.call, l');
    case CloseRound => CloseKeeps(l, e.call, l');
    case _ => AdminKeeps(l, e.call, e.ins, l');
  }

  lemma StepKeeps(l: Ledger, e: Event)
    requires WellFormed(l) && Conserved(l)
    ensures WellFormed(Step(l, e)) && Conserved(Step(l, e))
  {
    if Succeeds(l, e) { ProcessKeeps(l, e, Process(l, e).value); }
  }

  /** The invariant and count conservation hold after every prefix of every run. */
  lemma {:induction false} AlwaysWellFormed(run: seq<Event>, n: nat)
    requires n <= |run|
    ensures WellFormed(After(run, n)) && Conserved(After(run, n))
  {
    if n > 0 {
      AlwaysWellFormed(run, n - 1);
      StepKeeps(After(run, n - 1), run[n - 1]);
    }
  }
}
