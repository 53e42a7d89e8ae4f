/**
 Ticket admission under concurrency: requests pass the rate gate, are verified, and then count and
 insert while holding the store's lock; sealing takes the same lock. Every request advances one step
 at a time, in any order.
 */
module Admission {
  import opened Bytes
  import opened Store
  import opened StoreOutcomes
  import opened RateLimit

  const SCHEMA_VERSION: U16 := 1

  datatype TicketError =
    UnsupportedVersion | WrongPool | WrongRound | WrongTemplate | TicketExpired | InvalidSignature

  datatype Binding = Binding(pool: Digest, round: U64, template: Digest)

  /** Coordinator policy; `signed` stands for decoding the key and checking its Ed25519 signature. */
  datatype Config = Config(binding: Binding, minimum: U32, maximum: U32, rpm: U32, signed: JoinTicket -> bool) {
    function Key(): RoundKey { RoundKey(binding.pool, binding.round) }
  }

  function VerifyTicket(cfg: Config, t: JoinTicket, slot: U64): Result<(), TicketError> {
    if t.schemaVersion != SCHEMA_VERSION then Err(UnsupportedVersion)
    else if t.poolId != cfg.binding.pool then Err(WrongPool)
    else if t.roundId != cfg.binding.round then Err(WrongRound)
    else if t.templateHash != cfg.binding.template then Err(WrongTemplate)
    else if slot >= t.expirySlot then Err(TicketExpired)
    else if !cfg.signed(t) then Err(InvalidSignature)
    else Ok(())
  }

  datatype CoordinatorError = RateLimited | InvalidTicket | CohortFull | StoreFailure(error: StoreError)

  /** Where a request is. Past the rate gate it remembers the clock reading it passed at. */
  datatype Phase =
    | AtRateGate(ticket: JoinTicket, slot: U64)
    | Unverified(ticket: JoinTicket, slot: U64, passed: nat)
    | AwaitingLock(ticket: JoinTicket, slot: U64, passed: nat)
    | Locked(ticket: JoinTicket, slot: U64, passed: nat)
    | Counted(ticket: JoinTicket, slot: U64, passed: nat)
    | SealAwaiting
    | SealLocked
    | SealChecked
    | Submitted(reply: Result<Digest, CoordinatorError>)
    | SealDone(sealed: Result<(Digest, U32), CoordinatorError>)
  {
    predicate Holds() { Locked? || Counted? || SealLocked? || SealChecked? }

    predicate Cleared() { AwaitingLock? || Locked? || Counted? }

    /** Past the rate gate and not finished. */
    predicate InFlight() { Unverified? || Cleared() }
  }

  /** An insertion: the ticket, the slot it was checked against, and when its request passed the rate gate. */
  datatype Admitted = Admitted(ticket: JoinTicket, slot: U64, passed: nat)

  datatype Coord = Coord(
    rate: Rate, lock: Option<nat>, requests: map<nat, Phase>, db: Db, admitted: seq<Admitted>)

  datatype Move =
    | Arrive(id: nat, ticket: JoinTicket, slot: U64)
    | ArriveSeal(id: nat)
    | Advance(id: nat, tick: Tick)

  /** A request that failed before or after taking the lock, which it then gives back. */
  function Finish(s: Coord, id: nat, p: Phase): Coord {
    s.(requests := s.requests[id := p], lock := if s.lock == Some(id) then None else s.lock)
  }

  function Next(env: Env, cfg: Config, s: Coord, id: nat, tick: Tick): Coord
    requires id in s.requests
  {
    var k := cfg.Key();
    match s.requests[id]
    case AtRateGate(t, slot) =>
      var s' := s.(rate := Checked(cfg.rpm, s.rate, tick));
      if Admits(cfg.rpm, s.rate, tick) then s'.(requests := s.requests[id := Unverified(t, slot, tick.now)])
      else s'.(requests := s.requests[id := Submitted(Err(RateLimited))])
    case Unverified(t, slot, at) =>
      if VerifyTicket(cfg, t, slot).Ok? then s.(requests := s.requests[id := AwaitingLock(t, slot, at)])
      else s.(requests := s.requests[id := Submitted(Err(InvalidTicket))])
    case AwaitingLock(t, slot, at) =>
      if s.lock.Some? then s else s.(lock := Some(id), requests := s.requests[id := Locked(t, slot, at)])
    case Locked(t, slot, at) =>
      var count := CountOf(s.db, k);
      if count.Err? then Finish(s, id, Submitted(Err(StoreFailure(count.error))))
      else if count.value >= cfg.maximum then Finish(s, id, Submitted(Err(CohortFull)))
      else s.(requests := s.requests[id := Counted(t, slot, at)])
    case Counted(t, slot, at) =>
      var (db, r) := AcceptTx(env, s.db, t);
      if r.Ok? then Finish(s.(db := db, admitted := s.admitted + [Admitted(t, slot, at)]), id, Submitted(Ok(r.value)))
      else Finish(s.(db := db), id, Submitted(Err(StoreFailure(r.error))))
    case SealAwaiting =>
      if s.lock.Some? then s else s.(lock := Some(id), requests := s.requests[id := SealLocked])
    case SealLocked =>
      if !Persistable(k.round) then Finish(s, id, SealDone(Err(StoreFailure(CountOverflow))))
      else if k in s.db.roots then Finish(s, id, SealDone(Ok(s.db.roots[k])))
      else s.(requests := s.requests[id := SealChecked])
    case SealChecked =>
      var (db, r) := SealTx(env, s.db, k, cfg.minimum);
      Finish(s.(db := db), id, SealDone(if r.Ok? then Ok(r.value) else Err(StoreFailure(r.error))))
    case _ => s
  }

  function Do(env: Env, cfg: Config, s: Coord, m: Move): Coord {
    match m
    case Arrive(id, t, slot) => if id in s.requests then s else s.(requests := s.requests[id := AtRateGate(t, slot)])
    case ArriveSeal(id) => if id in s.requests then s else s.(requests := s.requests[id := SealAwaiting])
    case Advance(id, tick) => if id in s.requests then Next(env, cfg, s, id, tick) else s
  }

  /** The coordinator after `n` moves, started on an existing database. */
  function After(env: Env, cfg: Config, start: Db, run: seq<Move>, n: nat): Coord
    requires n <= |run|
  {
    if n == 0 then Coord(Rate(0, 0), None, map[], start, [])
    else Do(env, cfg, After(env, cfg, start, run, n - 1), run[n - 1])
  }

  /** The lock excludes: whoever holds it is the one it names. */
  ghost predicate LockOk(s: Coord) {
    forall id :: id in s.requests && s.requests[id].Holds() ==> s.lock == Some(id)
  }

  /** Requests past verification were verified, and a request that has counted found room. */
  ghost predicate RequestsOk(cfg: Config, s: Coord) {
    && (forall id :: id in s.requests && s.requests[id].Cleared() ==>
          VerifyTicket(cfg, s.requests[id].ticket, s.requests[id].slot).Ok?)
    && (forall id :: id in s.requests && s.requests[id].Counted? ==>
          |Commitments(s.db.tickets, cfg.Key())| < cfg.maximum)
  }

  /** The rows beyond the ones found at the start are the admitted tickets, each verified at its slot. */
  ghost predicate LogOk(env: Env, cfg: Config, start: Db, s: Coord) {
    && |s.db.tickets| == |start.tickets| + |s.admitted|
    && start.tickets <= s.db.tickets
    && (forall i :: 0 <= i < |s.admitted| ==>
          && s.db.tickets[|start.tickets| + i] == RowOf(env, s.admitted[i].ticket)
          && VerifyTicket(cfg, s.admitted[i].ticket, s.admitted[i].slot).Ok?)
  }

  /** A finished request was told the truth: its ticket is stored, or the round is sealed as it was told. */
  ghost predicate Told(cfg: Config, db: Db, p: Phase) {
    && (p.Submitted? && p.reply.Ok? ==> exists i :: 0 <= i < |db.tickets| && db.tickets[i].commitment == p.reply.value)
    && (p.SealDone? && p.sealed.Ok? ==> cfg.Key() in db.roots && db.roots[cfg.Key()] == p.sealed.value)
  }

  ghost predicate RepliesOk(cfg: Config, s: Coord) {
    forall id {:trigger Told(cfg, s.db, s.requests[id])} :: id in s.requests ==> Told(cfg, s.db, s.requests[id])
  }

  ghost predicate CoordOk(env: Env, cfg: Config, start: Db, s: Coord) {
    && DbOk(env, s.db) && LockOk(s) && RequestsOk(cfg, s) && LogOk(env, cfg, start, s) && RepliesOk(cfg, s)
    && s.rate.accepted <= cfg.rpm
    && |Commitments(s.db.tickets, cfg.Key())| <= cfg.maximum
  }

  lemma CommitmentsGrow(rows: seq<Row>, row: Row, k: RoundKey)
    ensures Commitments(rows + [row], k) == Commitments(rows, k) + if row.key == k then [row.commitment] else []
  {
    Appended(rows, row);
  }

  lemma NextLock(env: Env, cfg: Config, s: Coord, id: nat, tick: Tick)
    requires LockOk(s) && id in s.requests
    ensures LockOk(Next(env, cfg, s, id, tick))
  {
  }

  /** What a step does to the ticket table and the admission log: one insertion together, or nothing. */
  ghost predicate Inserts(env: Env, s: Coord, s': Coord, id: nat)
    requires id in s.requests
  {
    if s.requests[id].Counted? && |s'.admitted| != |s.admitted| then
      var p := s.requests[id];
      s'.db.tickets == s.db.tickets + [RowOf(env, p.ticket)] && s'.admitted == s.admitted + [Admitted(p.ticket, p.slot, p.passed)]
    else s'.db.tickets == s.db.tickets && s'.admitted == s.admitted
  }

  /** A request that has counted inserts its ticket or finds it refused. */
  lemma CountedInserts(env: Env, cfg: Config, s: Coord, id: nat, tick: Tick)
    requires id in s.requests && s.requests[id].Counted?
    ensures Inserts(env, s, Next(env, cfg, s, id, tick), id)
  {
  }

  lemma OthersInsertNothing(env: Env, cfg: Config, s: Coord, id: nat, tick: Tick)
    requires id in s.requests && !s.requests[id].Counted?
    ensures var s' := Next(env, cfg, s, id, tick); s'.db.tickets == s.db.tickets && s'.admitted == s.admitted
  {
    NextDbIs(env, cfg, s, id, tick);
    SealTxRows(env, s.db, cfg.Key(), cfg.minimum);
    OthersAdmitNothing(env, cfg, s, id, tick);
  }

  lemma OthersAdmitNothing(env: Env, cfg: Config, s: Coord, id: nat, tick: Tick)
    requires id in s.requests && !s.requests[id].Counted?
    ensures Next(env, cfg, s, id, tick).admitted == s.admitted
  {
  }

  lemma NextInserts(env: Env, cfg: Config, s: Coord, id: nat, tick: Tick)
    requires id in s.requests
    ensures Inserts(env, s, Next(env, cfg, s, id, tick), id)
  {
    if s.requests[id].Counted? {
      CountedInserts(env, cfg, s, id, tick);
    } else {
      OthersInsertNothing(env, cfg, s, id, tick);
    }
  }

  lemma NextRate(env: Env, cfg: Config, s: Coord, id: nat, tick: Tick)
    requires id in s.requests
    ensures var r := Next(env, cfg, s, id, tick).rate; r == s.rate || r == Checked(cfg.rpm, s.rate, tick)
  {
  }

  /** Other requests are untouched. */
  lemma NextOthers(env: Env, cfg: Config, s: Coord, id: nat, tick: Tick)
    requires id in s.requests
    ensures var s' := Next(env, cfg, s, id, tick);
            && s'.requests.Keys == s.requests.Keys
            && forall j :: j in s.requests && j != id ==> s'.requests[j] == s.requests[j]
  {
  }

  /** A request that has just counted did so on the table as it is. */
  lemma NextCounted(env: Env, cfg: Config, s: Coord, id: nat, tick: Tick)
    requires id in s.requests
    ensures var s' := Next(env, cfg, s, id, tick);
            id in s'.requests && (s'.requests[id].Counted? ==> |Commitments(s'.db.tickets, cfg.Key())| < cfg.maximum)
  {
  }

  /** A cleared request keeps its ticket and slot, and has just been verified or was cleared before. */
  lemma NextCleared(env: Env, cfg: Config, s: Coord, id: nat, tick: Tick)
    requires id in s.requests
    ensures var s' := Next(env, cfg, s, id, tick);
            id in s'.requests &&
            (s'.requests[id].Cleared() ==>
               && (s.requests[id].Cleared() || s.requests[id].Unverified?)
               && s'.requests[id].ticket == s.requests[id].ticket && s'.requests[id].slot == s.requests[id].slot
               && (s.requests[id].Unverified? ==> VerifyTicket(cfg, s.requests[id].ticket, s.requests[id].slot).Ok?))
  {
  }

  /** Only the lock holder changes the table, so a count made under the lock stays good. */
  lemma RequestsKept(env: Env, cfg: Config, s: Coord, s': Coord, id: nat)
    requires LockOk(s) && RequestsOk(cfg, s) && id in s.requests && Inserts(env, s, s', id)
    requires s'.requests.Keys == s.requests.Keys
    requires forall j :: j in s.requests && j != id ==> s'.requests[j] == s.requests[j]
    requires s'.requests[id].Counted? ==> |Commitments(s'.db.tickets, cfg.Key())| < cfg.maximum
    requires s'.requests[id].Cleared() ==> VerifyTicket(cfg, s'.requests[id].ticket, s'.requests[id].slot).Ok?
    ensures RequestsOk(cfg, s')
  {
    forall j | j in s'.requests && s'.requests[j].Counted?
      ensures |Commitments(s'.db.tickets, cfg.Key())| < cfg.maximum
    {
      if j != id {
        assert s.requests[j].Holds();
        assert !s.requests[id].Counted?;
      }
    }
  }

  lemma NextRequests(env: Env, cfg: Config, s: Coord, id: nat, tick: Tick)
    requires LockOk(s) && RequestsOk(cfg, s) && id in s.requests
    ensures RequestsOk(cfg, Next(env, cfg, s, id, tick))
  {
    NextInserts(env, cfg, s, id, tick);
    NextOthers(env, cfg, s, id, tick);
    NextCounted(env, cfg, s, id, tick);
    NextCleared(env, cfg, s, id, tick);
    RequestsKept(env, cfg, s, Next(env, cfg, s, id, tick), id);
  }

  /** What a request does to the database at its next step. */
  function DbAfter(env: Env, cfg: Config, db: Db, p: Phase): Db {
    match p
    case Counted(t, _, _) => AcceptTx(env, db, t).0
    case SealChecked => SealTx(env, db, cfg.Key(), cfg.minimum).0
    case _ => db
  }

  lemma NextDbIs(env: Env, cfg: Config, s: Coord, id: nat, tick: Tick)
    requires id in s.requests
    ensures Next(env, cfg, s, id, tick).db == DbAfter(env, cfg, s.db, s.requests[id])
  {
  }

  lemma DbAfterOk(env: Env, cfg: Config, db: Db, p: Phase)
    requires DbOk(env, db)
    ensures DbOk(env, DbAfter(env, cfg, db, p)) && Grows(db, DbAfter(env, cfg, db, p))
  {
    if p.Counted? {
      AcceptKeeps(env, db, p.ticket);
    } else if p.SealChecked? {
      SealTxKeeps(env, db, cfg.Key(), cfg.minimum);
    } else {
      GrowsReflexive(db);
    }
  }

  lemma NextDb(env: Env, cfg: Config, s: Coord, s': Coord, id: nat)
    requires DbOk(env, s.db) && id in s.requests && s'.db == DbAfter(env, cfg, s.db, s.requests[id])
    ensures DbOk(env, s'.db) && Grows(s.db, s'.db)
  {
    DbAfterOk(env, cfg, s.db, s.requests[id]);
  }

  lemma LogKept(env: Env, cfg: Config, start: Db, s: Coord, s': Coord, id: nat)
    requires RequestsOk(cfg, s) && LogOk(env, cfg, start, s) && id in s.requests && Inserts(env, s, s', id)
    ensures LogOk(env, cfg, start, s')
  {
    assert s.requests[id].Counted? ==> VerifyTicket(cfg, s.requests[id].ticket, s.requests[id].slot).Ok?;
  }

  lemma CapKept(env: Env, cfg: Config, s: Coord, s': Coord, id: nat)
    requires RequestsOk(cfg, s) && id in s.requests && Inserts(env, s, s', id)
    requires |Commitments(s.db.tickets, cfg.Key())| <= cfg.maximum
    ensures |Commitments(s'.db.tickets, cfg.Key())| <= cfg.maximum
  {
    if s.requests[id].Counted? {
      CommitmentsGrow(s.db.tickets, RowOf(env, s.requests[id].ticket), cfg.Key());
    }
  }

  lemma ToldLater(cfg: Config, db: Db, db': Db, p: Phase)
    requires Told(cfg, db, p) && Grows(db, db')
    ensures Told(cfg, db', p)
  {
    if p.Submitted? && p.reply.Ok? {
      var i :| 0 <= i < |db.tickets| && db.tickets[i].commitment == p.reply.value;
      assert db'.tickets[i] == db.tickets[i];
    }
  }

  lemma CountedTold(env: Env, cfg: Config, s: Coord, id: nat, tick: Tick)
    requires id in s.requests && s.requests[id].Counted?
    ensures var s' := Next(env, cfg, s, id, tick); id in s'.requests && Told(cfg, s'.db, s'.requests[id])
  {
    var (db, r) := AcceptTx(env, s.db, s.requests[id].ticket);
    if r.Ok? { assert db.tickets[|s.db.tickets|].commitment == r.value; }
  }

  lemma SealReplyTrue(env: Env, db: Db, k: RoundKey, minimum: U32)
    requires SealTx(env, db, k, minimum).1.Ok?
    ensures k in SealTx(env, db, k, minimum).0.roots
    ensures SealTx(env, db, k, minimum).0.roots[k] == SealTx(env, db, k, minimum).1.value
  {
  }

  lemma SealCheckedTold(env: Env, cfg: Config, s: Coord, id: nat, tick: Tick)
    requires id in s.requests && s.requests[id].SealChecked?
    ensures var s' := Next(env, cfg, s, id, tick); id in s'.requests && Told(cfg, s'.db, s'.requests[id])
  {
    if SealTx(env, s.db, cfg.Key(), cfg.minimum).1.Ok? {
      SealReplyTrue(env, s.db, cfg.Key(), cfg.minimum);
    }
  }

  /** A request that does not write keeps the database, and ends only with what it finds there. */
  lemma OthersTold(env: Env, cfg: Config, s: Coord, id: nat, tick: Tick)
    requires id in s.requests && !s.requests[id].Counted? && !s.requests[id].SealChecked?
    requires Told(cfg, s.db, s.requests[id])
    ensures var s' := Next(env, cfg, s, id, tick); id in s'.requests && Told(cfg, s'.db, s'.requests[id])
  {
  }

  lemma NextTold(env: Env, cfg: Config, s: Coord, id: nat, tick: Tick)
    requires id in s.requests && Told(cfg, s.db, s.requests[id])
    ensures var s' := Next(env, cfg, s, id, tick); id in s'.requests && Told(cfg, s'.db, s'.requests[id])
  {
    if s.requests[id].Counted? {
      CountedTold(env, cfg, s, id, tick);
    } else if s.requests[id].SealChecked? {
      SealCheckedTold(env, cfg, s, id, tick);
    } else {
      OthersTold(env, cfg, s, id, tick);
    }
  }

  lemma NextReplies(env: Env, cfg: Config, s: Coord, id: nat, tick: Tick)
    requires DbOk(env, s.db) && RepliesOk(cfg, s) && id in s.requests
    ensures RepliesOk(cfg, Next(env, cfg, s, id, tick))
  {
    var s' := Next(env, cfg, s, id, tick);
    NextDbIs(env, cfg, s, id, tick);
    NextDb(env, cfg, s, s', id);
    NextOthers(env, cfg, s, id, tick);
    NextTold(env, cfg, s, id, tick);
    forall j | j in s'.requests ensures Told(cfg, s'.db, s'.requests[j]) {
      if j != id { ToldLater(cfg, s.db, s'.db, s.requests[j]); }
    }
  }

  lemma NextKeeps(env: Env, cfg: Config, start: Db, s: Coord, id: nat, tick: Tick)
    requires CoordOk(env, cfg, start, s) && id in s.requests
    ensures CoordOk(env, cfg, start, Next(env, cfg, s, id, tick))
  {
    var s' := Next(env, cfg, s, id, tick);
    NextLock(env, cfg, s, id, tick);
    NextRequests(env, cfg, s, id, tick);
    NextDbIs(env, cfg, s, id, tick);
    NextDb(env, cfg, s, s', id);
    NextReplies(env, cfg, s, id, tick);
    NextInserts(env, cfg, s, id, tick);
    NextRate(env, cfg, s, id, tick);
    CountWithinLimit(cfg.rpm, s.rate, tick);
    LogKept(env, cfg, start, s, s', id);
    CapKept(env, cfg, s, s', id);
  }

  lemma DoKeeps(env: Env, cfg: Config, start: Db, s: Coord, m: Move)
    requires CoordOk(env, cfg, start, s)
    ensures CoordOk(env, cfg, start, Do(env, cfg, s, m))
  {
    match m
    case Arrive(id, t, slot) => if id !in s.requests { ArrivalKeeps(env, cfg, start, s, id, AtRateGate(t, slot)); }
    case ArriveSeal(id) => if id !in s.requests { ArrivalKeeps(env, cfg, start, s, id, SealAwaiting); }
    case Advance(id, tick) => if id in s.requests { NextKeeps(env, cfg, start, s, id, tick); }
  }

  lemma ArrivalKeeps(env: Env, cfg: Config, start: Db, s: Coord, id: nat, p: Phase)
    requires CoordOk(env, cfg, start, s) && id !in s.requests && !p.Holds() && !p.Cleared()
    requires !p.Submitted? && !p.SealDone?
    ensures CoordOk(env, cfg, start, s.(requests := s.requests[id := p]))
  {
    var s' := s.(requests := s.requests[id := p]);
    forall j | j in s'.requests ensures Told(cfg, s'.db, s'.requests[j]) {
      if j != id { assert Told(cfg, s.db, s.requests[j]); }
    }
  }

  lemma {:induction false} AlwaysOk(env: Env, cfg: Config, start: Db, run: seq<Move>, n: nat)
    requires n <= |run| && DbOk(env, start) && |Commitments(start.tickets, cfg.Key())| <= cfg.maximum
    ensures CoordOk(env, cfg, start, After(env, cfg, start, run, n))
  {
    if n > 0 {
      AlwaysOk(env, cfg, start, run, n - 1);
      DoKeeps(env, cfg, start, After(env, cfg, start, run, n - 1), run[n - 1]);
    }
  }

  /** Where a ticket row came from: found at the start, or admitted at the slot recorded for it. */
  ghost predicate RowOrigin(cfg: Config, start: Db, s: Coord, i: nat)
    requires i < |s.db.tickets|
  {
    i < |start.tickets| ||
    (i - |start.tickets| < |s.admitted| &&
     var Admitted(t, slot, _) := s.admitted[i - |start.tickets|];
     && s.db.tickets[i].ticket == t && s.db.tickets[i].key == cfg.Key()
     && t.templateHash == cfg.binding.template && t.schemaVersion == SCHEMA_VERSION
     && slot < t.expirySlot && cfg.signed(t))
  }

  lemma RowsHaveOrigin(env: Env, cfg: Config, start: Db, s: Coord, i: nat)
    requires LogOk(env, cfg, start, s) && i < |s.db.tickets|
    ensures RowOrigin(cfg, start, s, i)
  {
  }

  lemma KeysDistinct(env: Env, rows: seq<Row>, i: nat, j: nat)
    requires RowsOk(env, rows) && i < j < |rows| && rows[i].key == rows[j].key
    ensures rows[i].coordinationKey != rows[j].coordinationKey && rows[i].commitment != rows[j].commitment
  {
    assert !Clashes(rows[i], rows[j]);
  }

  /**
   Admission safety. Started within the cap, and however requests interleave: the round never holds
   more than `maximum_participants` tickets; and every ticket added matched the binding, was signed,
   and expired after the slot it was checked against. (That every successful reply is true of the
   store is part of `AlwaysOk`.)
   */
  lemma AdmissionSafe(env: Env, cfg: Config, start: Db, run: seq<Move>, n: nat)
    requires n <= |run| && DbOk(env, start) && |Commitments(start.tickets, cfg.Key())| <= cfg.maximum
    ensures var s := After(env, cfg, start, run, n);
            && |Commitments(s.db.tickets, cfg.Key())| <= cfg.maximum
            && forall i: nat :: i < |s.db.tickets| ==> RowOrigin(cfg, start, s, i)
  {
    AlwaysOk(env, cfg, start, run, n);
    var s := After(env, cfg, start, run, n);
    forall i: nat | i < |s.db.tickets| ensures RowOrigin(cfg, start, s, i) {
      RowsHaveOrigin(env, cfg, start, s, i);
    }
  }

  /** Any two rows of one round differ in key and commitment, however requests interleave. */
  lemma AdmissionDistinct(env: Env, cfg: Config, start: Db, run: seq<Move>, n: nat, i: nat, j: nat)
    requires n <= |run| && DbOk(env, start) && |Commitments(start.tickets, cfg.Key())| <= cfg.maximum
    requires i < j < |After(env, cfg, start, run, n).db.tickets|
    ensures var rows := After(env, cfg, start, run, n).db.tickets;
            rows[i].key == rows[j].key ==>
              rows[i].coordinationKey != rows[j].coordinationKey && rows[i].commitment != rows[j].commitment
  {
    AlwaysOk(env, cfg, start, run, n);
    var rows := After(env, cfg, start, run, n).db.tickets;
    if rows[i].key == rows[j].key {
      KeysDistinct(env, rows, i, j);
    }
  }

  // ---------- one submission on its own ----------

  /** What a submission with nothing in between does to the store and returns, error by error. */
  function SubmitOutcome(env: Env, cfg: Config, rate: Rate, db: Db, t: JoinTicket, slot: U64, tick: Tick)
    : (Db, Result<Digest, CoordinatorError>)
  {
    if !Admits(cfg.rpm, rate, tick) then (db, Err(RateLimited))
    else if VerifyTicket(cfg, t, slot).Err? then (db, Err(InvalidTicket))
    else CountedThenInserted(env, cfg, db, t)
  }

  /** `n` consecutive steps of one request. */
  function Alone(env: Env, cfg: Config, s: Coord, id: nat, tick: Tick, n: nat): Coord
    requires id in s.requests
    decreases n
  {
    if n == 0 then s
    else
      NextOthers(env, cfg, s, id, tick);
      Alone(env, cfg, Next(env, cfg, s, id, tick), id, tick, n - 1)
  }

  /** The request has finished with this reply, leaving this database and the lock free. */
  predicate Finished(s: Coord, id: nat, db: Db, reply: Result<Digest, CoordinatorError>) {
    id in s.requests && s.requests[id] == Submitted(reply) && s.db == db && s.lock == None
  }

  lemma {:induction false} FinishedStays(env: Env, cfg: Config, s: Coord, id: nat, tick: Tick, n: nat)
    requires id in s.requests && s.requests[id].Submitted?
    ensures Alone(env, cfg, s, id, tick, n) == s
    decreases n
  {
    if n > 0 {
      assert Next(env, cfg, s, id, tick) == s;
      FinishedStays(env, cfg, s, id, tick, n - 1);
    }
  }

  function Inserted(env: Env, db: Db, t: JoinTicket): (Db, Result<Digest, CoordinatorError>) {
    var (db', r) := AcceptTx(env, db, t);
    (db', if r.Ok? then Ok(r.value) else Err(StoreFailure(r.error)))
  }

  function CountedThenInserted(env: Env, cfg: Config, db: Db, t: JoinTicket): (Db, Result<Digest, CoordinatorError>) {
    var count := CountOf(db, cfg.Key());
    if count.Err? then (db, Err(StoreFailure(count.error)))
    else if count.value >= cfg.maximum then (db, Err(CohortFull))
    else Inserted(env, db, t)
  }

  lemma AloneCounted(env: Env, cfg: Config, s: Coord, id: nat, tick: Tick, t: JoinTicket, slot: U64, at: nat)
    requires id in s.requests && s.requests[id] == Counted(t, slot, at) && s.lock == Some(id)
    ensures var (db, reply) := Inserted(env, s.db, t); Finished(Alone(env, cfg, s, id, tick, 1), id, db, reply)
  {
    var s' := Next(env, cfg, s, id, tick);
    var (db, reply) := Inserted(env, s.db, t);
    assert Finished(s', id, db, reply);
    FinishedStays(env, cfg, s', id, tick, 0);
  }

  lemma AloneLocked(env: Env, cfg: Config, s: Coord, id: nat, tick: Tick, t: JoinTicket, slot: U64, at: nat)
    requires id in s.requests && s.requests[id] == Locked(t, slot, at) && s.lock == Some(id)
    ensures var (db, reply) := CountedThenInserted(env, cfg, s.db, t);
            Finished(Alone(env, cfg, s, id, tick, 2), id, db, reply)
  {
    var s' := Next(env, cfg, s, id, tick);
    if s'.requests[id].Counted? {
      AloneCounted(env, cfg, s', id, tick, t, slot, at);
    } else {
      FinishedStays(env, cfg, s', id, tick, 1);
    }
  }

  lemma AloneUnverified(env: Env, cfg: Config, s: Coord, id: nat, tick: Tick, t: JoinTicket, slot: U64, at: nat)
    requires id in s.requests && s.requests[id] == Unverified(t, slot, at) && s.lock == None
    ensures var (db, reply) :=
              if VerifyTicket(cfg, t, slot).Err? then (s.db, Err(InvalidTicket)) else CountedThenInserted(env, cfg, s.db, t);
            Finished(Alone(env, cfg, s, id, tick, 4), id, db, reply)
  {
    var s' := Next(env, cfg, s, id, tick);
    if VerifyTicket(cfg, t, slot).Ok? {
      var s'' := Next(env, cfg, s', id, tick);
      AloneLocked(env, cfg, s'', id, tick, t, slot, at);
      assert Alone(env, cfg, s', id, tick, 3) == Alone(env, cfg, s'', id, tick, 2);
    } else {
      FinishedStays(env, cfg, s', id, tick, 3);
    }
  }

  /**
   The interleaved model and the single call agree: a submission that finds the lock free and is not
   interrupted finishes after five steps, with the reply and the database of one call.
   */
  lemma AloneIsSubmit(env: Env, cfg: Config, s: Coord, id: nat, tick: Tick, t: JoinTicket, slot: U64)
    requires id in s.requests && s.requests[id] == AtRateGate(t, slot) && s.lock == None
    ensures var (db, reply) := SubmitOutcome(env, cfg, s.rate, s.db, t, slot, tick);
            Finished(Alone(env, cfg, s, id, tick, 5), id, db, reply)
  {
    var s' := Next(env, cfg, s, id, tick);
    if Admits(cfg.rpm, s.rate, tick) {
      AloneUnverified(env, cfg, s', id, tick, t, slot, tick.now);
    } else {
      FinishedStays(env, cfg, s', id, tick, 4);
    }
  }

  // ---------- when a submission succeeds ----------

  /** A ticket passes verification exactly with this version, binding, an expiry ahead and its signature. */
  lemma VerifiesExactly(cfg: Config, t: JoinTicket, slot: U64)
    ensures var r, b := VerifyTicket(cfg, t, slot), cfg.binding;
            var bound := t.schemaVersion == 1 && t.poolId == b.pool && t.roundId == b.round && t.templateHash == b.template;
            && (r.Ok? <==> bound && slot < t.expirySlot && cfg.signed(t))
            && (r == Err(UnsupportedVersion) <==> t.schemaVersion != 1)
            && (r == Err(WrongPool) <==> t.schemaVersion == 1 && t.poolId != b.pool)
            && (r == Err(WrongRound) <==> t.schemaVersion == 1 && t.poolId == b.pool && t.roundId != b.round)
            && (r == Err(WrongTemplate) <==>
                t.schemaVersion == 1 && t.poolId == b.pool && t.roundId == b.round && t.templateHash != b.template)
            && (r == Err(TicketExpired) <==> bound && slot >= t.expirySlot)
            && (r == Err(InvalidSignature) <==> bound && slot < t.expirySlot && !cfg.signed(t))
  {
  }

  /**
   An uninterrupted submission succeeds exactly when the gate is open, the ticket verifies, fewer than
   the maximum of the round's tickets are stored, and none of them is in its way.
   */
  lemma SubmitsExactly(env: Env, cfg: Config, rate: Rate, db: Db, t: JoinTicket, slot: U64, tick: Tick)
    requires DbOk(env, db)
    ensures var r, b := SubmitOutcome(env, cfg, rate, db, t, slot, tick).1, cfg.binding;
            var open := (if tick.now >= rate.started + 60_000_000_000 then 0 else rate.accepted) < cfg.rpm;
            var good := && t.schemaVersion == 1 && t.poolId == b.pool && t.roundId == b.round && t.templateHash == b.template
                        && slot < t.expirySlot && cfg.signed(t);
            var n := TicketsOf(db.tickets, b.pool, b.round);
            && (r == Err(RateLimited) <==> !open)
            && (r == Err(InvalidTicket) <==> open && !good)
            && (r == Err(CohortFull) <==> open && good && b.round <= LARGEST && cfg.maximum <= n <= 0xFFFF_FFFF)
            && (r == Err(StoreFailure(DuplicateTicket)) <==>
                open && good && b.round <= LARGEST && n < cfg.maximum && Taken(env, db, t))
            && (r == Ok(env.commit(t)) <==>
                open && good && b.round <= LARGEST && n < cfg.maximum && !Taken(env, db, t))
            && (r.Ok? ==> r == Ok(env.commit(t)))
  {
    CountsExactly(env, db, cfg.Key());
    AcceptsExactly(env, db, t);
    VerifiesExactly(cfg, t, slot);
  }
}
