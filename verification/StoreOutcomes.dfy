/** When each operation of the store succeeds and which error it gives otherwise, in terms of its tables. */
module StoreOutcomes {
  import opened Bytes
  import opened Sorting
  import opened Store

  const LARGEST: int := 9_223_372_036_854_775_807

  // ---------- accepting ----------

  /** The tickets would share a commitment, or a one-time key within a round. */
  predicate SameTicket(env: Env, t: JoinTicket, u: JoinTicket) {
    || env.commit(t) == env.commit(u)
    || (t.poolId == u.poolId && t.roundId == u.roundId && t.coordinationKey == u.coordinationKey)
  }

  /** Some stored ticket stands in the way of this one. */
  ghost predicate Taken(env: Env, db: Db, t: JoinTicket) {
    exists i :: 0 <= i < |db.tickets| && SameTicket(env, db.tickets[i].ticket, t)
  }

  lemma ClashesLikeTickets(env: Env, db: Db, t: JoinTicket, i: nat)
    requires RowsOk(env, db.tickets) && i < |db.tickets|
    ensures Clashes(db.tickets[i], RowOf(env, t)) <==> SameTicket(env, db.tickets[i].ticket, t)
  {
    assert db.tickets[i] == RowOf(env, db.tickets[i].ticket);
  }

  /** A ticket is accepted exactly when its round number can be stored and no stored ticket is in its way. */
  lemma AcceptsExactly(env: Env, db: Db, t: JoinTicket)
    requires RowsOk(env, db.tickets)
    ensures var (db', r) := AcceptTx(env, db, t);
            && (r == Err(CountOverflow) <==> t.roundId > LARGEST)
            && (r == Err(DuplicateTicket) <==> t.roundId <= LARGEST && Taken(env, db, t))
            && (r == Ok(env.commit(t)) <==> t.roundId <= LARGEST && !Taken(env, db, t))
            && (r.Ok? ==> |db'.tickets| == |db.tickets| + 1 && db'.tickets[..|db.tickets|] == db.tickets
                          && db'.tickets[|db.tickets|].ticket == t)
            && (r.Err? ==> db' == db)
  {
    forall i | 0 <= i < |db.tickets|
      ensures Clashes(db.tickets[i], RowOf(env, t)) <==> SameTicket(env, db.tickets[i].ticket, t)
    {
      ClashesLikeTickets(env, db, t, i);
    }
  }

  /** How many tickets of a round are stored. */
  function TicketsOf(rows: seq<Row>, pool: Digest, round: U64): nat {
    if rows == [] then 0
    else
      var t := rows[|rows| - 1].ticket;
      TicketsOf(rows[..|rows| - 1], pool, round) + if t.poolId == pool && t.roundId == round then 1 else 0
  }

  lemma {:induction false} CommitmentsAreTickets(env: Env, rows: seq<Row>, k: RoundKey)
    requires RowsOk(env, rows)
    ensures |Commitments(rows, k)| == TicketsOf(rows, k.pool, k.round)
    decreases |rows|
  {
    if rows != [] {
      CommitmentsAreTickets(env, rows[..|rows| - 1], k);
      assert rows[|rows| - 1] == RowOf(env, rows[|rows| - 1].ticket);
    }
  }

  lemma CountsExactly(env: Env, db: Db, k: RoundKey)
    requires RowsOk(env, db.tickets)
    ensures var n := TicketsOf(db.tickets, k.pool, k.round);
            && (CountOf(db, k) == Err(CountOverflow) <==> k.round > LARGEST)
            && (CountOf(db, k) == Err(CountOutOfRange) <==> k.round <= LARGEST && n > 0xFFFF_FFFF)
            && (CountOf(db, k).Ok? <==> k.round <= LARGEST && n <= 0xFFFF_FFFF)
            && (CountOf(db, k).Ok? ==> CountOf(db, k).value == n)
  {
    CommitmentsAreTickets(env, db.tickets, k);
  }

  // ---------- sealing ----------

  /**
   A round not yet sealed is sealed exactly when it has between one and 100,000 tickets and at least the
   minimum. Otherwise the answer says which bound failed; a constraint is never violated.
   */
  lemma SealsExactly(env: Env, db: Db, k: RoundKey, minimum: U32)
    requires DbOk(env, db) && k !in db.roots && k.round <= LARGEST
    ensures var n, r := TicketsOf(db.tickets, k.pool, k.round), SealTx(env, db, k, minimum).1;
            && (r.Ok? <==> 1 <= n <= 100_000 && minimum <= n)
            && (r == Err(ThresholdNotReached) <==> n < minimum)
            && (r == Err(MerkleFailure) <==> minimum <= n <= 0xFFFF_FFFF && (n == 0 || n > 100_000))
            && (r == Err(CountOverflow) <==> n > 0xFFFF_FFFF)
            && r != Err(ConstraintViolation)
            && (r.Ok? ==> r.value.1 == n)
  {
    SealReady(env, db, k);
    SealByLeaves(env, db, k, minimum, Sort(Commitments(db.tickets, k)));
  }

  /** The leaves of an unsealed round: as many as its tickets, distinct, and without proofs so far. */
  lemma SealReady(env: Env, db: Db, k: RoundKey)
    requires DbOk(env, db) && k !in db.roots
    ensures var leaves := Sort(Commitments(db.tickets, k));
            |leaves| == TicketsOf(db.tickets, k.pool, k.round) && AdjacentDistinct(leaves)
    ensures ProofsOf(db, k) == map[]
  {
    CommitmentsAreTickets(env, db.tickets, k);
    LeavesReady(env, db.tickets, k);
    SortSorts(Commitments(db.tickets, k));
    AdjacentScanComplete(Sort(Commitments(db.tickets, k)));
  }

  lemma SealByLeaves(env: Env, db: Db, k: RoundKey, minimum: U32, leaves: seq<Digest>)
    requires leaves == Sort(Commitments(db.tickets, k)) && AdjacentDistinct(leaves) && ProofsOf(db, k) == map[]
    requires k !in db.roots && k.round <= LARGEST
    ensures var n, r := |leaves|, SealTx(env, db, k, minimum).1;
            && (r.Ok? <==> 1 <= n <= 100_000 && minimum <= n)
            && (r == Err(ThresholdNotReached) <==> n < minimum)
            && (r == Err(MerkleFailure) <==> minimum <= n <= 0xFFFF_FFFF && (n == 0 || n > 100_000))
            && (r == Err(CountOverflow) <==> n > 0xFFFF_FFFF)
            && r != Err(ConstraintViolation)
            && (r.Ok? ==> r.value.1 == n)
  {
  }

  /** The whole call, its check included. */
  lemma SealCallExactly(env: Env, db: Db, k: RoundKey, minimum: U32)
    requires DbOk(env, db)
    ensures var n, r := TicketsOf(db.tickets, k.pool, k.round), SealCohort(env, db, k, minimum).1;
            && (k.round > LARGEST ==> r == Err(CountOverflow))
            && (k.round <= LARGEST && k in db.roots ==> r == Ok(db.roots[k]))
            && (k.round <= LARGEST && k !in db.roots ==> (r.Ok? <==> 1 <= n <= 100_000 && minimum <= n))
            && (k.round <= LARGEST && k !in db.roots && r.Ok? ==> r.value.1 == n)
  {
    if k.round <= LARGEST && k !in db.roots { SealsExactly(env, db, k, minimum); }
  }

  // ---------- scheduling ----------

  /** A window is stored exactly once per round; the same one again is fine, another is a conflict. */
  lemma SchedulesExactly(db: Db, k: RoundKey, release: U64, end: U64)
    ensures var (db', r) := ScheduleOnce(db, k, release, end);
            && (r == Ok(()) <==>
                && k.round <= LARGEST
                && (if k in db.schedules then db.schedules[k] == (release, end) else release <= LARGEST && end <= LARGEST))
            && (r == Err(ConflictingSchedule) <==> k.round <= LARGEST && k in db.schedules && db.schedules[k] != (release, end))
            && (r == Ok(()) ==> db' == db.(schedules := db.schedules[k := (release, end)]))
            && (r.Err? ==> db' == db)
  {
  }
}
