/**
 The coordinator's durable store: tables with their uniqueness constraints, the transactions that
 write them, and what every transaction keeps. Transactions are atomic and isolated.
 */
module Store {
  import opened Bytes
  import opened Sorting
  import opened Merkle
  import opened Inclusion

  datatype JoinTicket = JoinTicket(
    schemaVersion: U16, poolId: Digest, roundId: U64, templateHash: Digest, coordinationKey: Digest,
    nonceCommitment: Digest, expirySlot: U64, signature: seq<Byte>)

  /** Everything a sealing stores about its tree. */
  datatype Sealing = Sealing(root: Digest, proofs: map<Digest, CohortProof>)

  /** The table that gives the `i`th key the `i`th value, for the first `n` of them. */
  function Table(keys: seq<Digest>, values: seq<CohortProof>, n: nat): map<Digest, CohortProof>
    requires n <= |keys| && n <= |values|
  {
    if n == 0 then map[] else Table(keys, values, n - 1)[keys[n - 1] := values[n - 1]]
  }

  /** The proofs of all leaves, in leaf order. */
  function AllProofs(f: Pairing, leaves: seq<Digest>, round: U64): (r: seq<CohortProof>)
    requires |leaves| <= MAX_LEAVES
    ensures |r| == |leaves|
  {
    seq(|leaves|, i requires 0 <= i < |leaves| => ProofAt(f, leaves, i, round))
  }

  /** The root and proofs of the cohort tree over an ordered leaf list. */
  function TreeSealing(f: Pairing): (seq<Digest>, U64) -> Sealing {
    (leaves: seq<Digest>, round: U64) =>
      if 1 <= |leaves| <= MAX_LEAVES
      then Sealing(Root(f, leaves), Table(leaves, AllProofs(f, leaves, round), |leaves|))
      else Sealing(ZERO, map[])
  }

  /**
   What the store is given: the hash function, the canonical serialisation of tickets, how tickets
   are committed to and how a leaf list is sealed. The store's own laws hold for every commitment and
   sealing; what a participant is promised needs the program's own, which is `Real`.
   */
  datatype Env = Env(h: Hasher, canonical: JoinTicket -> seq<Byte>,
                     commit: JoinTicket -> Digest, sealing: (seq<Digest>, U64) -> Sealing)
  {
    ghost predicate Real() {
      && (forall t :: commit(t) == Commitment(h, canonical(t)))
      && sealing == TreeSealing(NodeHash(h))
    }
  }

  datatype RoundKey = RoundKey(pool: Digest, round: U64)

  datatype Row = Row(key: RoundKey, commitment: Digest, coordinationKey: Digest, ticket: JoinTicket)

  datatype StoreEvent = TicketAccepted(key: RoundKey, payload: Digest) | CohortSealed(key: RoundKey, payload: Digest)

  datatype StoreError =
    | DuplicateTicket | ThresholdNotReached | MerkleFailure | ConflictingSchedule | CountOverflow
    | ConstraintViolation | CountOutOfRange

  /** The tables an operation reads or writes. Rows and events are in insertion order. */
  datatype Db = Db(
    tickets: seq<Row>,
    roots: map<RoundKey, (Digest, U32)>,
    proofs: map<RoundKey, map<Digest, CohortProof>>,
    schedules: map<RoundKey, (U64, U64)>,
    events: seq<StoreEvent>)

  const EMPTY := Db([], map[], map[], map[], [])

  /** `as_i64` accepts exactly the values SQLite can hold. */
  predicate Persistable(x: U64) { x <= I64_MAX }

  function KeyOf(t: JoinTicket): RoundKey { RoundKey(t.poolId, t.roundId) }

  function RowOf(env: Env, t: JoinTicket): Row {
    Row(KeyOf(t), env.commit(t), t.coordinationKey, t)
  }

  /** UNIQUE(commitment) or UNIQUE(pool_id, round_id, coordination_key) would be violated. */
  predicate Clashes(a: Row, b: Row) {
    a.commitment == b.commitment || (a.key == b.key && a.coordinationKey == b.coordinationKey)
  }

  /** Commitments of one round's rows, in insertion order. */
  function Commitments(rows: seq<Row>, k: RoundKey): seq<Digest> {
    if rows == [] then []
    else
      var last := rows[|rows| - 1];
      Commitments(rows[..|rows| - 1], k) + if last.key == k then [last.commitment] else []
  }

  /** `ticket_count`: the number of a round's rows, read as a 32-bit count. */
  function CountOf(db: Db, k: RoundKey): Result<U32, StoreError> {
    var n := |Commitments(db.tickets, k)|;
    if !Persistable(k.round) then Err(CountOverflow)
    else if n > U32_MAX then Err(CountOutOfRange)
    else Ok(n)
  }

  function AcceptTx(env: Env, db: Db, t: JoinTicket): (Db, Result<Digest, StoreError>) {
    var row := RowOf(env, t);
    if !Persistable(t.roundId) then (db, Err(CountOverflow))
    else if exists i :: 0 <= i < |db.tickets| && Clashes(db.tickets[i], row) then (db, Err(DuplicateTicket))
    else (db.(tickets := db.tickets + [row], events := db.events + [TicketAccepted(row.key, row.commitment)]),
          Ok(row.commitment))
  }

  /** The proof rows of one round, by commitment. */
  function ProofsOf(db: Db, k: RoundKey): map<Digest, CohortProof> {
    if k in db.proofs then db.proofs[k] else map[]
  }

  /** `build` refuses an empty, oversized or duplicate leaf list, and nothing else. */
  predicate Buildable(leaves: seq<Digest>) {
    1 <= |leaves| <= MAX_LEAVES && AdjacentDistinct(leaves)
  }

  /** The sealing transaction: the whole cohort is committed, or nothing is. */
  function SealTx(env: Env, db: Db, k: RoundKey, minimum: U32): (Db, Result<(Digest, U32), StoreError>) {
    var leaves := Sort(Commitments(db.tickets, k));
    if !Persistable(k.round) then (db, Err(CountOverflow))
    else if |leaves| > U32_MAX then (db, Err(CountOverflow))
    else if |leaves| < minimum then (db, Err(ThresholdNotReached))
    else if !Buildable(leaves) then (db, Err(MerkleFailure))
    else if k in db.roots || (exists c :: c in leaves && c in ProofsOf(db, k)) then (db, Err(ConstraintViolation))
    else
      var tree := env.sealing(leaves, k.round);
      (db.(roots := db.roots[k := (tree.root, |leaves|)],
           proofs := db.proofs[k := ProofsOf(db, k) + tree.proofs],
           events := db.events + [CohortSealed(k, tree.root)]),
       Ok((tree.root, |leaves|)))
  }

  function ScheduleTx(db: Db, k: RoundKey, release: U64, end: U64): (Db, Result<(), StoreError>) {
    if !Persistable(k.round) || !Persistable(release) || !Persistable(end) then (db, Err(CountOverflow))
    else if k in db.schedules then (db, Err(ConstraintViolation))
    else (db.(schedules := db.schedules[k := (release, end)]), Ok(()))
  }

  /** `seal_cohort` with nothing in between its check and its transaction. */
  function SealCohort(env: Env, db: Db, k: RoundKey, minimum: U32): (Db, Result<(Digest, U32), StoreError>) {
    if !Persistable(k.round) then (db, Err(CountOverflow))
    else if k in db.roots then (db, Ok(db.roots[k]))
    else SealTx(env, db, k, minimum)
  }

  /** `schedule_release` with nothing in between its check and its insert. */
  function ScheduleOnce(db: Db, k: RoundKey, release: U64, end: U64): (Db, Result<(), StoreError>) {
    if !Persistable(k.round) then (db, Err(CountOverflow))
    else if k in db.schedules then (db, if db.schedules[k] == (release, end) then Ok(()) else Err(ConflictingSchedule))
    else ScheduleTx(db, k, release, end)
  }

  // ---------- what holds of every database the transactions produce ----------

  ghost predicate RowsOk(env: Env, rows: seq<Row>) {
    && (forall i :: 0 <= i < |rows| ==> rows[i] == RowOf(env, rows[i].ticket) && Persistable(rows[i].key.round))
    && (forall i, j :: 0 <= i < j < |rows| ==> !Clashes(rows[i], rows[j]))
  }

  /** The cohort a round is sealed with, when its first `n` ticket rows were there. */
  function Leaves(db: Db, k: RoundKey, n: nat): seq<Digest>
    requires n <= |db.tickets|
  {
    Sort(Commitments(db.tickets[..n], k))
  }

  /**
   The round was sealed when the ticket table had `n` rows: root, count and proofs are those of
   exactly the commitments present then.
   */
  ghost predicate SealedAt(env: Env, db: Db, k: RoundKey, n: nat) {
    n <= |db.tickets| && k in db.roots &&
    var leaves := Leaves(db, k, n);
    && 1 <= |leaves| <= MAX_LEAVES && Persistable(k.round)
    && db.roots[k] == (env.sealing(leaves, k.round).root, |leaves|)
    && ProofsOf(db, k) == env.sealing(leaves, k.round).proofs
  }

  ghost predicate IsSealed(env: Env, db: Db, k: RoundKey) {
    exists n: nat :: SealedAt(env, db, k, n)
  }

  function AcceptedEvents(events: seq<StoreEvent>): seq<StoreEvent> {
    if events == [] then []
    else
      var last := events[|events| - 1];
      AcceptedEvents(events[..|events| - 1]) + if last.TicketAccepted? then [last] else []
  }

  function SealEvents(events: seq<StoreEvent>): seq<StoreEvent> {
    if events == [] then []
    else
      var last := events[|events| - 1];
      SealEvents(events[..|events| - 1]) + if last.CohortSealed? then [last] else []
  }

  /** The event log mirrors the tables: one acceptance per ticket row, in order, and one seal per sealed round. */
  ghost predicate EventsOk(db: Db) {
    && |AcceptedEvents(db.events)| == |db.tickets|
    && (forall i :: 0 <= i < |db.tickets| ==>
          AcceptedEvents(db.events)[i] == TicketAccepted(db.tickets[i].key, db.tickets[i].commitment))
    && (var seals := SealEvents(db.events);
        && (forall i, j :: 0 <= i < j < |seals| ==> seals[i].key != seals[j].key)
        && (forall i :: 0 <= i < |seals| ==> seals[i].key in db.roots && seals[i].payload == db.roots[seals[i].key].0)
        && (forall k {:trigger Logged(seals, k)} :: k in db.roots ==> Logged(seals, k)))
  }

  ghost predicate Logged(seals: seq<StoreEvent>, k: RoundKey) {
    exists i :: 0 <= i < |seals| && seals[i].key == k
  }

  ghost predicate SealsOk(env: Env, db: Db) {
    && (forall k {:trigger IsSealed(env, db, k)} :: k in db.roots ==> IsSealed(env, db, k))
    && (forall k :: k in db.proofs ==> k in db.roots)
  }

  ghost predicate DbOk(env: Env, db: Db) {
    RowsOk(env, db.tickets) && SealsOk(env, db) && EventsOk(db)
  }

  /** Later databases only add: nothing stored is changed or removed. */
  ghost predicate Grows(db: Db, db': Db) {
    && db.tickets <= db'.tickets
    && (forall k :: k in db.roots ==> k in db'.roots && db'.roots[k] == db.roots[k])
    && (forall k :: k in db.roots ==> ProofsOf(db', k) == ProofsOf(db, k))
    && (forall k :: k in db.schedules ==> k in db'.schedules && db'.schedules[k] == db.schedules[k])
    && db.events <= db'.events
  }

  lemma GrowsReflexive(db: Db)
    ensures Grows(db, db)
  {
  }

  /** Once sealed with a cohort, always sealed with that cohort. */
  lemma SealedForever(env: Env, db: Db, db': Db, k: RoundKey, n: nat)
    requires SealedAt(env, db, k, n) && Grows(db, db')
    ensures SealedAt(env, db', k, n)
  {
    assert db'.tickets[..n] == db.tickets[..n];
  }

  lemma IsSealedForever(env: Env, db: Db, db': Db, k: RoundKey)
    requires IsSealed(env, db, k) && Grows(db, db')
    ensures IsSealed(env, db', k)
  {
    var n: nat :| SealedAt(env, db, k, n);
    SealedForever(env, db, db', k, n);
  }

  lemma {:induction false} CommitmentsAreRows(env: Env, rows: seq<Row>, k: RoundKey, c: Digest)
    requires c in Commitments(rows, k)
    ensures exists i :: 0 <= i < |rows| && rows[i].key == k && rows[i].commitment == c
    decreases |rows|
  {
    var front, last := rows[..|rows| - 1], rows[|rows| - 1];
    if last.key == k && last.commitment == c {
      assert rows[|rows| - 1].key == k;
    } else {
      CommitmentsAreRows(env, front, k, c);
      var i :| 0 <= i < |front| && front[i].key == k && front[i].commitment == c;
      assert rows[i] == front[i];
    }
  }

  lemma {:induction false} RowsAreCommitments(rows: seq<Row>, i: nat)
    requires i < |rows|
    ensures rows[i].commitment in Commitments(rows, rows[i].key)
    decreases |rows|
  {
    if i < |rows| - 1 {
      RowsAreCommitments(rows[..|rows| - 1], i);
    }
  }

  lemma UniqueRow(env: Env, rows: seq<Row>, i: nat, j: nat)
    requires RowsOk(env, rows) && i < |rows| && j < |rows| && rows[i].commitment == rows[j].commitment
    ensures i == j
  {
    assert i < j ==> !Clashes(rows[i], rows[j]);
    assert j < i ==> !Clashes(rows[j], rows[i]);
  }

  lemma {:induction false} CommitmentsDistinct(env: Env, rows: seq<Row>, k: RoundKey)
    requires RowsOk(env, rows)
    ensures Distinct(Commitments(rows, k))
    decreases |rows|
  {
    if rows != [] {
      var front, last := rows[..|rows| - 1], rows[|rows| - 1];
      CommitmentsDistinct(env, front, k);
      forall i | 0 <= i < |front| ensures front[i].commitment != last.commitment {
        assert !Clashes(rows[i], rows[|rows| - 1]);
      }
      if last.commitment in Commitments(front, k) {
        CommitmentsAreRows(env, front, k, last.commitment);
        assert false;
      }
    }
  }

  lemma {:induction false} TableKeys(keys: seq<Digest>, values: seq<CohortProof>, n: nat)
    requires n <= |keys| && n <= |values|
    ensures Table(keys, values, n).Keys == set c | c in keys[..n]
  {
    if n > 0 {
      TableKeys(keys, values, n - 1);
      assert keys[..n] == keys[..n - 1] + [keys[n - 1]];
    }
  }

  lemma {:induction false} TableAt(keys: seq<Digest>, values: seq<CohortProof>, n: nat, i: nat)
    requires i < n <= |keys| && n <= |values| && Distinct(keys)
    ensures keys[i] in Table(keys, values, n) && Table(keys, values, n)[keys[i]] == values[i]
  {
    if i < n - 1 {
      TableAt(keys, values, n - 1, i);
    }
  }

  lemma Appended<T>(s: seq<T>, x: T)
    ensures (s + [x])[..|s + [x]| - 1] == s && (s + [x])[|s + [x]| - 1] == x
  {
  }

  /** Seals survive any growth that seals nothing new. */
  lemma SealsStay(env: Env, db: Db, db': Db)
    requires SealsOk(env, db) && Grows(db, db') && db'.roots == db.roots && db'.proofs == db.proofs
    ensures SealsOk(env, db')
  {
    forall k | k in db'.roots ensures IsSealed(env, db', k) {
      assert IsSealed(env, db, k);
      IsSealedForever(env, db, db', k);
    }
  }

  lemma AcceptEventsKeep(db: Db, db': Db, row: Row)
    requires EventsOk(db) && db'.roots == db.roots && db'.tickets == db.tickets + [row]
    requires db'.events == db.events + [TicketAccepted(row.key, row.commitment)]
    ensures EventsOk(db')
  {
    var e := TicketAccepted(row.key, row.commitment);
    Appended(db.events, e);
    assert AcceptedEvents(db'.events) == AcceptedEvents(db.events) + [e];
    assert SealEvents(db'.events) == SealEvents(db.events);
  }

  lemma AcceptGrows(env: Env, db: Db, t: JoinTicket)
    ensures Grows(db, AcceptTx(env, db, t).0)
  {
  }

  /** What accepting a ticket writes, and that the new row clashes with none. */
  lemma AcceptWrites(env: Env, db: Db, t: JoinTicket, db': Db)
    requires AcceptTx(env, db, t).1.Ok? && db' == AcceptTx(env, db, t).0
    ensures var row := RowOf(env, t);
            && Persistable(row.key.round)
            && (forall i :: 0 <= i < |db.tickets| ==> !Clashes(db.tickets[i], row))
            && db' == db.(tickets := db.tickets + [row], events := db.events + [TicketAccepted(row.key, row.commitment)])
  {
  }

  lemma RowAdded(env: Env, rows: seq<Row>, row: Row)
    requires RowsOk(env, rows) && row == RowOf(env, row.ticket) && Persistable(row.key.round)
    requires forall i :: 0 <= i < |rows| ==> !Clashes(rows[i], row)
    ensures RowsOk(env, rows + [row])
  {
  }

  lemma AcceptKeeps(env: Env, db: Db, t: JoinTicket)
    requires DbOk(env, db)
    ensures DbOk(env, AcceptTx(env, db, t).0) && Grows(db, AcceptTx(env, db, t).0)
  {
    AcceptGrows(env, db, t);
    if AcceptTx(env, db, t).1.Ok? {
      AcceptKeepsTo(env, db, t, AcceptTx(env, db, t).0);
    }
  }

  lemma AcceptKeepsTo(env: Env, db: Db, t: JoinTicket, db': Db)
    requires DbOk(env, db) && AcceptTx(env, db, t).1.Ok? && db' == AcceptTx(env, db, t).0 && Grows(db, db')
    ensures DbOk(env, db')
  {
    AcceptWrites(env, db, t, db');
    RowAdded(env, db.tickets, RowOf(env, t));
    SealsStay(env, db, db');
    AcceptEventsKeep(db, db', RowOf(env, t));
  }

  /** The leaves of a round are in order and distinct, so a tree can be built from them as they are. */
  lemma LeavesReady(env: Env, rows: seq<Row>, k: RoundKey)
    requires RowsOk(env, rows)
    ensures StrictlyOrdered(Sort(Commitments(rows, k))) && Distinct(Sort(Commitments(rows, k)))
  {
    CommitmentsDistinct(env, rows, k);
    SortSorts(Commitments(rows, k));
    SortDistinct(Commitments(rows, k));
    AdjacentScanComplete(Sort(Commitments(rows, k)));
  }

  /** What a successful sealing transaction checked and wrote, beside what was there. */
  lemma SealTxForm(env: Env, db: Db, k: RoundKey, minimum: U32, leaves: seq<Digest>)
    requires SealTx(env, db, k, minimum).1.Ok? && leaves == Sort(Commitments(db.tickets, k))
    ensures k !in db.roots && minimum <= |leaves| <= U32_MAX && 1 <= |leaves| <= MAX_LEAVES && Persistable(k.round)
    ensures var tree := env.sealing(leaves, k.round);
            SealTx(env, db, k, minimum).0
            == db.(roots := db.roots[k := (tree.root, |leaves|)],
                   proofs := db.proofs[k := ProofsOf(db, k) + tree.proofs],
                   events := db.events + [CohortSealed(k, tree.root)])
  {
  }

  /** Sealing leaves the ticket table alone. */
  lemma SealTxRows(env: Env, db: Db, k: RoundKey, minimum: U32)
    ensures SealTx(env, db, k, minimum).0.tickets == db.tickets
  {
  }

  /** What sealing adds to the other tables. */
  lemma SealTxWrites(env: Env, db: Db, k: RoundKey, minimum: U32, db': Db)
    requires SealTx(env, db, k, minimum).1.Ok? && db' == SealTx(env, db, k, minimum).0
    ensures k !in db.roots && k in db'.roots && db'.roots == db.roots[k := db'.roots[k]]
    ensures k in db'.proofs && db'.proofs == db.proofs[k := db'.proofs[k]]
    ensures db'.tickets == db.tickets && db'.schedules == db.schedules
    ensures db'.events == db.events + [CohortSealed(k, db'.roots[k].0)]
  {
  }

  /** A successful sealing transaction seals the round with exactly the rows present. */
  lemma SealTxSeals(env: Env, db: Db, k: RoundKey, minimum: U32, db': Db)
    requires DbOk(env, db) && SealTx(env, db, k, minimum).1.Ok? && db' == SealTx(env, db, k, minimum).0
    ensures k !in db.roots && SealedAt(env, db', k, |db.tickets|) && db'.roots[k].1 >= minimum && Grows(db, db')
  {
    SealTxWrites(env, db, k, minimum, db');
    FreshKeyGrows(db, db', k);
    SealTxSealed(env, db, k, minimum, db');
  }

  lemma SealTxSealed(env: Env, db: Db, k: RoundKey, minimum: U32, db': Db)
    requires k !in db.proofs && SealTx(env, db, k, minimum).1.Ok? && db' == SealTx(env, db, k, minimum).0
    ensures SealedAt(env, db', k, |db.tickets|) && db'.roots[k].1 >= minimum
  {
    var leaves := Sort(Commitments(db.tickets, k));
    SealTxForm(env, db, k, minimum, leaves);
    assert ProofsOf(db, k) == map[];
    assert db.tickets[..|db.tickets|] == db.tickets;
    SealedByForm(env, db', k, leaves, |db.tickets|);
  }

  /** Root, count and proofs of a round are those of the commitments of its first rows. */
  lemma SealedByForm(env: Env, db: Db, k: RoundKey, leaves: seq<Digest>, n: nat)
    requires n <= |db.tickets| && leaves == Sort(Commitments(db.tickets[..n], k))
    requires 1 <= |leaves| <= MAX_LEAVES && Persistable(k.round)
    requires k in db.roots && db.roots[k] == (env.sealing(leaves, k.round).root, |leaves|)
    requires ProofsOf(db, k) == env.sealing(leaves, k.round).proofs
    ensures SealedAt(env, db, k, n)
  {
  }

  lemma FreshKeyGrows(db: Db, db': Db, k: RoundKey)
    requires k !in db.roots && db'.tickets == db.tickets && db'.schedules == db.schedules && db.events <= db'.events
    requires k in db'.roots && db'.roots == db.roots[k := db'.roots[k]]
    requires k in db'.proofs && db'.proofs == db.proofs[k := db'.proofs[k]]
    ensures Grows(db, db')
  {
  }

  lemma SealTxKeeps(env: Env, db: Db, k: RoundKey, minimum: U32)
    requires DbOk(env, db)
    ensures DbOk(env, SealTx(env, db, k, minimum).0) && Grows(db, SealTx(env, db, k, minimum).0)
  {
    if SealTx(env, db, k, minimum).1.Ok? {
      SealTxKeepsTo(env, db, k, minimum, SealTx(env, db, k, minimum).0);
    } else {
      RefusedSealWritesNothing(env, db, k, minimum);
    }
  }

  lemma RefusedSealWritesNothing(env: Env, db: Db, k: RoundKey, minimum: U32)
    requires SealTx(env, db, k, minimum).1.Err?
    ensures SealTx(env, db, k, minimum).0 == db
  {
  }

  lemma SealTxKeepsTo(env: Env, db: Db, k: RoundKey, minimum: U32, db': Db)
    requires DbOk(env, db) && SealTx(env, db, k, minimum).1.Ok? && db' == SealTx(env, db, k, minimum).0
    ensures DbOk(env, db') && Grows(db, db')
  {
    SealTxSeals(env, db, k, minimum, db');
    SealTxWrites(env, db, k, minimum, db');
    OneMoreSealed(env, db, db', k);
  }

  lemma OneMoreSealed(env: Env, db: Db, db': Db, k: RoundKey)
    requires DbOk(env, db) && Grows(db, db') && db'.tickets == db.tickets && SealedAt(env, db', k, |db.tickets|)
    requires k !in db.roots && db'.roots == db.roots[k := db'.roots[k]]
    requires db'.proofs.Keys == db.proofs.Keys + {k}
    requires db'.events == db.events + [CohortSealed(k, db'.roots[k].0)]
    ensures DbOk(env, db')
  {
    SealsJoin(env, db, db', k, |db.tickets|);
    SealEventsKeep(db, db', k);
  }

  /** One more sealed round beside the ones there already. */
  lemma SealsJoin(env: Env, db: Db, db': Db, k: RoundKey, n: nat)
    requires SealsOk(env, db) && Grows(db, db') && SealedAt(env, db', k, n)
    requires db'.roots.Keys == db.roots.Keys + {k} && db'.proofs.Keys == db.proofs.Keys + {k}
    ensures SealsOk(env, db')
  {
    forall q | q in db'.roots ensures IsSealed(env, db', q) {
      if q != k {
        assert IsSealed(env, db, q);
        IsSealedForever(env, db, db', q);
      }
    }
  }

  lemma SealEventsKeep(db: Db, db': Db, k: RoundKey)
    requires EventsOk(db) && k !in db.roots && k in db'.roots && db'.tickets == db.tickets
    requires db'.roots == db.roots[k := db'.roots[k]]
    requires db'.events == db.events + [CohortSealed(k, db'.roots[k].0)]
    ensures EventsOk(db')
  {
    var e := CohortSealed(k, db'.roots[k].0);
    Appended(db.events, e);
    assert AcceptedEvents(db'.events) == AcceptedEvents(db.events);
    assert SealEvents(db'.events) == SealEvents(db.events) + [e];
    LoggedOnceMore(SealEvents(db.events), e, db.roots.Keys);
  }

  /** One more seal in the log logs one more round. */
  lemma LoggedOnceMore(seals: seq<StoreEvent>, e: StoreEvent, keys: set<RoundKey>)
    requires forall k {:trigger Logged(seals, k)} :: k in keys ==> Logged(seals, k)
    ensures forall k {:trigger Logged(seals + [e], k)} :: k in keys + {e.key} ==> Logged(seals + [e], k)
  {
    forall k | k in keys + {e.key} ensures Logged(seals + [e], k) {
      if k == e.key {
        assert (seals + [e])[|seals|].key == k;
      } else {
        assert Logged(seals, k);
        var i :| 0 <= i < |seals| && seals[i].key == k;
        assert (seals + [e])[i].key == k;
      }
    }
  }

  lemma ScheduleGrows(db: Db, k: RoundKey, release: U64, end: U64)
    ensures Grows(db, ScheduleTx(db, k, release, end).0)
  {
  }

  lemma ScheduleTxKeeps(env: Env, db: Db, k: RoundKey, release: U64, end: U64)
    requires DbOk(env, db)
    ensures DbOk(env, ScheduleTx(db, k, release, end).0) && Grows(db, ScheduleTx(db, k, release, end).0)
  {
    ScheduleGrows(db, k, release, end);
    SealsStay(env, db, ScheduleTx(db, k, release, end).0);
  }

  /** A round once sealed answers every later seal with the same root and count, and writes nothing. */
  lemma SealIdempotent(env: Env, db: Db, later: Db, k: RoundKey, minimum: U32, again: U32)
    requires DbOk(env, db) && SealCohort(env, db, k, minimum).1.Ok? && Grows(SealCohort(env, db, k, minimum).0, later)
    ensures SealCohort(env, later, k, again) == (later, SealCohort(env, db, k, minimum).1)
  {
    if k !in db.roots {
      SealTxSeals(env, db, k, minimum, SealTx(env, db, k, minimum).0);
    }
  }

  /** A window once scheduled stays: repeating it succeeds, any other is a conflict, and neither writes. */
  lemma ScheduleIdempotent(db: Db, later: Db, k: RoundKey, release: U64, end: U64, release': U64, end': U64)
    requires ScheduleOnce(db, k, release, end).1.Ok? && Grows(ScheduleOnce(db, k, release, end).0, later)
    ensures ScheduleOnce(later, k, release', end').0 == later
    ensures ScheduleOnce(later, k, release', end').1
         == if (release', end') == (release, end) then Ok(()) else Err(ConflictingSchedule)
  {
    assert k in later.schedules && later.schedules[k] == (release, end);
  }

  // ---------- what a sealed round promises its participants ----------

  /** The cohort a round was sealed with: its commitments were all rows of the round. */
  lemma LeavesAreRows(env: Env, db: Db, k: RoundKey, n: nat, c: Digest)
    requires n <= |db.tickets| && c in Leaves(db, k, n)
    ensures exists i :: 0 <= i < n && db.tickets[i].key == k && db.tickets[i].commitment == c
  {
    var rows := db.tickets[..n];
    SortDistinct(Commitments(rows, k));
    CommitmentsAreRows(env, rows, k, c);
    var i :| 0 <= i < |rows| && rows[i].key == k && rows[i].commitment == c;
    assert db.tickets[i] == rows[i];
  }

  /**
   A round sealed when the ticket table had `n` rows has a stored proof for exactly the commitments its
   rows had then; each is the proof of its own commitment and verifies against the stored root and
   round, and the stored cohort size is their number.
   */
  lemma SealedPromise(env: Env, db: Db, k: RoundKey, n: nat, c: Digest)
    requires env.Real() && DbOk(env, db) && SealedAt(env, db, k, n)
    ensures c in ProofsOf(db, k) <==> c in Commitments(db.tickets[..n], k)
    ensures c in ProofsOf(db, k) ==>
              && ProofsOf(db, k)[c].leafHash == c
              && Verified(NodeHash(env.h), ProofsOf(db, k)[c], db.roots[k].0, k.round) == Ok(())
    ensures db.roots[k].1 == |ProofsOf(db, k)| == |Commitments(db.tickets[..n], k)|
  {
    LeavesReady(env, db.tickets[..n], k);
    SortDistinct(Commitments(db.tickets[..n], k));
    TreePromise(NodeHash(env.h), Leaves(db, k, n), k.round, c);
  }

  /** A tree's proof table has one verified proof per leaf. */
  lemma TreePromise(f: Pairing, leaves: seq<Digest>, round: U64, c: Digest)
    requires 1 <= |leaves| <= MAX_LEAVES && Distinct(leaves)
    ensures var tree := TreeSealing(f)(leaves, round);
            && tree.root == Root(f, leaves)
            && |tree.proofs| == |leaves|
            && (c in tree.proofs <==> c in leaves)
            && (c in tree.proofs ==>
                  tree.proofs[c].leafHash == c && Verified(f, tree.proofs[c], tree.root, round) == Ok(()))
  {
    var proofs := AllProofs(f, leaves, round);
    var table := Table(leaves, proofs, |leaves|);
    TableKeys(leaves, proofs, |leaves|);
    assert leaves[..|leaves|] == leaves;
    DistinctSize(leaves);
    assert |table| == |table.Keys|;
    if c in leaves {
      var i :| 0 <= i < |leaves| && leaves[i] == c;
      TableAt(leaves, proofs, |leaves|, i);
      assert table[c] == proofs[i] == ProofAt(f, leaves, i, round);
      ProofsVerify(f, leaves, i, round, 0);
    }
  }

  /** Canonical bytes behind each commitment in the ticket table. */
  function Preimages(env: Env, rows: seq<Row>): map<Digest, seq<Byte>> {
    if rows == [] then map[]
    else
      var last := rows[|rows| - 1];
      Preimages(env, rows[..|rows| - 1])[last.commitment := env.canonical(last.ticket)]
  }

  /** A recorded preimage hashes to its commitment and is some row's canonical ticket. */
  ghost predicate IsPreimage(env: Env, rows: seq<Row>, c: Digest, bytes: seq<Byte>) {
    && c == Commitment(env.h, bytes)
    && exists i :: 0 <= i < |rows| && rows[i].commitment == c && env.canonical(rows[i].ticket) == bytes
  }

  lemma PreimageStays(env: Env, front: seq<Row>, last: Row, c: Digest, bytes: seq<Byte>)
    requires IsPreimage(env, front, c, bytes)
    ensures IsPreimage(env, front + [last], c, bytes)
  {
    var i :| 0 <= i < |front| && front[i].commitment == c && env.canonical(front[i].ticket) == bytes;
    assert (front + [last])[i] == front[i];
  }

  lemma PreimageNew(env: Env, front: seq<Row>, last: Row)
    requires env.Real() && last == RowOf(env, last.ticket)
    ensures IsPreimage(env, front + [last], last.commitment, env.canonical(last.ticket))
  {
    assert (front + [last])[|front|] == last;
  }

  lemma {:induction false} PreimagesAre(env: Env, rows: seq<Row>)
    requires env.Real() && RowsOk(env, rows)
    ensures forall i :: 0 <= i < |rows| ==> rows[i].commitment in Preimages(env, rows)
    ensures forall c :: c in Preimages(env, rows) ==> IsPreimage(env, rows, c, Preimages(env, rows)[c])
    decreases |rows|
  {
    if rows != [] {
      var front, last := rows[..|rows| - 1], rows[|rows| - 1];
      PreimagesAre(env, front);
      assert rows == front + [last];
      PreimageNew(env, front, last);
      forall c | c in Preimages(env, rows) ensures IsPreimage(env, rows, c, Preimages(env, rows)[c]) {
        if c != last.commitment { PreimageStays(env, front, last, c, Preimages(env, front)[c]); }
      }
    }
  }

  /** The hasher inputs that would collide if an accepted proof were not genuine. */
  function StoreForgery(env: Env, db: Db, leaves: seq<Digest>, ticket: seq<Byte>, p: CohortProof): (seq<Byte>, seq<Byte>)
    requires leaves != [] && forall c :: c in leaves ==> c in Preimages(env, db.tickets)
  {
    Forgery(env.h, leaves, Preimages(env, db.tickets), ticket, p.leafIndex, p.siblings)
  }

  /**
   Nobody else gets in: a proof accepted against a stored root, for the commitment of any bytes
   whatever, yields a hash collision unless those bytes are a ticket accepted for that round before
   it was sealed.
   */
  lemma OnlyAcceptedTickets(env: Env, db: Db, k: RoundKey, n: nat, ticket: seq<Byte>, p: CohortProof)
    requires env.Real() && DbOk(env, db) && SealedAt(env, db, k, n)
    requires p.leafHash == Commitment(env.h, ticket)
    requires Verified(NodeHash(env.h), p, db.roots[k].0, k.round).Ok?
    ensures forall c :: c in Leaves(db, k, n) ==> c in Preimages(env, db.tickets)
    ensures var (x, y) := StoreForgery(env, db, Leaves(db, k, n), ticket, p);
            Collision(env.h, x, y) ||
            exists i :: 0 <= i < n && db.tickets[i].key == k && env.canonical(db.tickets[i].ticket) == ticket
  {
    var leaves, pre := Leaves(db, k, n), Preimages(env, db.tickets);
    PreimagesAre(env, db.tickets);
    forall c | c in leaves ensures c in pre { LeavesAreRows(env, db, k, n, c); }
    InclusionSoundness(env.h, leaves, pre, ticket, p, k.round);
    var (x, y) := StoreForgery(env, db, leaves, ticket, p);
    if !Collision(env.h, x, y) {
      var c := p.leafHash;
      LeavesAreRows(env, db, k, n, c);
      var i :| 0 <= i < n && db.tickets[i].key == k && db.tickets[i].commitment == c;
      assert IsPreimage(env, db.tickets, c, pre[c]);
      var j :| 0 <= j < |db.tickets| && db.tickets[j].commitment == c && env.canonical(db.tickets[j].ticket) == pre[c];
      UniqueRow(env, db.tickets, i, j);
    }
  }
}
