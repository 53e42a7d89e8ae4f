/**
 Any number of callers of one database. `seal_cohort` and `schedule_release` look before they write,
 outside the transaction that writes, so other callers may act in between: a check and its
 transaction are separate steps here, interleaved arbitrarily with each other and with tickets.
 */
module StoreRuns {
  import opened Bytes
  import opened Store
  import Merkle
  import Inclusion

  datatype Pending =
    | SealPending(key: RoundKey, minimum: U32)
    | SchedulePending(key: RoundKey, release: U64, end: U64)

  /** What a call returned to its caller. */
  datatype Reply =
    | TicketReply(ticket: JoinTicket, result: Result<Digest, StoreError>)
    | SealReply(key: RoundKey, sealed: Result<(Digest, U32), StoreError>)
    | ScheduleReply(key: RoundKey, release: U64, end: U64, scheduled: Result<(), StoreError>)

  datatype Action =
    | Submit(ticket: JoinTicket)
    | SealCheck(caller: nat, key: RoundKey, minimum: U32)
    | SealCommit(caller: nat)
    | ScheduleCheck(caller: nat, key: RoundKey, release: U64, end: U64)
    | ScheduleCommit(caller: nat)

  datatype Sys = Sys(db: Db, pending: map<nat, Pending>, replies: seq<Reply>)

  /** One step. A step whose caller is not at that point of a call does nothing. */
  function Act(env: Env, s: Sys, a: Action): Sys {
    match a
    case Submit(t) =>
      var (db, r) := AcceptTx(env, s.db, t);
      Sys(db, s.pending, s.replies + [TicketReply(t, r)])
    case SealCheck(caller, k, minimum) =>
      if caller in s.pending then s
      else if !Persistable(k.round) then s.(replies := s.replies + [SealReply(k, Err(CountOverflow))])
      else if k in s.db.roots then s.(replies := s.replies + [SealReply(k, Ok(s.db.roots[k]))])
      else s.(pending := s.pending[caller := SealPending(k, minimum)])
    case SealCommit(caller) =>
      if caller !in s.pending || !s.pending[caller].SealPending? then s
      else
        var call := s.pending[caller];
        var (db, r) := SealTx(env, s.db, call.key, call.minimum);
        Sys(db, s.pending - {caller}, s.replies + [SealReply(call.key, r)])
    case ScheduleCheck(caller, k, release, end) =>
      if caller in s.pending then s
      else if !Persistable(k.round) then s.(replies := s.replies + [ScheduleReply(k, release, end, Err(CountOverflow))])
      else if k in s.db.schedules then
        var r := if s.db.schedules[k] == (release, end) then Ok(()) else Err(ConflictingSchedule);
        s.(replies := s.replies + [ScheduleReply(k, release, end, r)])
      else s.(pending := s.pending[caller := SchedulePending(k, release, end)])
    case ScheduleCommit(caller) =>
      if caller !in s.pending || !s.pending[caller].SchedulePending? then s
      else
        var call := s.pending[caller];
        var (db, r) := ScheduleTx(s.db, call.key, call.release, call.end);
        Sys(db, s.pending - {caller}, s.replies + [ScheduleReply(call.key, call.release, call.end, r)])
  }

  /** The system after the first `n` steps, starting from an empty database. */
  function After(env: Env, run: seq<Action>, n: nat): Sys
    requires n <= |run|
  {
    if n == 0 then Sys(EMPTY, map[], []) else Act(env, After(env, run, n - 1), run[n - 1])
  }

  /** A successful reply told the caller what the database holds. */
  predicate Truthful(db: Db, r: Reply) {
    match r
    case TicketReply(t, result) =>
      result.Ok? ==> exists i :: 0 <= i < |db.tickets| && db.tickets[i].ticket == t && db.tickets[i].commitment == result.value
    case SealReply(k, sealed) => sealed.Ok? ==> k in db.roots && db.roots[k] == sealed.value
    case ScheduleReply(k, release, end, scheduled) =>
      scheduled.Ok? ==> k in db.schedules && db.schedules[k] == (release, end)
  }

  lemma TruthfulLater(db: Db, db': Db, r: Reply)
    requires Truthful(db, r) && Grows(db, db')
    ensures Truthful(db', r)
  {
    if r.TicketReply? && r.result.Ok? {
      var i :| 0 <= i < |db.tickets| && db.tickets[i].ticket == r.ticket && db.tickets[i].commitment == r.result.value;
      assert db'.tickets[i] == db.tickets[i];
    }
  }

  ghost predicate SysOk(env: Env, s: Sys) {
    DbOk(env, s.db) && forall i :: 0 <= i < |s.replies| ==> Truthful(s.db, s.replies[i])
  }

  lemma SubmitGrows(env: Env, s: Sys, t: JoinTicket)
    requires DbOk(env, s.db)
    ensures var db := Act(env, s, Submit(t)).db; DbOk(env, db) && Grows(s.db, db)
  {
    AcceptKeeps(env, s.db, t);
  }

  lemma SealCommitGrows(env: Env, s: Sys, caller: nat)
    requires DbOk(env, s.db) && caller in s.pending && s.pending[caller].SealPending?
    ensures var db := Act(env, s, SealCommit(caller)).db; DbOk(env, db) && Grows(s.db, db)
  {
    SealTxKeeps(env, s.db, s.pending[caller].key, s.pending[caller].minimum);
  }

  lemma ScheduleCommitGrows(env: Env, s: Sys, caller: nat)
    requires DbOk(env, s.db) && caller in s.pending && s.pending[caller].SchedulePending?
    ensures var db := Act(env, s, ScheduleCommit(caller)).db; DbOk(env, db) && Grows(s.db, db)
  {
    var call := s.pending[caller];
    ScheduleTxKeeps(env, s.db, call.key, call.release, call.end);
  }

  /** The database part of a step. */
  lemma ActGrows(env: Env, s: Sys, a: Action)
    requires DbOk(env, s.db)
    ensures DbOk(env, Act(env, s, a).db) && Grows(s.db, Act(env, s, a).db)
  {
    if a.Submit? {
      SubmitGrows(env, s, a.ticket);
    } else if a.SealCommit? && a.caller in s.pending && s.pending[a.caller].SealPending? {
      SealCommitGrows(env, s, a.caller);
    } else if a.ScheduleCommit? && a.caller in s.pending && s.pending[a.caller].SchedulePending? {
      ScheduleCommitGrows(env, s, a.caller);
    } else {
      assert Act(env, s, a).db == s.db;
      GrowsReflexive(s.db);
    }
  }

  /** At most one reply per step, and it is truthful. */
  lemma ActReplies(env: Env, s: Sys, a: Action)
    ensures var s' := Act(env, s, a);
            s'.replies == s.replies ||
            (|s'.replies| == |s.replies| + 1 && s'.replies[..|s.replies|] == s.replies
             && Truthful(s'.db, s'.replies[|s.replies|]))
  {
    match a
    case Submit(t) =>
      var (db, r) := AcceptTx(env, s.db, t);
      if r.Ok? { assert db.tickets[|s.db.tickets|].ticket == t; }
    case _ =>
  }

  lemma ActKeeps(env: Env, s: Sys, a: Action)
    requires SysOk(env, s)
    ensures SysOk(env, Act(env, s, a))
  {
    var s' := Act(env, s, a);
    ActGrows(env, s, a);
    ActReplies(env, s, a);
    forall i | 0 <= i < |s'.replies| ensures Truthful(s'.db, s'.replies[i]) {
      if i < |s.replies| {
        assert s'.replies[i] == s.replies[i];
        TruthfulLater(s.db, s'.db, s.replies[i]);
      }
    }
  }

  /** After any interleaving the database is in order and every successful reply is still true of it. */
  lemma {:induction false} AlwaysOk(env: Env, run: seq<Action>, n: nat)
    requires n <= |run|
    ensures SysOk(env, After(env, run, n))
  {
    if n > 0 {
      AlwaysOk(env, run, n - 1);
      ActKeeps(env, After(env, run, n - 1), run[n - 1]);
    }
  }

  lemma GrowsTransitive(a: Db, b: Db, c: Db)
    requires Grows(a, b) && Grows(b, c)
    ensures Grows(a, c)
  {
  }

  lemma StepGrows(env: Env, run: seq<Action>, n: nat)
    requires 0 < n <= |run|
    ensures Grows(After(env, run, n - 1).db, After(env, run, n).db)
  {
    AlwaysOk(env, run, n - 1);
    ActGrows(env, After(env, run, n - 1), run[n - 1]);
  }

  /** The database only grows along a run: a stored root, proof or schedule is never replaced. */
  lemma {:induction false} GrowsAlong(env: Env, run: seq<Action>, m: nat, n: nat)
    requires m <= n <= |run|
    ensures Grows(After(env, run, m).db, After(env, run, n).db)
    decreases n
  {
    if m < n {
      GrowsAlong(env, run, m, n - 1);
      StepGrows(env, run, n);
      GrowsTransitive(After(env, run, m).db, After(env, run, n - 1).db, After(env, run, n).db);
    }
  }

  /**
   Agreement: however calls interleave, all successful seals of a round returned one and the same
   root and count, which is what the database holds, and all successful schedules of a round passed
   one and the same window, which is what the database holds.
   */
  lemma Agreement(env: Env, run: seq<Action>, n: nat, i: nat, j: nat)
    requires n <= |run| && i < |After(env, run, n).replies| && j < |After(env, run, n).replies|
    ensures var s := After(env, run, n); var r, q := s.replies[i], s.replies[j];
            && (r.SealReply? && q.SealReply? && r.key == q.key && r.sealed.Ok? && q.sealed.Ok? ==>
                  r.sealed == q.sealed && r.key in s.db.roots && s.db.roots[r.key] == r.sealed.value)
            && (r.ScheduleReply? && q.ScheduleReply? && r.key == q.key && r.scheduled.Ok? && q.scheduled.Ok? ==>
                  r.release == q.release && r.end == q.end
                  && r.key in s.db.schedules && s.db.schedules[r.key] == (r.release, r.end))
  {
    AlwaysOk(env, run, n);
    var s := After(env, run, n);
    assert Truthful(s.db, s.replies[i]) && Truthful(s.db, s.replies[j]);
  }

  /** Step `m` is the one that seals round `k`. */
  predicate SealsAt(env: Env, run: seq<Action>, m: nat, k: RoundKey)
    requires m < |run|
  {
    k !in After(env, run, m).db.roots && k in After(env, run, m + 1).db.roots
  }

  lemma RootStays(env: Env, run: seq<Action>, m: nat, n: nat, k: RoundKey)
    requires m <= n <= |run| && k in After(env, run, m).db.roots
    ensures k in After(env, run, n).db.roots
  {
    GrowsAlong(env, run, m, n);
  }

  /** Every sealed round has the step that sealed it. */
  lemma {:induction false} SealOrigin(env: Env, run: seq<Action>, n: nat, k: RoundKey) returns (m: nat)
    requires n <= |run| && k in After(env, run, n).db.roots
    ensures m < n && SealsAt(env, run, m, k)
    decreases n
  {
    m := n - 1;
    if k in After(env, run, m).db.roots {
      m := SealOrigin(env, run, m, k);
    }
  }

  /** A round is sealed exactly from its sealing step on, so it has only one. */
  lemma SealedExactlyFrom(env: Env, run: seq<Action>, m: nat, n: nat, k: RoundKey)
    requires m < |run| && n <= |run| && SealsAt(env, run, m, k)
    ensures k in After(env, run, n).db.roots <==> m < n
  {
    if m < n {
      RootStays(env, run, m + 1, n, k);
    } else if k in After(env, run, n).db.roots {
      RootStays(env, run, n, m, k);
    }
  }

  /** The sealing step is a caller's sealing transaction, with the rows then present. */
  lemma SealedBy(env: Env, run: seq<Action>, m: nat, k: RoundKey)
    requires m < |run| && SealsAt(env, run, m, k)
    ensures SealedAt(env, After(env, run, m + 1).db, k, |After(env, run, m).db.tickets|)
    ensures run[m].SealCommit? && run[m].caller in After(env, run, m).pending
    ensures var call := After(env, run, m).pending[run[m].caller];
            call.SealPending? && call.key == k && After(env, run, m + 1).db.roots[k].1 >= call.minimum
  {
    AlwaysOk(env, run, m);
    ActSeals(env, After(env, run, m), run[m], k);
  }

  lemma SealedOn(env: Env, run: seq<Action>, m: nat, n: nat, k: RoundKey, rows: nat)
    requires m <= n <= |run| && SealedAt(env, After(env, run, m).db, k, rows)
    ensures SealedAt(env, After(env, run, n).db, k, rows)
    ensures After(env, run, n).db.roots[k] == After(env, run, m).db.roots[k]
  {
    GrowsAlong(env, run, m, n);
    SealedForever(env, After(env, run, m).db, After(env, run, n).db, k, rows);
  }

  /**
   Sealed cohorts are immutable: at every later time the round's root, count and proofs are those of
   exactly the commitments its ticket rows had at the sealing step, whatever tickets came after.
   */
  lemma SealedCohortFixed(env: Env, run: seq<Action>, m: nat, n: nat, k: RoundKey)
    requires m < n <= |run| && SealsAt(env, run, m, k)
    ensures SealedAt(env, After(env, run, n).db, k, |After(env, run, m).db.tickets|)
    ensures run[m].SealCommit? && run[m].caller in After(env, run, m).pending
    ensures var call := After(env, run, m).pending[run[m].caller];
            call.SealPending? && call.key == k && After(env, run, n).db.roots[k].1 >= call.minimum
  {
    SealedBy(env, run, m, k);
    var rows := |After(env, run, m).db.tickets|;
    SealedOn(env, run, m + 1, n, k, rows);
  }

  /** A round becomes sealed only by the transaction of a caller sealing it, with the rows then present. */
  lemma ActSeals(env: Env, s: Sys, a: Action, k: RoundKey)
    requires DbOk(env, s.db) && k !in s.db.roots && k in Act(env, s, a).db.roots
    ensures a.SealCommit? && a.caller in s.pending && s.pending[a.caller].SealPending? && s.pending[a.caller].key == k
    ensures SealedAt(env, Act(env, s, a).db, k, |s.db.tickets|)
    ensures Act(env, s, a).db.roots[k].1 >= s.pending[a.caller].minimum
  {
    assert a.SealCommit?;
    SealTxSeals(env, s.db, s.pending[a.caller].key, s.pending[a.caller].minimum, Act(env, s, a).db);
  }

  /**
   The proofs a round ever has are those of exactly the commitments present at its sealing step, each
   verifies against the stored root, and the stored count is their number.
   */
  lemma SealedCohortExact(env: Env, run: seq<Action>, m: nat, n: nat, k: RoundKey, c: Digest)
    requires env.Real() && m < n <= |run| && SealsAt(env, run, m, k)
    ensures var db, cohort := After(env, run, n).db, Commitments(After(env, run, m).db.tickets, k);
            && k in db.roots && db.roots[k].1 == |cohort| == |ProofsOf(db, k)|
            && (c in ProofsOf(db, k) <==> c in cohort)
            && (c in ProofsOf(db, k) ==>
                  && ProofsOf(db, k)[c].leafHash == c
                  && Merkle.Verified(Inclusion.NodeHash(env.h), ProofsOf(db, k)[c], db.roots[k].0, k.round) == Ok(()))
  {
    var rows, db := After(env, run, m).db.tickets, After(env, run, n).db;
    AlwaysOk(env, run, n);
    SealedCohortFixed(env, run, m, n, k);
    GrowsAlong(env, run, m, n);
    assert db.tickets[..|rows|] == rows;
    SealedPromise(env, db, k, |rows|, c);
  }

  /**
   What each successful caller of sealing can rely on, at any time after its reply: there is the step
   that sealed the round; the proofs stored are those of exactly the commitments present at that step;
   each verifies against the root the caller was given, and the count it was given is their number.
   */
  lemma ReplyPromise(env: Env, run: seq<Action>, n: nat, i: nat, c: Digest) returns (m: nat)
    requires env.Real() && n <= |run| && i < |After(env, run, n).replies|
    requires After(env, run, n).replies[i].SealReply? && After(env, run, n).replies[i].sealed.Ok?
    ensures var s := After(env, run, n); var r := s.replies[i]; var proofs := ProofsOf(s.db, r.key);
            && m < n && SealsAt(env, run, m, r.key)
            && (c in proofs <==> c in Commitments(After(env, run, m).db.tickets, r.key))
            && |proofs| == r.sealed.value.1
            && (c in proofs ==>
                  Merkle.Verified(Inclusion.NodeHash(env.h), proofs[c], r.sealed.value.0, r.key.round) == Ok(()))
  {
    AlwaysOk(env, run, n);
    var s := After(env, run, n);
    assert Truthful(s.db, s.replies[i]);
    m := SealOrigin(env, run, n, s.replies[i].key);
    SealedCohortExact(env, run, m, n, s.replies[i].key, c);
  }

  /**
   What a participant can rely on: a ticket whose acceptance was answered before its round was sealed
   has, at every time after sealing, a stored proof that verifies against the round's root.
   */
  lemma AcceptedGetsProof(env: Env, run: seq<Action>, m: nat, n: nat, i: nat)
    requires env.Real() && m < n <= |run| && i < |After(env, run, m).replies|
    requires After(env, run, m).replies[i].TicketReply? && After(env, run, m).replies[i].result.Ok?
    requires SealsAt(env, run, m, KeyOf(After(env, run, m).replies[i].ticket))
    ensures var r, db := After(env, run, m).replies[i], After(env, run, n).db;
            var k, c := KeyOf(r.ticket), r.result.value;
            && k in db.roots && c in ProofsOf(db, k) && ProofsOf(db, k)[c].leafHash == c
            && Merkle.Verified(Inclusion.NodeHash(env.h), ProofsOf(db, k)[c], db.roots[k].0, k.round) == Ok(())
  {
    var r, db := After(env, run, m).replies[i], After(env, run, m).db;
    AlwaysOk(env, run, m);
    assert Truthful(db, r);
    var j :| 0 <= j < |db.tickets| && db.tickets[j].ticket == r.ticket && db.tickets[j].commitment == r.result.value;
    assert db.tickets[j] == RowOf(env, r.ticket);
    RowsAreCommitments(db.tickets, j);
    SealedCohortExact(env, run, m, n, KeyOf(r.ticket), r.result.value);
  }
}
