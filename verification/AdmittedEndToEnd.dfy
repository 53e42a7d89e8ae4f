/**
 The coordinator with its admission control and the on-chain program, running side by side: whoever is
 in a published cohort was vetted.
 */
module AdmittedEndToEnd {
  import opened Bytes
  import Merkle
  import opened Inclusion
  import opened Store
  import RateLimit
  import opened Admission
  import opened EndToEnd
  import S = StoreRuns
  import L = Ledger

  type CoordStep = Step<Move>

  /** The coordinator after the first `n` steps, started on an existing database; the chain's leave it alone. */
  function CoordAfter(env: Env, cfg: Config, start: Db, run: seq<CoordStep>, n: nat): Coord
    requires n <= |run|
  {
    if n == 0 then Coord(RateLimit.Rate(0, 0), None, map[], start, [])
    else
      match run[n - 1]
      case OnStore(m) => Do(env, cfg, CoordAfter(env, cfg, start, run, n - 1), m)
      case OnChain(_) => CoordAfter(env, cfg, start, run, n - 1)
  }

  /** A database within the round's cap, in order. */
  ghost predicate GoodStart(env: Env, cfg: Config, start: Db) {
    DbOk(env, start) && |Commitments(start.tickets, cfg.Key())| <= cfg.maximum
  }

  lemma {:induction false} CoordAlwaysOk(env: Env, cfg: Config, start: Db, run: seq<CoordStep>, n: nat)
    requires n <= |run| && GoodStart(env, cfg, start)
    ensures CoordOk(env, cfg, start, CoordAfter(env, cfg, start, run, n))
    decreases n
  {
    if n > 0 {
      CoordAlwaysOk(env, cfg, start, run, n - 1);
      if run[n - 1].OnStore? {
        DoKeeps(env, cfg, start, CoordAfter(env, cfg, start, run, n - 1), run[n - 1].action);
      }
    }
  }

  lemma DoGrows(env: Env, cfg: Config, s: Coord, m: Move)
    requires DbOk(env, s.db)
    ensures Grows(s.db, Do(env, cfg, s, m).db)
  {
    if m.Advance? && m.id in s.requests {
      NextDbIs(env, cfg, s, m.id, m.tick);
      NextDb(env, cfg, s, Next(env, cfg, s, m.id, m.tick), m.id);
    } else {
      GrowsReflexive(s.db);
    }
  }

  lemma CoordStepGrows(env: Env, cfg: Config, start: Db, run: seq<CoordStep>, n: nat)
    requires 0 < n <= |run| && GoodStart(env, cfg, start)
    ensures Grows(CoordAfter(env, cfg, start, run, n - 1).db, CoordAfter(env, cfg, start, run, n).db)
  {
    var s := CoordAfter(env, cfg, start, run, n - 1);
    if run[n - 1].OnStore? {
      CoordAlwaysOk(env, cfg, start, run, n - 1);
      DoGrows(env, cfg, s, run[n - 1].action);
    } else {
      GrowsReflexive(s.db);
    }
  }

  lemma {:induction false} CoordGrows(env: Env, cfg: Config, start: Db, run: seq<CoordStep>, m: nat, n: nat)
    requires m <= n <= |run| && GoodStart(env, cfg, start)
    ensures Grows(CoordAfter(env, cfg, start, run, m).db, CoordAfter(env, cfg, start, run, n).db)
    decreases n
  {
    if m < n {
      CoordGrows(env, cfg, start, run, m, n - 1);
      CoordStepGrows(env, cfg, start, run, n);
      S.GrowsTransitive(CoordAfter(env, cfg, start, run, m).db, CoordAfter(env, cfg, start, run, n - 1).db,
                        CoordAfter(env, cfg, start, run, n).db);
    }
  }

  /** Some seal request has been answered with this root and count. */
  predicate Answered(s: Coord, root: Digest, count: U32) {
    exists id :: id in s.requests && s.requests[id] == SealDone(Ok((root, count)))
  }

  /** Step `m` publishes on chain, for round `a`, what the coordinator's sealing had returned. */
  predicate PublishesSeal(env: Env, cfg: Config, start: Db, run: seq<CoordStep>, m: nat, a: L.Address)
    requires m < |run|
  {
    && run[m].OnChain? && run[m].event.ins.PublishCohortRoot? && run[m].event.call.round == a
    && L.Succeeds(ChainAfter(run, m), run[m].event)
    && Answered(CoordAfter(env, cfg, start, run, m), run[m].event.ins.root, run[m].event.ins.acceptedCount)
  }

  /** From publication on, until the account is closed, the round carries what was published. */
  lemma RootStays(env: Env, cfg: Config, start: Db, run: seq<CoordStep>, m: nat, n: nat, a: L.Address)
    requires m < n <= |run| && PublishesSeal(env, cfg, start, run, m, a) && L.IsRound(ChainAfter(run, n), a)
    ensures var r, i := ChainAfter(run, n)[a].round, run[m].event.ins;
            r.cohortRoot == i.root && r.acceptedCount == i.acceptedCount
  {
    PublishedNext(run, m);
    ChainFrozen(run, m + 1, n, a);
  }

  lemma AnsweredTruly(env: Env, cfg: Config, start: Db, s: Coord, root: Digest, count: U32)
    requires CoordOk(env, cfg, start, s) && Answered(s, root, count)
    ensures cfg.Key() in s.db.roots && s.db.roots[cfg.Key()] == (root, count)
  {
    var id :| id in s.requests && s.requests[id] == SealDone(Ok((root, count)));
    assert Told(cfg, s.db, s.requests[id]);
  }

  /** And the database holds it, then and ever after. */
  lemma SealStays(env: Env, cfg: Config, start: Db, run: seq<CoordStep>, m: nat, n: nat, a: L.Address)
    requires m < n <= |run| && GoodStart(env, cfg, start) && PublishesSeal(env, cfg, start, run, m, a)
    ensures var db, i := CoordAfter(env, cfg, start, run, n).db, run[m].event.ins;
            cfg.Key() in db.roots && db.roots[cfg.Key()] == (i.root, i.acceptedCount)
  {
    CoordAlwaysOk(env, cfg, start, run, m);
    AnsweredTruly(env, cfg, start, CoordAfter(env, cfg, start, run, m), run[m].event.ins.root, run[m].event.ins.acceptedCount);
    CoordGrows(env, cfg, start, run, m, n);
  }

  /**
   These bytes are a ticket of the round, and unless it was there at the start it was admitted: it
   matched the binding, was signed, and had not expired at the slot it was checked against.
   */
  ghost predicate WasVetted(env: Env, cfg: Config, start: Db, s: Coord, ticket: seq<Byte>) {
    exists i: nat :: i < |s.db.tickets| && s.db.tickets[i].key == cfg.Key()
                     && env.canonical(s.db.tickets[i].ticket) == ticket && RowOrigin(cfg, start, s, i)
  }

  lemma Vetted(env: Env, cfg: Config, start: Db, s: Coord, rows: nat, ticket: seq<Byte>, p: Merkle.CohortProof)
    requires env.Real() && CoordOk(env, cfg, start, s) && SealedAt(env, s.db, cfg.Key(), rows)
    requires p.leafHash == Commitment(env.h, ticket)
    requires Merkle.Verified(NodeHash(env.h), p, s.db.roots[cfg.Key()].0, cfg.Key().round).Ok?
    ensures forall c :: c in Leaves(s.db, cfg.Key(), rows) ==> c in Preimages(env, s.db.tickets)
    ensures var (x, y) := StoreForgery(env, s.db, Leaves(s.db, cfg.Key(), rows), ticket, p);
            Collision(env.h, x, y) || WasVetted(env, cfg, start, s, ticket)
  {
    OnlyAcceptedTickets(env, s.db, cfg.Key(), rows, ticket, p);
    var (x, y) := StoreForgery(env, s.db, Leaves(s.db, cfg.Key(), rows), ticket, p);
    if !Collision(env.h, x, y) {
      var i :| 0 <= i < rows && s.db.tickets[i].key == cfg.Key() && env.canonical(s.db.tickets[i].ticket) == ticket;
      RowsHaveOrigin(env, cfg, start, s, i);
    }
  }

  /**
   Whoever is in a published cohort was vetted. Any proof that verifies against the published on-chain
   root, for the commitment of any bytes, yields two colliding byte strings unless those bytes are a
   ticket that was signed, matched the binding and had not expired at the slot it was checked, or was
   there when the coordinator started. `rows` names the cohort the collision is extracted from.
   */
  lemma PublishedVetted(env: Env, cfg: Config, start: Db, run: seq<CoordStep>, m: nat, n: nat, a: L.Address,
                        ticket: seq<Byte>, p: Merkle.CohortProof) returns (rows: nat)
    requires env.Real() && m < n <= |run| && GoodStart(env, cfg, start)
    requires PublishesSeal(env, cfg, start, run, m, a) && L.IsRound(ChainAfter(run, n), a)
    requires p.leafHash == Commitment(env.h, ticket)
    requires Merkle.Verified(NodeHash(env.h), p, ChainAfter(run, n)[a].round.cohortRoot, cfg.Key().round).Ok?
    ensures var s := CoordAfter(env, cfg, start, run, n);
            && SealedAt(env, s.db, cfg.Key(), rows)
            && (forall c :: c in Leaves(s.db, cfg.Key(), rows) ==> c in Preimages(env, s.db.tickets))
            && (WasVetted(env, cfg, start, s, ticket) ||
                var (x, y) := StoreForgery(env, s.db, Leaves(s.db, cfg.Key(), rows), ticket, p); Collision(env.h, x, y))
  {
    var s := CoordAfter(env, cfg, start, run, n);
    RootStays(env, cfg, start, run, m, n, a);
    SealStays(env, cfg, start, run, m, n, a);
    CoordAlwaysOk(env, cfg, start, run, n);
    assert IsSealed(env, s.db, cfg.Key());
    rows :| SealedAt(env, s.db, cfg.Key(), rows);
    Vetted(env, cfg, start, s, rows, ticket, p);
  }

  /**
   And everyone vetted in time is in it: the published count is the number of stored proofs and at most
   the configured maximum; there is a proof for exactly the commitments of the first `rows` ticket rows,
   and each verifies against the on-chain root.
   */
  lemma PublishedCohort(env: Env, cfg: Config, start: Db, run: seq<CoordStep>, m: nat, n: nat, a: L.Address, c: Digest)
    returns (rows: nat)
    requires env.Real() && m < n <= |run| && GoodStart(env, cfg, start)
    requires PublishesSeal(env, cfg, start, run, m, a) && L.IsRound(ChainAfter(run, n), a)
    ensures var db, r, k := CoordAfter(env, cfg, start, run, n).db, ChainAfter(run, n)[a].round, cfg.Key();
            && SealedAt(env, db, k, rows)
            && |ProofsOf(db, k)| == r.acceptedCount <= cfg.maximum
            && (c in ProofsOf(db, k) <==> c in Commitments(db.tickets[..rows], k))
            && (c in ProofsOf(db, k) ==>
                  Merkle.Verified(NodeHash(env.h), ProofsOf(db, k)[c], r.cohortRoot, k.round) == Ok(()))
  {
    var s := CoordAfter(env, cfg, start, run, n);
    RootStays(env, cfg, start, run, m, n, a);
    SealStays(env, cfg, start, run, m, n, a);
    CoordAlwaysOk(env, cfg, start, run, n);
    assert IsSealed(env, s.db, cfg.Key());
    rows :| SealedAt(env, s.db, cfg.Key(), rows);
    SealedPromise(env, s.db, cfg.Key(), rows, c);
    FewerRows(s.db.tickets, cfg.Key(), rows);
  }

  /** The first rows have no more commitments than all of them. */
  lemma {:induction false} FewerRows(tickets: seq<Row>, k: RoundKey, n: nat)
    requires n <= |tickets|
    ensures |Commitments(tickets[..n], k)| <= |Commitments(tickets, k)|
    decreases |tickets|
  {
    if n == |tickets| {
      assert tickets[..n] == tickets;
    } else {
      var front := tickets[..|tickets| - 1];
      FewerRows(front, k, n);
      assert front[..n] == tickets[..n];
    }
  }
}
