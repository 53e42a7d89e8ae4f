/**
 The coordinator's database and the on-chain program running side by side, their steps interleaved
 arbitrarily: what publishing a sealed root on chain is worth.
 */
module EndToEnd {
  import opened Bytes
  import Merkle
  import opened Inclusion
  import opened Store
  import S = StoreRuns
  import L = Ledger
  import R = LedgerRuns

  /** A step of the coordinator's side, whatever its actions are, or of the chain. */
  datatype Step<A> = OnStore(action: A) | OnChain(event: L.Event)

  type StoreStep = Step<S.Action>

  /** The store's own steps among the first `n`. */
  function StorePart<A>(run: seq<Step<A>>, n: nat): seq<A>
    requires n <= |run|
  {
    if n == 0 then []
    else if run[n - 1].OnStore? then StorePart(run, n - 1) + [run[n - 1].action]
    else StorePart(run, n - 1)
  }

  /** The chain's own steps among the first `n`. */
  function ChainPart<A>(run: seq<Step<A>>, n: nat): seq<L.Event>
    requires n <= |run|
  {
    if n == 0 then []
    else if run[n - 1].OnChain? then ChainPart(run, n - 1) + [run[n - 1].event]
    else ChainPart(run, n - 1)
  }

  /** The database after the first `n` steps; the chain's leave it alone. */
  function StoreAfter(env: Env, run: seq<StoreStep>, n: nat): S.Sys
    requires n <= |run|
  {
    if n == 0 then S.Sys(EMPTY, map[], [])
    else
      match run[n - 1]
      case OnStore(a) => S.Act(env, StoreAfter(env, run, n - 1), a)
      case OnChain(_) => StoreAfter(env, run, n - 1)
  }

  /** The ledger after the first `n` steps; the store's leave it alone. */
  function ChainAfter<A>(run: seq<Step<A>>, n: nat): L.Ledger
    requires n <= |run|
  {
    if n == 0 then map[]
    else
      match run[n - 1]
      case OnStore(_) => ChainAfter(run, n - 1)
      case OnChain(e) => L.Step(ChainAfter(run, n - 1), e)
  }

  lemma {:induction false} PartsArePrefixes<A>(run: seq<Step<A>>, m: nat, n: nat)
    requires m <= n <= |run|
    ensures StorePart(run, m) <= StorePart(run, n) && ChainPart(run, m) <= ChainPart(run, n)
    decreases n
  {
    if m < n {
      PartsArePrefixes(run, m, n - 1);
    }
  }

  lemma {:induction false} StorePrefix(env: Env, a: seq<S.Action>, b: seq<S.Action>, n: nat)
    requires a <= b && n <= |a|
    ensures S.After(env, a, n) == S.After(env, b, n)
    decreases n
  {
    if n > 0 {
      StorePrefix(env, a, b, n - 1);
      assert a[n - 1] == b[n - 1];
    }
  }

  lemma {:induction false} ChainPrefix(a: seq<L.Event>, b: seq<L.Event>, n: nat)
    requires a <= b && n <= |a|
    ensures L.After(a, n) == L.After(b, n)
    decreases n
  {
    if n > 0 {
      ChainPrefix(a, b, n - 1);
      assert a[n - 1] == b[n - 1];
    }
  }

  /** One more step of the database's own run. */
  lemma StoreAppend(env: Env, b: seq<S.Action>, a: S.Action)
    ensures S.After(env, b + [a], |b + [a]|) == S.Act(env, S.After(env, b, |b|), a)
  {
    StorePrefix(env, b, b + [a], |b|);
  }

  lemma ChainAppend(b: seq<L.Event>, e: L.Event)
    ensures L.After(b + [e], |b + [e]|) == L.Step(L.After(b, |b|), e)
  {
    ChainPrefix(b, b + [e], |b|);
  }

  /** The database sees exactly its own run. */
  lemma {:induction false} StoreProjection(env: Env, run: seq<StoreStep>, n: nat)
    requires n <= |run|
    ensures StoreAfter(env, run, n) == S.After(env, StorePart(run, n), |StorePart(run, n)|)
    decreases n
  {
    if n > 0 {
      StoreProjection(env, run, n - 1);
      if run[n - 1].OnStore? { StoreAppend(env, StorePart(run, n - 1), run[n - 1].action); }
    }
  }

  /** The ledger sees exactly its own run. */
  lemma {:induction false} ChainProjection<A>(run: seq<Step<A>>, n: nat)
    requires n <= |run|
    ensures ChainAfter(run, n) == L.After(ChainPart(run, n), |ChainPart(run, n)|)
    decreases n
  {
    if n > 0 {
      ChainProjection(run, n - 1);
      if run[n - 1].OnChain? { ChainAppend(ChainPart(run, n - 1), run[n - 1].event); }
    }
  }

  /** The ledger at two times of a joint run, seen as two times of one chain run. */
  lemma ChainTimes<A>(run: seq<Step<A>>, m: nat, n: nat)
    requires m <= n <= |run|
    ensures var b := ChainPart(run, n); var i := |ChainPart(run, m)|;
            i <= |b| && ChainAfter(run, m) == L.After(b, i) && ChainAfter(run, n) == L.After(b, |b|)
  {
    PartsArePrefixes(run, m, n);
    ChainProjection(run, m);
    ChainProjection(run, n);
    ChainPrefix(ChainPart(run, m), ChainPart(run, n), |ChainPart(run, m)|);
  }

  lemma StoreTimes(env: Env, run: seq<StoreStep>, m: nat, n: nat)
    requires m <= n <= |run|
    ensures S.SysOk(env, StoreAfter(env, run, m)) && S.SysOk(env, StoreAfter(env, run, n))
    ensures Grows(StoreAfter(env, run, m).db, StoreAfter(env, run, n).db)
  {
    PartsArePrefixes(run, m, n);
    StoreProjection(env, run, m);
    StoreProjection(env, run, n);
    var b, i := StorePart(run, n), |StorePart(run, m)|;
    StorePrefix(env, StorePart(run, m), b, i);
    S.AlwaysOk(env, b, i);
    S.AlwaysOk(env, b, |b|);
    S.GrowsAlong(env, b, i, |b|);
  }

  lemma StoreGrows(env: Env, run: seq<StoreStep>, m: nat, n: nat)
    requires m <= n <= |run|
    ensures Grows(StoreAfter(env, run, m).db, StoreAfter(env, run, n).db)
  {
    StoreTimes(env, run, m, n);
  }

  /** Step `m` publishes on chain, for round `a`, what sealing round `k` had returned to some caller. */
  predicate Publishes(env: Env, run: seq<StoreStep>, m: nat, k: RoundKey, a: L.Address)
    requires m < |run|
  {
    var s, l := StoreAfter(env, run, m), ChainAfter(run, m);
    && run[m].OnChain? && run[m].event.ins.PublishCohortRoot? && run[m].event.call.round == a
    && L.Succeeds(l, run[m].event)
    && exists i :: 0 <= i < |s.replies|
         && s.replies[i] == S.SealReply(k, Ok((run[m].event.ins.root, run[m].event.ins.acceptedCount)))
  }

  lemma PublishedNow(l: L.Ledger, e: L.Event)
    requires e.ins.PublishCohortRoot? && L.Succeeds(l, e)
    ensures var a, l' := e.call.round, L.Step(l, e);
            L.IsRound(l', a) && l'[a].round.cohortRoot == e.ins.root != ZERO && l'[a].round.acceptedCount == e.ins.acceptedCount
  {
  }

  /** What a publication leaves on chain. */
  lemma PublishedNext<A>(run: seq<Step<A>>, m: nat)
    requires m < |run| && run[m].OnChain? && run[m].event.ins.PublishCohortRoot? && L.Succeeds(ChainAfter(run, m), run[m].event)
    ensures var a, l, i := run[m].event.call.round, ChainAfter(run, m + 1), run[m].event.ins;
            L.IsRound(l, a) && l[a].round.cohortRoot == i.root != ZERO && l[a].round.acceptedCount == i.acceptedCount
  {
    PublishedNow(ChainAfter(run, m), run[m].event);
  }

  /** From publication on, until the account is closed, the round carries what was published. */
  lemma PublishedStays(env: Env, run: seq<StoreStep>, m: nat, n: nat, k: RoundKey, a: L.Address)
    requires m < n <= |run| && Publishes(env, run, m, k, a) && L.IsRound(ChainAfter(run, n), a)
    ensures var r := ChainAfter(run, n)[a].round; var i := run[m].event.ins;
            r.cohortRoot == i.root && r.acceptedCount == i.acceptedCount
  {
    PublishedNext(run, m);
    ChainFrozen(run, m + 1, n, a);
  }

  lemma ChainFrozen<A>(run: seq<Step<A>>, m: nat, n: nat, a: L.Address)
    requires m <= n <= |run| && L.IsRound(ChainAfter(run, m), a) && L.IsRound(ChainAfter(run, n), a)
    ensures R.Frozen(ChainAfter(run, m)[a].round, ChainAfter(run, n)[a].round)
  {
    ChainTimes(run, m, n);
    R.FrozenOverRuns(ChainPart(run, n), |ChainPart(run, m)|, |ChainPart(run, n)|, a);
  }

  /** What was returned from sealing is what the database holds when it is published. */
  lemma SealedThen(env: Env, run: seq<StoreStep>, m: nat, k: RoundKey, a: L.Address)
    requires m < |run| && Publishes(env, run, m, k, a)
    ensures var db := StoreAfter(env, run, m).db; var i := run[m].event.ins;
            k in db.roots && db.roots[k] == (i.root, i.acceptedCount)
  {
    StoreTimes(env, run, m, m);
    var s := StoreAfter(env, run, m);
    var i :| 0 <= i < |s.replies|
          && s.replies[i] == S.SealReply(k, Ok((run[m].event.ins.root, run[m].event.ins.acceptedCount)));
    assert S.Truthful(s.db, s.replies[i]);
  }

  /** And ever after. */
  lemma SealedStays(env: Env, run: seq<StoreStep>, m: nat, n: nat, k: RoundKey, a: L.Address)
    requires m < n <= |run| && Publishes(env, run, m, k, a)
    ensures var db := StoreAfter(env, run, n).db; var i := run[m].event.ins;
            DbOk(env, db) && k in db.roots && db.roots[k] == (i.root, i.acceptedCount)
  {
    SealedThen(env, run, m, k, a);
    StoreTimes(env, run, m, n);
  }

  /** Step `t` of a joint run is the one that seals round `k`. */
  predicate SealsAt(env: Env, run: seq<StoreStep>, t: nat, k: RoundKey)
    requires t < |run|
  {
    k !in StoreAfter(env, run, t).db.roots && k in StoreAfter(env, run, t + 1).db.roots
  }

  lemma {:induction false} SealStep(env: Env, run: seq<StoreStep>, n: nat, k: RoundKey) returns (t: nat)
    requires n <= |run| && k in StoreAfter(env, run, n).db.roots
    ensures t < n && SealsAt(env, run, t, k)
    decreases n
  {
    if k in StoreAfter(env, run, n - 1).db.roots {
      t := SealStep(env, run, n - 1, k);
    } else {
      t := n - 1;
    }
  }

  /** The sealing step seals with the rows present. */
  lemma SealedNow(env: Env, run: seq<StoreStep>, t: nat, k: RoundKey)
    requires t < |run| && SealsAt(env, run, t, k)
    ensures SealedAt(env, StoreAfter(env, run, t + 1).db, k, |StoreAfter(env, run, t).db.tickets|)
  {
    StoreTimes(env, run, t, t);
    assert run[t].OnStore?;
    var s, a := StoreAfter(env, run, t), run[t].action;
    assert StoreAfter(env, run, t + 1) == S.Act(env, s, a);
    S.ActSeals(env, s, a, k);
  }

  /** From its sealing step on, a round stays sealed with the rows it had then. */
  lemma SealedWith(env: Env, run: seq<StoreStep>, t: nat, n: nat, k: RoundKey)
    requires t < n <= |run| && SealsAt(env, run, t, k)
    ensures SealedAt(env, StoreAfter(env, run, n).db, k, |StoreAfter(env, run, t).db.tickets|)
  {
    SealedNow(env, run, t, k);
    SealedOn(env, run, t + 1, n, k, |StoreAfter(env, run, t).db.tickets|);
  }

  lemma SealedOn(env: Env, run: seq<StoreStep>, m: nat, n: nat, k: RoundKey, rows: nat)
    requires m <= n <= |run| && SealedAt(env, StoreAfter(env, run, m).db, k, rows)
    ensures SealedAt(env, StoreAfter(env, run, n).db, k, rows)
  {
    StoreGrows(env, run, m, n);
    SealedForever(env, StoreAfter(env, run, m).db, StoreAfter(env, run, n).db, k, rows);
  }

  lemma RowsStay(env: Env, run: seq<StoreStep>, t: nat, n: nat)
    requires t <= n <= |run|
    ensures var rows, later := StoreAfter(env, run, t).db.tickets, StoreAfter(env, run, n).db.tickets;
            |rows| <= |later| && later[..|rows|] == rows
  {
    StoreGrows(env, run, t, n);
  }

  /**
   End-to-end inclusion. Once the root and count that sealing returned are published on chain, there is
   the earlier step `t` that sealed the round; and at every later time until the round account is
   closed, whatever both sides do meanwhile: the database still holds that root, it has a proof for
   exactly the commitments present at the sealing step, every one of them verifies against the
   on-chain root, and the on-chain count is their number.
   */
  lemma PublishedInclusion(env: Env, run: seq<StoreStep>, m: nat, n: nat, k: RoundKey, a: L.Address, c: Digest)
    returns (t: nat)
    requires env.Real() && m < n <= |run| && Publishes(env, run, m, k, a) && L.IsRound(ChainAfter(run, n), a)
    ensures t < m && SealsAt(env, run, t, k)
    ensures var db, r := StoreAfter(env, run, n).db, ChainAfter(run, n)[a].round;
            var cohort := Commitments(StoreAfter(env, run, t).db.tickets, k);
            && k in db.roots && db.roots[k] == (r.cohortRoot, r.acceptedCount)
            && |ProofsOf(db, k)| == |cohort| == r.acceptedCount
            && (c in ProofsOf(db, k) <==> c in cohort)
            && (c in ProofsOf(db, k) ==>
                  ProofsOf(db, k)[c].leafHash == c
                  && Merkle.Verified(NodeHash(env.h), ProofsOf(db, k)[c], r.cohortRoot, k.round) == Ok(()))
  {
    PublishedStays(env, run, m, n, k, a);
    SealedStays(env, run, m, n, k, a);
    SealedThen(env, run, m, k, a);
    t := SealStep(env, run, m, k);
    SealedWith(env, run, t, n, k);
    RowsStay(env, run, t, n);
    SealedPromise(env, StoreAfter(env, run, n).db, k, |StoreAfter(env, run, t).db.tickets|, c);
  }

  /** A ticket of this round was accepted into the database. */
  ghost predicate WasAccepted(env: Env, db: Db, k: RoundKey, ticket: seq<Byte>) {
    exists i :: 0 <= i < |db.tickets| && db.tickets[i].key == k && env.canonical(db.tickets[i].ticket) == ticket
  }

  /**
   End-to-end exclusion. Any proof that verifies against the published on-chain root, for the
   commitment of any bytes, yields two colliding byte strings unless those bytes are a ticket the
   coordinator accepted for that round. `count` names the cohort the collision is extracted from.
   */
  lemma PublishedExclusion(env: Env, run: seq<StoreStep>, m: nat, n: nat, k: RoundKey, a: L.Address,
                           ticket: seq<Byte>, p: Merkle.CohortProof) returns (count: nat)
    requires env.Real() && m < n <= |run| && Publishes(env, run, m, k, a) && L.IsRound(ChainAfter(run, n), a)
    requires p.leafHash == Commitment(env.h, ticket)
    requires Merkle.Verified(NodeHash(env.h), p, ChainAfter(run, n)[a].round.cohortRoot, k.round).Ok?
    ensures var db := StoreAfter(env, run, n).db;
            && SealedAt(env, db, k, count)
            && (forall c :: c in Leaves(db, k, count) ==> c in Preimages(env, db.tickets))
            && (WasAccepted(env, db, k, ticket) ||
                var (x, y) := StoreForgery(env, db, Leaves(db, k, count), ticket, p); Collision(env.h, x, y))
  {
    PublishedStays(env, run, m, n, k, a);
    SealedStays(env, run, m, n, k, a);
    var db := StoreAfter(env, run, n).db;
    assert IsSealed(env, db, k);
    count :| SealedAt(env, db, k, count);
    OnlyAcceptedTickets(env, db, k, count, ticket, p);
  }
}
