/**
 On whose authority, and under which policy, a round moves on. Registration, publication and sealing
 compare the round's pool with the pool they are given. Scheduling, finalizing, cancelling and closing
 do not: they check the authority of whatever pool is given. The lemmas say exactly what follows.
 */
module LedgerAuthority {
  import opened Bytes
  import opened Accounts
  import opened Ledger
  import opened LedgerInvariant
  import opened LedgerRuns
  import opened LedgerHistory

  /** Instructions that compare the round's pool with the pool given. */
  predicate ComparesPools(ins: Instruction) {
    ins.RegisterTransparent? || ins.PublishCohortRoot? || ins.SealRound?
  }

  /** Instructions that take any pool. */
  predicate TakesAnyPool(ins: Instruction) {
    ins.ScheduleRelease? || ins.FinalizeRound? || ins.CancelRound? || ins.CloseRound?
  }

  predicate Terminal(s: State) {
    s == Completed || s == Cancelled || s == Expired
  }

  /** The pool a live round belongs to. */
  function Own(l: Ledger, a: Address): (p: Pool)
    requires WellFormed(l) && IsRound(l, a)
    ensures IsPool(l, l[a].round.pool) && p == l[l[a].round.pool].pool
  {
    assert AccountOk(l, a);
    l[l[a].round.pool].pool
  }

  /** A call on a round, signed by the authority of some pool and naming that pool. */
  function By(l: Ledger, pool: Address, round: Address, slot: U64): Call
    requires IsPool(l, pool)
  {
    Call(l[pool].pool.authority, true, true, pool, round, round, slot, true, true, true)
  }

  // ---------- what any pool's authority can do to any round ----------

  /** Whoever runs any pool can cancel every round that is not terminal, and no other. */
  lemma AnyoneCancels(l: Ledger, a: Address, q: Address, slot: U64)
    requires IsRound(l, a) && IsPool(l, q)
    ensures var e := Event(CancelRound, By(l, q, a, slot));
            && (Succeeds(l, e) <==> !Terminal(l[a].round.state))
            && (Succeeds(l, e) ==> Step(l, e) == l[a := RoundData(l[a].round.(state := Cancelled))])
  {
    var e := Event(CancelRound, By(l, q, a, slot));
    assert Process(l, e) == Admin(l, e.call, e.ins);
  }

  /** Whoever runs any pool can close every terminal round, and no other. */
  lemma AnyoneCloses(l: Ledger, a: Address, q: Address, slot: U64)
    requires IsRound(l, a) && IsPool(l, q)
    ensures var e := Event(CloseRound, By(l, q, a, slot));
            && (Succeeds(l, e) <==> Terminal(l[a].round.state))
            && (Succeeds(l, e) ==> Step(l, e) == l - {a})
  {
    var e := Event(CloseRound, By(l, q, a, slot));
    assert Process(l, e) == Close(l, e.call);
  }

  /** Whoever runs any pool can schedule every sealed round, and the delay and window are that pool's. */
  lemma AnyoneSchedules(l: Ledger, a: Address, q: Address, slot: U64, release: U64)
    requires WellFormed(l) && IsRound(l, a) && IsPool(l, q)
    ensures var e, p := Event(ScheduleRelease(release), By(l, q, a, slot)), l[q].pool;
            && (Succeeds(l, e) <==>
                && l[a].round.state == Sealed && slot + p.minReleaseDelay <= release <= slot + p.maxReleaseDelay
                && release + p.executionWindow <= U64_MAX)
            && (Succeeds(l, e) ==>
                && IsRound(Step(l, e), a)
                && Step(l, e)[a].round == l[a].round.(
                     releaseSlot := release, windowEndSlot := release + p.executionWindow, state := ReleaseScheduled))
  {
    var e := Event(ScheduleRelease(release), By(l, q, a, slot));
    assert Process(l, e) == Admin(l, e.call, e.ins);
    assert AccountOk(l, a);
  }

  /** Whoever runs any pool can finalize every running round after its window, with metrics of its choice. */
  lemma AnyoneFinalizes(l: Ledger, a: Address, q: Address, slot: U64, metrics: Digest)
    requires IsRound(l, a) && IsPool(l, q)
    ensures var e := Event(FinalizeRound(metrics), By(l, q, a, slot));
            && (Succeeds(l, e) <==>
                l[a].round.state == ExecutionWindow && l[a].round.windowEndSlot < slot && metrics != ZERO)
            && (Succeeds(l, e) ==>
                Step(l, e) == l[a := RoundData(l[a].round.(metricsHash := metrics, state := Completed))])
  {
    var e := Event(FinalizeRound(metrics), By(l, q, a, slot));
    assert Process(l, e) == Admin(l, e.call, e.ins);
  }

  // ---------- exactly when a round obeys its own pool ----------

  /** Whatever moves this round on or removes it is signed by its own pool's authority. */
  ghost predicate ObeysOwnAuthority(l: Ledger, a: Address)
    requires WellFormed(l) && IsRound(l, a)
  {
    forall e :: Hits(l, e, a) && TakesAnyPool(e.ins) ==> e.call.authority == Own(l, a).authority
  }

  /** That holds of a live round if and only if every pool on the ledger has the authority of its own. */
  lemma OwnAuthorityExactly(l: Ledger, a: Address)
    requires WellFormed(l) && IsRound(l, a)
    ensures ObeysOwnAuthority(l, a) <==> forall q :: IsPool(l, q) ==> l[q].pool.authority == Own(l, a).authority
  {
    if ObeysOwnAuthority(l, a) {
      forall q | IsPool(l, q)
        ensures l[q].pool.authority == Own(l, a).authority
      {
        ForeignEvent(l, a, q);
      }
    }
    forall e | Hits(l, e, a) && TakesAnyPool(e.ins)
      ensures IsPool(l, e.call.pool) && e.call.authority == l[e.call.pool].pool.authority
    {
      AdministrativeSigned(l, e);
    }
  }

  /** In every state of a round some instruction on it is open to every pool's authority. */
  lemma ForeignEvent(l: Ledger, a: Address, q: Address)
    requires IsRound(l, a) && IsPool(l, q)
    ensures exists e :: Hits(l, e, a) && TakesAnyPool(e.ins) && e.call.authority == l[q].pool.authority
  {
    var cancel, close := Event(CancelRound, By(l, q, a, 0)), Event(CloseRound, By(l, q, a, 0));
    AnyoneCancels(l, a, q, 0);
    AnyoneCloses(l, a, q, 0);
    assert Hits(l, cancel, a) || Hits(l, close, a);
  }

  /** A pool carries the authority that signed the instruction that made it, then and ever after. */
  lemma InitializedFor(run: seq<Event>, i: nat, n: nat)
    requires i < n <= |run| && run[i].ins.InitializePool? && Succeeds(After(run, i), run[i])
    ensures IsPool(After(run, n), run[i].call.pool)
    ensures After(run, n)[run[i].call.pool].pool.authority == run[i].call.authority
  {
    PoolAsInitialized(After(run, i), run[i]);
    PolicyFixed(run, i + 1, n, run[i].call.pool);
  }

  /** All pools so far were made for one authority. */
  predicate MadeFor(run: seq<Event>, n: nat, authority: Address)
    requires n <= |run|
  {
    forall i :: 0 <= i < n && run[i].ins.InitializePool? && Succeeds(After(run, i), run[i]) ==> run[i].call.authority == authority
  }

  /**
   The same over runs: a live round obeys its own authority if and only if every pool made so far was
   made for it.
   */
  lemma OwnAuthorityOverRuns(run: seq<Event>, n: nat, a: Address)
    requires n <= |run| && IsRound(After(run, n), a)
    ensures WellFormed(After(run, n))
    ensures ObeysOwnAuthority(After(run, n), a) <==> MadeFor(run, n, Own(After(run, n), a).authority)
  {
    AlwaysWellFormed(run, n);
    var l := After(run, n);
    var mine := Own(l, a).authority;
    OwnAuthorityExactly(l, a);
    if ObeysOwnAuthority(l, a) {
      forall i | 0 <= i < n && run[i].ins.InitializePool? && Succeeds(After(run, i), run[i])
        ensures run[i].call.authority == mine
      {
        InitializedFor(run, i, n);
      }
    }
    if MadeFor(run, n, mine) {
      forall q | IsPool(l, q) ensures l[q].pool.authority == mine {
        var i := PoolOrigin(run, n, q);
      }
    }
  }

  // ---------- what follows for a single instruction, and for the window ----------

  /**
   Corollary. A successful registration, publication or sealing of a round names the round's own pool,
   and the last two are signed by its authority. The other four are signed by the named pool's authority,
   so by the own pool's exactly when the two pool accounts carry the same one.
   */
  lemma WhoseAuthority(l: Ledger, e: Event, a: Address)
    requires WellFormed(l) && IsRound(l, a) && Hits(l, e, a)
    ensures ComparesPools(e.ins) ==> e.call.signed && e.call.pool == l[a].round.pool
    ensures e.ins.PublishCohortRoot? || e.ins.SealRound? ==> e.call.authority == Own(l, a).authority
    ensures TakesAnyPool(e.ins) ==>
              IsPool(l, e.call.pool) && e.call.signed && e.call.authority == l[e.call.pool].pool.authority
  {
  }

  /**
   Corollary over runs: such an instruction was signed by the authority that initialised the pool it
   names, so by the one that initialised the round's own pool exactly when the two are the same.
   */
  lemma AuthorityOfOwnPool(run: seq<Event>, k: nat, a: Address) returns (i: nat, j: nat)
    requires k < |run| && IsRound(After(run, k), a)
    requires Hits(After(run, k), run[k], a) && TakesAnyPool(run[k].ins)
    ensures i < k && run[i].ins.InitializePool? && Succeeds(After(run, i), run[i])
    ensures j < k && run[j].ins.InitializePool? && Succeeds(After(run, j), run[j])
    ensures run[i].call.pool == run[k].call.pool && run[j].call.pool == After(run, k)[a].round.pool
    ensures run[k].call.authority == run[i].call.authority
  {
    AlwaysWellFormed(run, k);
    var own := Own(After(run, k), a);
    i := AuthorityOverRuns(run, k);
    j := PoolOrigin(run, k, After(run, k)[a].round.pool);
  }

  /** A pool's policy is the same at any two times it is there. */
  lemma PolicyFixed(run: seq<Event>, m: nat, n: nat, a: Address)
    requires m <= n <= |run| && IsPool(After(run, m), a)
    ensures IsPool(After(run, n), a)
    ensures var p, q := After(run, m)[a].pool, After(run, n)[a].pool; q == p.(nextRound := q.nextRound)
  {
    PoolCountsOpens(run, m, n, a);
  }

  /**
   Corollary. The window of a scheduled, running or completed round has the length of the pool named when
   scheduling, so it is the own pool's exactly when the two lengths agree; and when scheduling named the
   own pool, release and window obey the own pool's policy.
   */
  lemma OwnWindow(run: seq<Event>, n: nat, a: Address) returns (i: nat)
    requires n <= |run| && IsRound(After(run, n), a)
    requires HasWindow(After(run, n)[a].round)
    ensures WellFormed(After(run, n)) && i < n && ScheduledBy(run, i, a, After(run, n)[a].round)
    ensures var r, own, c := After(run, n)[a].round, Own(After(run, n), a), run[i].call;
            && (r.windowEndSlot == r.releaseSlot + own.executionWindow <==>
                After(run, i)[c.pool].pool.executionWindow == own.executionWindow)
            && (c.pool == r.pool ==>
                && c.slot + own.minReleaseDelay <= r.releaseSlot <= c.slot + own.maxReleaseDelay
                && r.windowEndSlot == r.releaseSlot + own.executionWindow)
  {
    AlwaysWellFormed(run, n);
    i := ScheduleOrigin(run, n, a);
    PolicyFixed(run, i, n, run[i].call.pool);
  }

  // ---------- a run in which the round does not obey its pool ----------

  function Creation(id: Digest): Instruction {
    InitializePool(id, ZERO, 2, 2, 0, 0, 1, MerkleCohort, 0)
  }

  /**
   Two pools of different authorities. The first opens a round; the second's authority, naming its own
   pool, cancels that round and then closes it.
   */
  function TwoPoolRun(x: Address, y: Address, id: Digest, id': Digest): seq<Event> {
    var p, q := PoolPda(id, 0), PoolPda(id', 0);
    var a := RoundPda(p, 0, 0);
    [ Event(Creation(id), Call(x, true, true, p, a, a, 0, true, true, true)),
      Event(Creation(id'), Call(y, true, true, q, a, a, 0, true, true, true)),
      Event(OpenRound(0, 1, ZERO, 0), Call(x, true, true, p, a, a, 0, true, true, true)),
      Event(CancelRound, Call(y, true, true, q, a, a, 0, true, true, true)),
      Event(CloseRound, Call(y, true, true, q, a, a, 0, true, true, true)) ]
  }

  /** The round is open after three instructions, under the first authority. */
  lemma TwoPoolsSetUp(x: Address, y: Address, id: Digest, id': Digest)
    requires id != id'
    ensures var run, a, q := TwoPoolRun(x, y, id, id'), RoundPda(PoolPda(id, 0), 0, 0), PoolPda(id', 0);
            && (forall n :: 0 <= n < 3 ==> Succeeds(After(run, n), run[n]))
            && IsRound(After(run, 3), a) && After(run, 3)[a].round.state == Registration
            && IsPool(After(run, 3), a.pool) && After(run, 3)[a.pool].pool.authority == x
            && IsPool(After(run, 3), q) && After(run, 3)[q].pool.authority == y
  {
    var run := TwoPoolRun(x, y, id, id');
    assert Succeeds(After(run, 0), run[0]);
    assert Succeeds(After(run, 1), run[1]);
    assert Succeeds(After(run, 2), run[2]);
  }

  /** All five instructions succeed: the round is open, then cancelled, then gone. */
  lemma ForeignCancelAndClose(x: Address, y: Address, id: Digest, id': Digest)
    requires x != y && id != id'
    ensures var run, a := TwoPoolRun(x, y, id, id'), RoundPda(PoolPda(id, 0), 0, 0);
            && (forall n :: 0 <= n < 5 ==> Succeeds(After(run, n), run[n]))
            && IsRound(After(run, 3), a) && After(run, 3)[a].round.state == Registration
            && IsPool(After(run, 3), a.pool) && After(run, 3)[a.pool].pool.authority == x
            && run[3].call.authority == run[4].call.authority == y
            && IsRound(After(run, 4), a) && After(run, 4)[a].round.state == Cancelled
            && a !in After(run, 5)
  {
    var run, a, q := TwoPoolRun(x, y, id, id'), RoundPda(PoolPda(id, 0), 0, 0), PoolPda(id', 0);
    TwoPoolsSetUp(x, y, id, id');
    AnyoneCancels(After(run, 3), a, q, 0);
    assert run[3] == Event(CancelRound, By(After(run, 3), q, a, 0));
    AnyoneCloses(After(run, 4), a, q, 0);
    assert run[4] == Event(CloseRound, By(After(run, 4), q, a, 0));
  }
}
