/**
 How the on-chain round relates to the protocol's round. Its states move along permitted edges, and
 every instruction on it is a sequence of the core round's own operations. The core accepts them at the
 instruction's own slot, with one exception: the program publishes a cohort without looking at the
 clock, while the core registers nobody from the deadline on.
 */
module LedgerRefinement {
  import opened Bytes
  import opened Accounts
  import opened Ledger
  import opened LedgerInvariant
  import opened LedgerRuns
  import opened LedgerHistory
  import Lifecycle

  /** The lifecycle walk behind one instruction: none, one or, to complete a round, two edges. */
  function StepWalk(s: State, t: State): seq<Lifecycle.RoundState> {
    if s == t then [Core(s)]
    else if t == Completed then [Core(s), Lifecycle.Finalizing, Lifecycle.Completed]
    else [Core(s), Core(t)]
  }

  lemma StepFollowsGraph(l: Ledger, e: Event, a: Address)
    requires WellFormed(l) && IsRound(l, a) && IsRound(Step(l, e), a)
    ensures var s, t := l[a].round.state, Step(l, e)[a].round.state;
            Lifecycle.Joins(StepWalk(s, t), Core(s), Core(t))
            && (|StepWalk(s, t)| == 3 <==> Hits(l, e, a) && e.ins.FinalizeRound?)
  {
    StepOnRound(l, e, a);
    var r, r' := l[a].round, Step(l, e)[a].round;
    if Hits(l, e, a) {
      ChangesFollowGraph(l[r.pool].pool, e, r, r');
    } else {
      assert StepWalk(r.state, r'.state) == [Core(r.state)];
    }
  }

  lemma ChangesFollowGraph(own: Pool, e: Event, r: Round, r': Round)
    requires RoundOk(r, own) && Changes(own, e, r, r')
    ensures Lifecycle.Joins(StepWalk(r.state, r'.state), Core(r.state), Core(r'.state))
    ensures |StepWalk(r.state, r'.state)| == 3 <==> e.ins.FinalizeRound?
  {
    if e.ins.FinalizeRound? {
      assert StepWalk(r.state, r'.state) == [Lifecycle.ExecutionWindow, Lifecycle.Finalizing, Lifecycle.Completed];
    } else if r.state == r'.state {
      assert StepWalk(r.state, r'.state) == [Core(r.state)];
    } else {
      assert StepWalk(r.state, r'.state) == [Core(r.state), Core(r'.state)];
    }
  }

  /** Between any two times a live round has moved along permitted edges only. */
  lemma {:induction false} RunFollowsGraph(run: seq<Event>, m: nat, n: nat, a: Address)
    requires m <= n <= |run| && IsRound(After(run, m), a) && IsRound(After(run, n), a)
    ensures exists p :: Lifecycle.Joins(p, Core(After(run, m)[a].round.state), Core(After(run, n)[a].round.state))
    decreases n
  {
    var s, t := After(run, m)[a].round.state, After(run, n)[a].round.state;
    if m == n {
      assert Lifecycle.Joins([Core(s)], Core(s), Core(t));
    } else {
      LiveBetween(run, m, n - 1, n, a);
      RunFollowsGraph(run, m, n - 1, a);
      AlwaysWellFormed(run, n - 1);
      var u := After(run, n - 1)[a].round.state;
      StepFollowsGraph(After(run, n - 1), run[n - 1], a);
      var p :| Lifecycle.Joins(p, Core(s), Core(u));
      Lifecycle.PathConcat(p, StepWalk(u, t), Core(s), Core(u), Core(t));
    }
  }

  // ---------- data refinement ----------

  type View = Lifecycle.RoundView
  type Op = Lifecycle.Op

  /**
   An on-chain round stands for a core round. A cancelled on-chain round does not tell how far it had
   come, so there root and window are those of the core round if it has them.
   */
  predicate Represents(r: Round, v: View) {
    && v.state == Core(r.state) && v.deadline == r.registrationDeadline && v.accepted == r.acceptedCount
    && v.windowStart == v.release && (v.windowEnd.Some? <==> v.release.Some?)
    && (v.root.Some? ==> v.root.value == r.cohortRoot)
    && (v.release.Some? ==> v.release.value == r.releaseSlot && v.windowEnd.value == r.windowEndSlot)
    && (r.state != Cancelled ==>
          && (v.root.Some? <==> Order(r.state) >= Order(Sealed))
          && (v.release.Some? <==> Order(r.state) >= Order(ReleaseScheduled)))
  }

  /** A round as it is before it is opened. */
  function Draft(deadline: U64): View {
    Lifecycle.RoundView(Lifecycle.Draft, deadline, 0, None, None, None, None)
  }

  /** Every operation is accepted. */
  predicate Accepted(v: View, ops: seq<Op>)
    decreases |ops|
  {
    ops == [] || (Lifecycle.Applied(v, ops[0]).Ok? && Accepted(Lifecycle.Applied(v, ops[0]).value, ops[1..]))
  }

  /** The operations are all accepted and lead from one view to another. */
  predicate Leads(v: View, ops: seq<Op>, w: View) {
    Accepted(v, ops) && Lifecycle.Ran(v, ops) == w
  }

  lemma {:induction false} LeadsOn(u: View, xs: seq<Op>, v: View, ys: seq<Op>, w: View)
    requires Leads(u, xs, v) && Leads(v, ys, w)
    ensures Leads(u, xs + ys, w)
    decreases |xs|
  {
    if xs == [] {
      assert xs + ys == ys;
    } else {
      LeadsOn(Lifecycle.Applied(u, xs[0]).value, xs[1..], v, ys, w);
      assert (xs + ys)[1..] == xs[1..] + ys;
    }
  }

  lemma LeadsOne(v: View, op: Op)
    requires Lifecycle.Applied(v, op).Ok?
    ensures Leads(v, [op], Lifecycle.Applied(v, op).value)
  {
    assert [op][1..] == [];
  }

  /** That many registrations at one slot. */
  function Registrations(slot: U64, n: nat, max: U32): seq<Op> {
    if n == 0 then [] else [Lifecycle.Register(slot, max)] + Registrations(slot, n - 1, max)
  }

  lemma {:induction false} RegistrationsLead(v: View, slot: U64, n: nat, max: U32)
    requires v.state == Lifecycle.Registration && slot < v.deadline && v.accepted + n <= max
    ensures Leads(v, Registrations(slot, n, max), v.(accepted := v.accepted + n))
    decreases n
  {
    if n > 0 {
      var op, u := Lifecycle.Register(slot, max), v.(accepted := v.accepted + 1);
      LeadsOne(v, op);
      RegistrationsLead(u, slot, n - 1, max);
      LeadsOn(v, [op], u, Registrations(slot, n - 1, max), v.(accepted := v.accepted + n));
    }
  }

  /**
   What an instruction on a round is in the core's own operations, under the policy of the pool it was
   given. Publishing a count is that many registrations, made at `slot`; completing a round takes two
   transitions. All other slots are the instruction's own.
   */
  function CoreOps(p: Pool, r: Round, e: Event, slot: U64): seq<Op> {
    match e.ins
    case RegisterTransparent(_, _) =>
      [Lifecycle.Register(e.call.slot, p.maxParticipants)]
      + if r.state == Registration && r.acceptedCount + 1 >= p.minParticipants
        then [Lifecycle.Move(Lifecycle.ThresholdReached)] else []
    case PublishCohortRoot(_, count) =>
      Registrations(slot, count, p.maxParticipants) + [Lifecycle.Move(Lifecycle.ThresholdReached)]
    case SealRound => [Lifecycle.Seal(r.cohortRoot, p.minParticipants)]
    case ScheduleRelease(release) =>
      [Lifecycle.Schedule(e.call.slot, release,
         Lifecycle.Timing(p.minReleaseDelay, p.maxReleaseDelay, p.executionWindow))]
    case BeginExecutionWindow => [Lifecycle.Move(Lifecycle.ExecutionWindow)]
    case FinalizeRound(_) => [Lifecycle.Move(Lifecycle.Finalizing), Lifecycle.Move(Lifecycle.Completed)]
    case CancelRound => [Lifecycle.Move(Lifecycle.Cancelled)]
    case _ => []
  }

  /** The core operations are accepted and lead to what the new on-chain round stands for. */
  predicate Refines(p: Pool, r: Round, r': Round, e: Event, slot: U64, v: View) {
    Accepted(v, CoreOps(p, r, e, slot)) && Represents(r', Lifecycle.Ran(v, CoreOps(p, r, e, slot)))
  }

  lemma LeadsTwo(v: View, x: Op, y: Op)
    requires Lifecycle.Applied(v, x).Ok? && Lifecycle.Applied(Lifecycle.Applied(v, x).value, y).Ok?
    ensures Leads(v, [x] + [y], Lifecycle.Applied(Lifecycle.Applied(v, x).value, y).value)
  {
    var u := Lifecycle.Applied(v, x).value;
    LeadsOne(v, x);
    LeadsOne(u, y);
    LeadsOn(v, [x], u, [y], Lifecycle.Applied(u, y).value);
  }

  lemma RegisterRefines(p: Pool, r: Round, r': Round, e: Event, slot: U64, v: View)
    requires e.ins.RegisterTransparent? && RoundOk(r, p) && Changes(p, e, r, r') && Represents(r, v)
    ensures Refines(p, r, r', e, slot, v)
  {
    var x, y := Lifecycle.Register(e.call.slot, p.maxParticipants), Lifecycle.Move(Lifecycle.ThresholdReached);
    if r.state == Registration && r.acceptedCount + 1 >= p.minParticipants {
      LeadsTwo(v, x, y);
    } else {
      LeadsOne(v, x);
      assert [x] + [] == [x];
    }
  }

  lemma PublishingLeads(v: View, slot: U64, count: U32, max: U32)
    requires v.state == Lifecycle.Registration && slot < v.deadline && v.accepted == 0 && count <= max
    ensures Leads(v, Registrations(slot, count, max) + [Lifecycle.Move(Lifecycle.ThresholdReached)],
                  v.(accepted := count, state := Lifecycle.ThresholdReached))
  {
    var y, u := Lifecycle.Move(Lifecycle.ThresholdReached), v.(accepted := count);
    RegistrationsLead(v, slot, count, max);
    LeadsOne(u, y);
    LeadsOn(v, Registrations(slot, count, max), u, [y], u.(state := Lifecycle.ThresholdReached));
  }

  /** The core accepts the registrations behind a publication if and only if they come before the deadline. */
  lemma PublishingExactly(v: View, slot: U64, count: U32, max: U32)
    requires v.state == Lifecycle.Registration && v.accepted == 0 && 0 < count <= max
    ensures Accepted(v, Registrations(slot, count, max) + [Lifecycle.Move(Lifecycle.ThresholdReached)])
       <==> slot < v.deadline
  {
    if slot < v.deadline {
      PublishingLeads(v, slot, count, max);
    } else {
      var ops := Registrations(slot, count, max) + [Lifecycle.Move(Lifecycle.ThresholdReached)];
      assert ops[0] == Lifecycle.Register(slot, max);
    }
  }

  lemma PublishRefines(p: Pool, r: Round, e: Event, slot: U64, v: View)
    requires e.ins.PublishCohortRoot? && RoundOk(r, p) && PoolOk(p) && Represents(r, v)
    requires AdminRound(p, r, e.call, e.ins).Ok?
    ensures Accepted(v, CoreOps(p, r, e, slot)) <==> slot < r.registrationDeadline
    ensures slot < r.registrationDeadline ==> Refines(p, r, AdminRound(p, r, e.call, e.ins).value, e, slot, v)
  {
    PublishingExactly(v, slot, e.ins.acceptedCount, p.maxParticipants);
    if slot < r.registrationDeadline {
      PublishingLeads(v, slot, e.ins.acceptedCount, p.maxParticipants);
    }
  }

  lemma SealRefines(p: Pool, r: Round, e: Event, slot: U64, v: View)
    requires e.ins.SealRound? && Represents(r, v) && AdminRound(p, r, e.call, e.ins).Ok?
    ensures Refines(p, r, AdminRound(p, r, e.call, e.ins).value, e, slot, v)
  {
    LeadsOne(v, Lifecycle.Seal(r.cohortRoot, p.minParticipants));
  }

  lemma ScheduleRefines(p: Pool, r: Round, e: Event, slot: U64, v: View)
    requires e.ins.ScheduleRelease? && Represents(r, v) && AdminRound(p, r, e.call, e.ins).Ok?
    ensures Refines(p, r, AdminRound(p, r, e.call, e.ins).value, e, slot, v)
  {
    LeadsOne(v, Lifecycle.Schedule(e.call.slot, e.ins.releaseSlot,
                  Lifecycle.Timing(p.minReleaseDelay, p.maxReleaseDelay, p.executionWindow)));
  }

  lemma FinalizingLeads(v: View)
    requires v.state == Lifecycle.ExecutionWindow
    ensures Leads(v, [Lifecycle.Move(Lifecycle.Finalizing), Lifecycle.Move(Lifecycle.Completed)],
                  v.(state := Lifecycle.Completed))
  {
    var x, y := Lifecycle.Move(Lifecycle.Finalizing), Lifecycle.Move(Lifecycle.Completed);
    LeadsTwo(v, x, y);
    assert [x] + [y] == [x, y];
  }

  lemma FinalizeRefines(p: Pool, r: Round, e: Event, slot: U64, v: View)
    requires e.ins.FinalizeRound? && Represents(r, v) && AdminRound(p, r, e.call, e.ins).Ok?
    ensures Refines(p, r, AdminRound(p, r, e.call, e.ins).value, e, slot, v)
  {
    FinalizingLeads(v);
    CompletedRepresents(r, e.ins.metricsHash, v);
  }

  lemma CompletedRepresents(r: Round, metrics: Digest, v: View)
    requires Represents(r, v) && r.state == ExecutionWindow
    ensures Represents(r.(metricsHash := metrics, state := Completed), v.(state := Lifecycle.Completed))
  {
  }

  lemma CancelRefines(p: Pool, r: Round, e: Event, slot: U64, v: View)
    requires e.ins.CancelRound? && Represents(r, v) && AdminRound(p, r, e.call, e.ins).Ok?
    ensures Refines(p, r, AdminRound(p, r, e.call, e.ins).value, e, slot, v)
  {
    LeadsOne(v, Lifecycle.Move(Lifecycle.Cancelled));
  }

  lemma BeginRefines(p: Pool, r: Round, e: Event, slot: U64, v: View)
    requires e.ins.BeginExecutionWindow? && Represents(r, v) && r.state == ReleaseScheduled
    ensures Refines(p, r, r.(state := ExecutionWindow), e, slot, v)
  {
    LeadsOne(v, Lifecycle.Move(Lifecycle.ExecutionWindow));
  }

  lemma AdminRefines(own: Pool, p: Pool, r: Round, e: Event, slot: U64, v: View)
    requires e.ins.SealRound? || e.ins.ScheduleRelease? || e.ins.FinalizeRound? || e.ins.CancelRound?
    requires RoundOk(r, own) && AdminRound(p, r, e.call, e.ins).Ok? && Represents(r, v)
    ensures Refines(p, r, AdminRound(p, r, e.call, e.ins).value, e, slot, v)
  {
    match e.ins
    case SealRound => SealRefines(p, r, e, slot, v);
    case ScheduleRelease(_) => ScheduleRefines(p, r, e, slot, v);
    case FinalizeRound(_) => FinalizeRefines(p, r, e, slot, v);
    case CancelRound => CancelRefines(p, r, e, slot, v);
  }

  /** An instruction on a live round that leaves it there, and how it came about. */
  lemma HitForms(l: Ledger, e: Event, a: Address)
    requires WellFormed(l) && Hits(l, e, a) && IsRound(l, a) && IsRound(Step(l, e), a)
    ensures !e.ins.OpenRound? && !e.ins.CloseRound?
    ensures var r, r' := l[a].round, Step(l, e)[a].round;
            && IsPool(l, r.pool) && RoundOk(r, l[r.pool].pool) && PoolOk(l[r.pool].pool)
            && (e.ins.PublishCohortRoot? ==> e.call.pool == r.pool)
            && (e.ins.BeginExecutionWindow? ==> r.state == ReleaseScheduled && r' == r.(state := ExecutionWindow))
            && (!e.ins.BeginExecutionWindow? ==> IsPool(l, e.call.pool))
            && (e.ins.RegisterTransparent? ==> e.call.pool == r.pool && Changes(l[r.pool].pool, e, r, r'))
            && (!e.ins.BeginExecutionWindow? && !e.ins.RegisterTransparent? ==>
                  AdminRound(l[e.call.pool].pool, r, e.call, e.ins) == Result.Ok(r'))
  {
    StepOnRound(l, e, a);
    PoolInOrder(l, l[a].round.pool);
  }

  /** What a step is to a live round, in core operations: those of an instruction on it, or none. */
  function StepOps(l: Ledger, e: Event, a: Address, slot: U64): seq<Op>
    requires WellFormed(l) && IsRound(l, a)
  {
    assert AccountOk(l, a);
    if !Hits(l, e, a) then []
    else CoreOps(if IsPool(l, e.call.pool) then l[e.call.pool].pool else l[l[a].round.pool].pool, l[a].round, e, slot)
  }

  /**
   Step refinement, exactly. A step that leaves a live round there is a sequence of core operations from
   any core round it stood for to one it stands for afterwards; the core accepts them if and only if
   the step is no publication on that round, or `slot` is before the deadline. With the instruction's
   own slot for `slot`, everything but a late publication refines the core at its own slot.
   */
  lemma OnChainRefinesCore(l: Ledger, e: Event, a: Address, slot: U64, v: View)
    requires WellFormed(l) && IsRound(l, a) && IsRound(Step(l, e), a) && Represents(l[a].round, v)
    ensures var ops := StepOps(l, e, a, slot);
            && (Accepted(v, ops) <==> (PublishesRoot(l, e, a) ==> slot < l[a].round.registrationDeadline))
            && (Accepted(v, ops) ==> Represents(Step(l, e)[a].round, Lifecycle.Ran(v, ops)))
  {
    var r := l[a].round;
    if !Hits(l, e, a) {
      StepOnRound(l, e, a);
    } else {
      HitForms(l, e, a);
      var own := l[r.pool].pool;
      var p := if IsPool(l, e.call.pool) then l[e.call.pool].pool else own;
      if e.ins.BeginExecutionWindow? {
        BeginRefines(p, r, e, slot, v);
      } else if e.ins.RegisterTransparent? {
        RegisterRefines(own, r, Step(l, e)[a].round, e, slot, v);
      } else if e.ins.PublishCohortRoot? {
        PublishRefines(own, r, e, slot, v);
      } else {
        AdminRefines(own, p, r, e, slot, v);
      }
    }
  }

  // ---------- a late publication has no counterpart in the core ----------

  /** Every registration among the operations comes at or after a slot. */
  predicate RegistersFrom(ops: seq<Op>, slot: U64) {
    forall i :: 0 <= i < |ops| && ops[i].Register? ==> slot <= ops[i].slot
  }

  /** From the deadline on the core counts nobody, whatever is tried. */
  lemma {:induction false} NobodyLate(v: View, ops: seq<Op>)
    requires RegistersFrom(ops, v.deadline)
    ensures Lifecycle.Ran(v, ops).accepted == v.accepted
    decreases |ops|
  {
    if ops != [] {
      var r := Lifecycle.Applied(v, ops[0]);
      assert ops[0].Register? ==> v.deadline <= ops[0].slot;
      NobodyLate(if r.Ok? then r.value else v, ops[1..]);
    }
  }

  /** So no core operations at slots from the deadline on lead to what a publication leaves behind. */
  lemma LateHasNoCounterpart(l: Ledger, e: Event, a: Address, v: View, ops: seq<Op>)
    requires WellFormed(l) && IsRound(l, a) && IsRound(Step(l, e), a) && Represents(l[a].round, v)
    requires PublishesRoot(l, e, a) && RegistersFrom(ops, l[a].round.registrationDeadline)
    ensures !Represents(Step(l, e)[a].round, Lifecycle.Ran(v, ops))
  {
    HitForms(l, e, a);
    NobodyLate(v, ops);
  }

  /** The program does not look at the clock: a publication succeeds at every slot or at none. */
  lemma PublicationIgnoresClock(l: Ledger, e: Event, slot: U64)
    requires e.ins.PublishCohortRoot?
    ensures var e' := e.(call := e.call.(slot := slot));
            (Succeeds(l, e) <==> Succeeds(l, e')) && Step(l, e') == Step(l, e)
  {
    var e' := e.(call := e.call.(slot := slot));
    assert ReadErrors(l, e.call) == ReadErrors(l, e'.call);
    assert Process(l, e) == Admin(l, e.call, e.ins) && Process(l, e') == Admin(l, e'.call, e.ins);
  }

  /** A Merkle pool, a round whose deadline is slot 1, and its root published at any later slot. */
  function LateRun(x: Address, id: Digest, root: Digest, slot: U64): seq<Event> {
    var p := PoolPda(id, 0);
    var a := RoundPda(p, 0, 0);
    [ Event(InitializePool(id, ZERO, 2, 2, 0, 0, 1, MerkleCohort, 0), Call(x, true, true, p, a, a, 0, true, true, true)),
      Event(OpenRound(0, 1, ZERO, 0), Call(x, true, true, p, a, a, 0, true, true, true)),
      Event(PublishCohortRoot(root, 2), Call(x, true, true, p, a, a, slot, true, true, true)) ]
  }

  /** It succeeds, and the round has its quorum, at whatever slot past the deadline. */
  lemma PublishedPastDeadline(x: Address, id: Digest, root: Digest, slot: U64)
    requires root != ZERO && slot >= 1
    ensures var run, a := LateRun(x, id, root, slot), RoundPda(PoolPda(id, 0), 0, 0);
            && IsRound(After(run, 2), a) && After(run, 2)[a].round.registrationDeadline <= run[2].call.slot
            && PublishesRoot(After(run, 2), run[2], a)
            && IsRound(After(run, 3), a) && After(run, 3)[a].round.state == ThresholdReached
            && After(run, 3)[a].round.acceptedCount == 2
  {
    var run := LateRun(x, id, root, slot);
    assert Succeeds(After(run, 0), run[0]);
    assert Succeeds(After(run, 1), run[1]);
    assert Succeeds(After(run, 2), run[2]);
  }

  // ---------- over runs ----------

  /** A round just opened is a draft moved to registration. */
  lemma OpenedRefines(l: Ledger, e: Event, a: Address)
    requires e.ins.OpenRound? && Succeeds(l, e) && e.call.round == a
    ensures IsRound(Step(l, e), a)
    ensures var r, op := Step(l, e)[a].round, Lifecycle.Move(Lifecycle.Registration);
            Leads(Draft(r.registrationDeadline), [op], Lifecycle.Applied(Draft(r.registrationDeadline), op).value)
            && Represents(r, Lifecycle.Applied(Draft(r.registrationDeadline), op).value)
  {
    var r := Step(l, e)[a].round;
    LeadsOne(Draft(r.registrationDeadline), Lifecycle.Move(Lifecycle.Registration));
  }

  /** At which slot the registrations behind the publication at each position of a run are made. */
  type Slots = nat -> U64

  /** Everything that has happened to a live round since it was drafted, in core operations. */
  ghost function RunOps(run: seq<Event>, n: nat, a: Address, at: Slots): seq<Op>
    requires n <= |run|
    decreases n
  {
    AlwaysWellFormed(run, n);
    if !IsRound(After(run, n), a) then []
    else if n == 0 || !IsRound(After(run, n - 1), a) then [Lifecycle.Move(Lifecycle.Registration)]
    else
      AlwaysWellFormed(run, n - 1);
      RunOps(run, n - 1, a, at) + StepOps(After(run, n - 1), run[n - 1], a, at(n - 1))
  }

  /** Every publication on the round among the first `n` instructions is given a slot before the deadline. */
  ghost predicate InTime(run: seq<Event>, n: nat, a: Address, at: Slots)
    requires n <= |run|
  {
    forall k: nat :: k < n && PublishedAt(run, k, a) ==> at(k) < After(run, k)[a].round.registrationDeadline
  }

  /** A round that was not there has not been published on. */
  lemma UnpublishedBefore(run: seq<Event>, n: nat, a: Address, k: nat)
    requires k < n <= |run| && !IsRound(After(run, n - 1), a) && IsRound(After(run, n), a)
    ensures !PublishedAt(run, k, a)
  {
    if IsRound(After(run, k), a) { LiveBetween(run, k, n - 1, n, a); }
  }

  lemma {:induction false} AcceptedSplit(v: View, xs: seq<Op>, ys: seq<Op>)
    ensures Accepted(v, xs + ys) <==> Accepted(v, xs) && Accepted(Lifecycle.Ran(v, xs), ys)
    ensures Lifecycle.Ran(v, xs + ys) == Lifecycle.Ran(Lifecycle.Ran(v, xs), ys)
    decreases |xs|
  {
    if xs == [] {
      assert xs + ys == ys;
    } else {
      assert (xs + ys)[1..] == xs[1..] + ys;
      var r := Lifecycle.Applied(v, xs[0]);
      AcceptedSplit(if r.Ok? then r.value else v, xs[1..], ys);
    }
  }

  /** What the core makes of the whole history of a live round. */
  ghost predicate Reached(run: seq<Event>, n: nat, a: Address, at: Slots)
    requires n <= |run| && IsRound(After(run, n), a)
  {
    var r, ops := After(run, n)[a].round, RunOps(run, n, a, at);
    && (Accepted(Draft(r.registrationDeadline), ops) <==> InTime(run, n, a, at))
    && (InTime(run, n, a, at) ==> Represents(r, Lifecycle.Ran(Draft(r.registrationDeadline), ops)))
  }

  /** A round just opened. */
  lemma ReachedAtBirth(run: seq<Event>, n: nat, a: Address, at: Slots)
    requires 0 < n <= |run| && !IsRound(After(run, n - 1), a) && IsRound(After(run, n), a)
    ensures Reached(run, n, a, at)
  {
    AlwaysWellFormed(run, n - 1);
    AlwaysWellFormed(run, n);
    RoundBorn(After(run, n - 1), run[n - 1], a);
    OpenedRefines(After(run, n - 1), run[n - 1], a);
    forall k: nat | k < n ensures !PublishedAt(run, k, a) { UnpublishedBefore(run, n, a, k); }
  }

  /** One more instruction on a round that was there. */
  lemma ReachedOn(run: seq<Event>, n: nat, a: Address, at: Slots)
    requires 0 < n <= |run| && IsRound(After(run, n - 1), a) && IsRound(After(run, n), a)
    requires Reached(run, n - 1, a, at)
    ensures Reached(run, n, a, at)
  {
    var l, e := After(run, n - 1), run[n - 1];
    AlwaysWellFormed(run, n - 1);
    SameDeadline(l, e, a);
    var d, before, more := Draft(l[a].round.registrationDeadline), RunOps(run, n - 1, a, at), StepOps(l, e, a, at(n - 1));
    AcceptedSplit(d, before, more);
    InTimeStep(run, n, a, at);
    if InTime(run, n - 1, a, at) {
      OnChainRefinesCore(l, e, a, at(n - 1), Lifecycle.Ran(d, before));
    }
  }

  lemma InTimeStep(run: seq<Event>, n: nat, a: Address, at: Slots)
    requires 0 < n <= |run|
    ensures InTime(run, n, a, at) <==>
              && InTime(run, n - 1, a, at)
              && (PublishedAt(run, n - 1, a) ==> at(n - 1) < After(run, n - 1)[a].round.registrationDeadline)
  {
  }

  /**
   Refinement over runs, exactly. Give every publication a slot: the core accepts the whole history of a
   live on-chain round, from its draft on, if and only if every publication on it came before its
   deadline, and then the round stands for the core round so reached.
   */
  lemma {:induction false} ReachableExactly(run: seq<Event>, n: nat, a: Address, at: Slots)
    requires n <= |run| && IsRound(After(run, n), a)
    ensures Reached(run, n, a, at)
    decreases n
  {
    if IsRound(After(run, n - 1), a) {
      ReachableExactly(run, n - 1, a, at);
      ReachedOn(run, n, a, at);
    } else {
      ReachedAtBirth(run, n, a, at);
    }
  }

  /** Each instruction's own slot. */
  function OwnSlots(run: seq<Event>): Slots {
    (k: nat) => if k < |run| then run[k].call.slot else 0
  }

  /** With the instructions' own slots: if and only if no publication on the round was late. */
  lemma ReachableInCore(run: seq<Event>, n: nat, a: Address)
    requires n <= |run| && IsRound(After(run, n), a)
    ensures var r, ops := After(run, n)[a].round, RunOps(run, n, a, OwnSlots(run));
            var timely := forall k: nat :: k < n && PublishedAt(run, k, a) ==>
                                           run[k].call.slot < After(run, k)[a].round.registrationDeadline;
            && (Accepted(Draft(r.registrationDeadline), ops) <==> timely)
            && (timely ==> Represents(r, Lifecycle.Ran(Draft(r.registrationDeadline), ops)))
  {
    ReachableExactly(run, n, a, OwnSlots(run));
  }

  /** Every publication at slot zero. */
  function AtZero(): Slots {
    (k: nat) => 0
  }

  /** And whatever the slots were, the round is one the core reaches at some slots. */
  lemma ReachableAtSomeSlots(run: seq<Event>, n: nat, a: Address)
    requires n <= |run| && IsRound(After(run, n), a)
    ensures var r, ops := After(run, n)[a].round, RunOps(run, n, a, AtZero());
            Accepted(Draft(r.registrationDeadline), ops) && Represents(r, Lifecycle.Ran(Draft(r.registrationDeadline), ops))
  {
    ReachableExactly(run, n, a, AtZero());
    forall k: nat | k < n && PublishedAt(run, k, a) ensures 0 < After(run, k)[a].round.registrationDeadline {
      AlwaysWellFormed(run, k);
      assert AccountOk(After(run, k), a);
    }
  }

  lemma SameDeadline(l: Ledger, e: Event, a: Address)
    requires WellFormed(l) && IsRound(l, a) && IsRound(Step(l, e), a)
    ensures Step(l, e)[a].round.registrationDeadline == l[a].round.registrationDeadline
  {
    StepFreezes(l, e, a);
  }
}
