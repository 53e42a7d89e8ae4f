/** The protocol's round lifecycle: the permitted edges, and the round that moves along them. */
module Lifecycle {
  import opened Bytes

  datatype RoundState =
    | Draft | Registration | ThresholdReached | Sealed | ReleaseScheduled | ExecutionWindow
    | Finalizing | Completed | Cancelled | Expired
  {
    predicate CanTransitionTo(next: RoundState) {
      match (this, next)
      case (Draft, Registration) => true
      case (Draft, Cancelled) => true
      case (Registration, ThresholdReached) => true
      case (Registration, Cancelled) => true
      case (Registration, Expired) => true
      case (ThresholdReached, Sealed) => true
      case (ThresholdReached, Cancelled) => true
      case (ThresholdReached, Expired) => true
      case (Sealed, ReleaseScheduled) => true
      case (Sealed, Cancelled) => true
      case (ReleaseScheduled, ExecutionWindow) => true
      case (ReleaseScheduled, Cancelled) => true
      case (ReleaseScheduled, Expired) => true
      case (ExecutionWindow, Finalizing) => true
      case (ExecutionWindow, Cancelled) => true
      case (Finalizing, Completed) => true
      case (Finalizing, Cancelled) => true
      case _ => false
    }

    predicate Terminal() {
      Completed? || Cancelled? || Expired?
    }

    function Rank(): nat {
      match this
      case Draft => 0
      case Registration => 1
      case ThresholdReached => 2
      case Sealed => 3
      case ReleaseScheduled => 4
      case ExecutionWindow => 5
      case Finalizing => 6
      case _ => 7
    }
  }

  /** A walk along permitted edges. */
  predicate IsPath(p: seq<RoundState>) {
    p != [] && forall i :: 0 <= i < |p| - 1 ==> p[i].CanTransitionTo(p[i + 1])
  }

  predicate Joins(p: seq<RoundState>, s: RoundState, t: RoundState) {
    IsPath(p) && p[0] == s && p[|p| - 1] == t
  }

  /** Ranks climb along every walk, by at least one per edge. */
  lemma {:induction false} PathClimbs(p: seq<RoundState>, i: nat, j: nat)
    requires IsPath(p) && i <= j < |p|
    ensures p[j].Rank() >= p[i].Rank() + (j - i)
    decreases j
  {
    if i < j {
      PathClimbs(p, i, j - 1);
      assert p[j - 1].CanTransitionTo(p[j - 1 + 1]);
    }
  }

  /** No state is ever revisited, no walk has more than seven edges, and terminal states end it. */
  lemma WalksAreShort(p: seq<RoundState>)
    requires IsPath(p)
    ensures |p| <= 8
    ensures forall i, j :: 0 <= i < j < |p| ==> p[i] != p[j] && !p[i].Terminal()
  {
    PathClimbs(p, 0, |p| - 1);
    forall i, j | 0 <= i < j < |p|
      ensures p[i] != p[j] && !p[i].Terminal()
    {
      PathClimbs(p, i, j);
      assert p[i].CanTransitionTo(p[i + 1]);
    }
  }

  lemma PathConcat(p: seq<RoundState>, q: seq<RoundState>, s: RoundState, t: RoundState, u: RoundState)
    requires Joins(p, s, t) && Joins(q, t, u)
    ensures Joins(p + q[1..], s, u)
  {
    var r := p + q[1..];
    forall i | 0 <= i < |r| - 1
      ensures r[i].CanTransitionTo(r[i + 1])
    {
      if i < |p| - 1 {
        assert r[i] == p[i] && r[i + 1] == p[i + 1];
      } else {
        assert r[i] == q[i - |p| + 1] && r[i + 1] == q[i - |p| + 1 + 1];
      }
    }
  }

  datatype ProtocolError =
    | InvalidTransition(from: RoundState, to: RoundState) | RegistrationClosed | CohortFull
    | ArithmeticOverflow | PrematureSeal | RootImmutable | ReleaseImmutable | InvalidReleaseDelay

  /** The timing policy a pool configuration contributes to scheduling. */
  datatype Timing = Timing(minDelay: U64, maxDelay: U64, window: U64)

  /** The fields of a round that its operations read or change. */
  datatype RoundView = RoundView(
    state: RoundState, deadline: U64, accepted: U32,
    root: Option<Digest>, release: Option<U64>, windowStart: Option<U64>, windowEnd: Option<U64>)

  type Outcome = Result<RoundView, ProtocolError>

  function Moved(v: RoundView, next: RoundState): Outcome {
    if v.state.CanTransitionTo(next) then Ok(v.(state := next)) else Err(InvalidTransition(v.state, next))
  }

  function Registered(v: RoundView, slot: U64, max: U32): Outcome {
    if !v.state.Registration? && !v.state.ThresholdReached? then Err(RegistrationClosed)
    else if slot >= v.deadline then Err(RegistrationClosed)
    else if v.accepted >= max then Err(CohortFull)
    else if v.accepted == U32_MAX then Err(ArithmeticOverflow)
    else Ok(v.(accepted := v.accepted + 1))
  }

  function SealedWith(v: RoundView, root: Digest, minimum: U32): Outcome {
    if !v.state.ThresholdReached? || v.accepted < minimum then Err(PrematureSeal)
    else if v.root.Some? then Err(RootImmutable)
    else Moved(v.(root := Some(root)), Sealed)
  }

  function Scheduled(v: RoundView, slot: U64, release: U64, t: Timing): Outcome {
    if !v.state.Sealed? || v.release.Some? then Err(ReleaseImmutable)
    else if release < slot then Err(InvalidReleaseDelay)
    else if release - slot < t.minDelay || release - slot > t.maxDelay then Err(InvalidReleaseDelay)
    else if release + t.window > U64_MAX then Err(ArithmeticOverflow)
    else Moved(v.(release := Some(release), windowStart := Some(release), windowEnd := Some(release + t.window)),
               ReleaseScheduled)
  }

  // ---------- runs of a round ----------

  datatype Op =
    | Move(next: RoundState)
    | Register(slot: U64, max: U32)
    | Seal(root: Digest, minimum: U32)
    | Schedule(slot: U64, release: U64, timing: Timing)

  function Applied(v: RoundView, op: Op): Outcome {
    match op
    case Move(next) => Moved(v, next)
    case Register(slot, max) => Registered(v, slot, max)
    case Seal(root, minimum) => SealedWith(v, root, minimum)
    case Schedule(slot, release, t) => Scheduled(v, slot, release, t)
  }

  /** A run of operations, in which refused ones change nothing. */
  function Ran(v: RoundView, ops: seq<Op>): RoundView
    decreases |ops|
  {
    if ops == [] then v
    else
      var r := Applied(v, ops[0]);
      Ran(if r.Ok? then r.value else v, ops[1..])
  }

  /** A root is there only from sealing on, a window only from scheduling on, and it is a window. */
  predicate ViewOk(v: RoundView) {
    && (v.root.Some? ==> v.state.Rank() >= Sealed.Rank())
    && (v.release.Some? ==> v.state.Rank() >= ReleaseScheduled.Rank())
    && v.windowStart == v.release && (v.windowEnd.Some? <==> v.release.Some?)
    && (v.release.Some? ==> v.release.value <= v.windowEnd.value)
  }

  /** What later operations cannot undo. */
  predicate Settled(v: RoundView, w: RoundView) {
    && v.state.Rank() <= w.state.Rank() && w.deadline == v.deadline && v.accepted <= w.accepted
    && (v.root.Some? ==> w.root == v.root)
    && (v.release.Some? ==> w.release == v.release && w.windowStart == v.windowStart && w.windowEnd == v.windowEnd)
    && (v.state.Rank() >= Sealed.Rank() ==> w.accepted == v.accepted && w.root == v.root)
    && (v.state.Terminal() ==> w == v)
  }

  lemma AppliedSettles(v: RoundView, op: Op)
    requires ViewOk(v) && Applied(v, op).Ok?
    ensures var w := Applied(v, op).value;
            ViewOk(w) && Settled(v, w) && (w.state == v.state || v.state.CanTransitionTo(w.state))
  {
  }

  lemma SettledTransitive(u: RoundView, v: RoundView, w: RoundView)
    requires Settled(u, v) && Settled(v, w)
    ensures Settled(u, w)
  {
  }

  /**
   Over every run: root and schedule are set at most once and never replaced, the cohort is closed
   from sealing on, a terminal round never changes, and the state has only moved along edges.
   */
  lemma {:induction false} RunsSettle(v: RoundView, ops: seq<Op>)
    requires ViewOk(v)
    ensures ViewOk(Ran(v, ops)) && Settled(v, Ran(v, ops))
    ensures exists p :: Joins(p, v.state, Ran(v, ops).state)
    decreases |ops|
  {
    if ops == [] {
      assert Joins([v.state], v.state, v.state);
    } else {
      var r := Applied(v, ops[0]);
      var w := if r.Ok? then r.value else v;
      if r.Ok? { AppliedSettles(v, ops[0]); }
      RunsSettle(w, ops[1..]);
      SettledTransitive(v, w, Ran(v, ops));
      var p :| Joins(p, w.state, Ran(v, ops).state);
      var step := if w.state == v.state then [v.state] else [v.state, w.state];
      assert Joins(step, v.state, w.state);
      PathConcat(step, p, v.state, w.state, Ran(v, ops).state);
    }
  }

  // ---------- what each operation takes ----------

  /** The states a round passes through on its way to completion. */
  const CHAIN: seq<RoundState> :=
    [Draft, Registration, ThresholdReached, Sealed, ReleaseScheduled, ExecutionWindow, Finalizing, Completed]

  /**
   The permitted edges, exactly: one step along the chain; cancelling, from every state that is not
   terminal; and expiring, from registration, the threshold and a scheduled release.
   */
  lemma EdgesExactly(s: RoundState, t: RoundState)
    ensures s.CanTransitionTo(t) <==>
              || (exists i :: 0 <= i < 7 && s == CHAIN[i] && t == CHAIN[i + 1])
              || (t == Cancelled && s !in {Completed, Cancelled, Expired})
              || (t == Expired && s in {Registration, ThresholdReached, ReleaseScheduled})
  {
    forall i | 0 <= i < 7 ensures CHAIN[i].CanTransitionTo(CHAIN[i + 1]) {
      assert i == 0 || i == 1 || i == 2 || i == 3 || i == 4 || i == 5 || i == 6;
    }
    if s.CanTransitionTo(t) && t != Cancelled && t != Expired {
      var i := s.Rank();
      assert CHAIN[i] == s && CHAIN[i + 1] == t;
    }
  }

  /** A registration is counted exactly while open, before the deadline and below the cap. */
  lemma RegisteredExactly(v: RoundView, slot: U64, max: U32)
    ensures var open := v.state in {Registration, ThresholdReached} && slot < v.deadline;
            && (Registered(v, slot, max) == Err(RegistrationClosed) <==> !open)
            && (Registered(v, slot, max) == Err(CohortFull) <==> open && v.accepted >= max)
            && (Registered(v, slot, max).Ok? <==> open && v.accepted < max)
    ensures Registered(v, slot, max).Ok? ==> Registered(v, slot, max).value == v.(accepted := v.accepted + 1)
  {
  }

  /** Sealing takes exactly a round at its threshold with the minimum accepted and no root. */
  lemma SealedExactly(v: RoundView, root: Digest, minimum: U32)
    ensures var ready := v.state == ThresholdReached && minimum <= v.accepted;
            && (SealedWith(v, root, minimum) == Err(PrematureSeal) <==> !ready)
            && (SealedWith(v, root, minimum) == Err(RootImmutable) <==> ready && v.root.Some?)
            && (SealedWith(v, root, minimum).Ok? <==> ready && v.root.None?)
    ensures SealedWith(v, root, minimum).Ok? ==>
              SealedWith(v, root, minimum).value == v.(root := Some(root), state := Sealed)
  {
  }

  /** Scheduling takes exactly a sealed round with no release, a delay within bounds and a window that fits. */
  lemma ScheduledExactly(v: RoundView, slot: U64, release: U64, t: Timing)
    ensures var free := v.state == Sealed && v.release.None?;
            var timely := slot + t.minDelay <= release <= slot + t.maxDelay;
            var fits := release + t.window <= 0xFFFF_FFFF_FFFF_FFFF;
            && (Scheduled(v, slot, release, t) == Err(ReleaseImmutable) <==> !free)
            && (Scheduled(v, slot, release, t) == Err(InvalidReleaseDelay) <==> free && !timely)
            && (Scheduled(v, slot, release, t) == Err(ArithmeticOverflow) <==> free && timely && !fits)
            && (Scheduled(v, slot, release, t).Ok? <==> free && timely && fits)
    ensures Scheduled(v, slot, release, t).Ok? ==>
              Scheduled(v, slot, release, t).value
              == v.(release := Some(release), windowStart := Some(release), windowEnd := Some(release + t.window),
                    state := ReleaseScheduled)
  {
  }

  // ---------- where a round's fields come from ----------

  /** The view after one more operation, refused or not. */
  function Next(v: RoundView, op: Op): RoundView {
    if Applied(v, op).Ok? then Applied(v, op).value else v
  }

  /** From sealing on the count and the root stay. */
  lemma {:induction false} SealedStays(v: RoundView, ops: seq<Op>)
    requires v.state.Rank() >= 3
    ensures Ran(v, ops).accepted == v.accepted && Ran(v, ops).root == v.root && Ran(v, ops).state.Rank() >= 3
    decreases |ops|
  {
    if ops != [] {
      SealedStays(Next(v, ops[0]), ops[1..]);
    }
  }

  /** A root that appears was sealed with, by an operation whose minimum the round's count meets to the end. */
  lemma {:induction false} RootOrigin(v: RoundView, ops: seq<Op>) returns (i: nat)
    requires v.root.None? && Ran(v, ops).root.Some?
    ensures i < |ops| && ops[i].Seal? && Ran(v, ops).root == Some(ops[i].root)
    ensures ops[i].minimum <= Ran(v, ops).accepted
    decreases |ops|
  {
    var w := Next(v, ops[0]);
    if w.root.Some? {
      i := 0;
      SealedStays(w, ops[1..]);
    } else {
      var j := RootOrigin(w, ops[1..]);
      i := j + 1;
    }
  }

  /** A release, once there, stays, and its window with it. */
  lemma {:induction false} ReleaseStays(v: RoundView, ops: seq<Op>)
    requires v.release.Some?
    ensures var w := Ran(v, ops); w.release == v.release && w.windowStart == v.windowStart && w.windowEnd == v.windowEnd
    decreases |ops|
  {
    if ops != [] {
      ReleaseStays(Next(v, ops[0]), ops[1..]);
    }
  }

  /** A release that appears lies within the delays of the operation that set it, with that operation's window. */
  lemma {:induction false} ReleaseOrigin(v: RoundView, ops: seq<Op>) returns (i: nat)
    requires v.release.None? && Ran(v, ops).release.Some?
    ensures i < |ops| && ops[i].Schedule? && Ran(v, ops).release == Some(ops[i].release)
    ensures ops[i].slot + ops[i].timing.minDelay <= ops[i].release <= ops[i].slot + ops[i].timing.maxDelay
    ensures Ran(v, ops).windowStart == Some(ops[i].release)
    ensures Ran(v, ops).windowEnd.Some? && Ran(v, ops).windowEnd.value == ops[i].release + ops[i].timing.window
    decreases |ops|
  {
    var w := Next(v, ops[0]);
    if w.release.Some? {
      i := 0;
      ReleaseStays(w, ops[1..]);
    } else {
      var j := ReleaseOrigin(w, ops[1..]);
      i := j + 1;
    }
  }

  /** A count that has grown is within the cap of some registration made before the deadline. */
  lemma {:induction false} CountOrigin(v: RoundView, ops: seq<Op>) returns (i: nat)
    requires Ran(v, ops).accepted > v.accepted
    ensures i < |ops| && ops[i].Register? && ops[i].slot < v.deadline && Ran(v, ops).accepted <= ops[i].max
    decreases |ops|
  {
    var w := Next(v, ops[0]);
    if Ran(v, ops).accepted > w.accepted {
      var j := CountOrigin(w, ops[1..]);
      i := j + 1;
    } else {
      i := 0;
      CountClimbs(w, ops[1..]);
    }
  }

  /** The count never falls, and each registration adds at most one. */
  lemma {:induction false} CountClimbs(v: RoundView, ops: seq<Op>)
    ensures v.accepted <= Ran(v, ops).accepted <= v.accepted + RegisterOps(ops)
    decreases |ops|
  {
    if ops != [] {
      CountClimbs(Next(v, ops[0]), ops[1..]);
    }
  }

  function RegisterOps(ops: seq<Op>): nat {
    if ops == [] then 0 else (if ops[0].Register? then 1 else 0) + RegisterOps(ops[1..])
  }

  /** The mutable round. A refused operation leaves every field as it was. */
  class Round {
    const deadline: U64
    var state: RoundState
    var accepted: U32
    var root: Option<Digest>
    var release: Option<U64>
    var windowStart: Option<U64>
    var windowEnd: Option<U64>

    constructor (deadline: U64)
      ensures View() == RoundView(Draft, deadline, 0, None, None, None, None)
    {
      this.deadline := deadline;
      state, accepted, root, release, windowStart, windowEnd := Draft, 0, None, None, None, None;
    }

    ghost function View(): RoundView
      reads this
    {
      RoundView(state, deadline, accepted, root, release, windowStart, windowEnd)
    }

    method Transition(next: RoundState) returns (r: Result<(), ProtocolError>)
      modifies this
      ensures r.Ok? ==> Moved(old(View()), next) == Ok(View())
      ensures r.Err? ==> Moved(old(View()), next) == Err(r.error) && View() == old(View())
    {
      if !state.CanTransitionTo(next) {
        return Err(InvalidTransition(state, next));
      }
      state := next;
      return Ok(());
    }

    method Register(slot: U64, max: U32) returns (r: Result<(), ProtocolError>)
      modifies this
      ensures r.Ok? ==> Registered(old(View()), slot, max) == Ok(View())
      ensures r.Err? ==> Registered(old(View()), slot, max) == Err(r.error) && View() == old(View())
    {
      if !(state.Registration? || state.ThresholdReached?) {
        return Err(RegistrationClosed);
      }
      if slot >= deadline {
        return Err(RegistrationClosed);
      }
      if accepted >= max {
        return Err(CohortFull);
      }
      accepted := accepted + 1;
      return Ok(());
    }

    method Seal(newRoot: Digest, minimum: U32) returns (r: Result<(), ProtocolError>)
      modifies this
      ensures r.Ok? ==> SealedWith(old(View()), newRoot, minimum) == Ok(View())
      ensures r.Err? ==> SealedWith(old(View()), newRoot, minimum) == Err(r.error) && View() == old(View())
    {
      if !state.ThresholdReached? || accepted < minimum {
        return Err(PrematureSeal);
      }
      if root.Some? {
        return Err(RootImmutable);
      }
      root := Some(newRoot);
      r := Transition(Sealed);
    }

    method ScheduleRelease(slot: U64, releaseSlot: U64, t: Timing) returns (r: Result<(), ProtocolError>)
      modifies this
      ensures r.Ok? ==> Scheduled(old(View()), slot, releaseSlot, t) == Ok(View())
      ensures r.Err? ==> Scheduled(old(View()), slot, releaseSlot, t) == Err(r.error) && View() == old(View())
    {
      if !state.Sealed? || release.Some? {
        return Err(ReleaseImmutable);
      }
      if releaseSlot < slot {
        return Err(InvalidReleaseDelay);
      }
      var delay := releaseSlot - slot;
      if delay < t.minDelay || delay > t.maxDelay {
        return Err(InvalidReleaseDelay);
      }
      if releaseSlot + t.window > U64_MAX {
        return Err(ArithmeticOverflow);
      }
      release, windowStart, windowEnd := Some(releaseSlot), Some(releaseSlot), Some(releaseSlot + t.window);
      r := Transition(ReleaseScheduled);
    }
  }
}
