/**
 The coordinator's fixed-window rate limiter: how many submissions it lets through in any span of
 time. A call reads the clock to see whether the window has elapsed and, when it starts a new window,
 reads it again; readings never run backwards.
 */
module RateLimit {
  import opened Bytes

  /** Sixty seconds, in nanoseconds. */
  const MINUTE: nat := 60_000_000_000

  datatype Rate = Rate(started: nat, accepted: U32)

  datatype Tick = Tick(now: nat, restart: nat)

  predicate Expired(s: Rate, c: Tick) { c.now >= s.started + MINUTE }

  function Window(s: Rate, c: Tick): Rate {
    if Expired(s, c) then Rate(c.restart, 0) else s
  }

  predicate Admits(rpm: U32, s: Rate, c: Tick) { Window(s, c).accepted < rpm }

  function SaturatingIncrement(x: U32): U32 { if x == U32_MAX then x else x + 1 }

  /** The limiter after one call. */
  function Checked(rpm: U32, s: Rate, c: Tick): Rate {
    var w := Window(s, c);
    if w.accepted >= rpm then w else w.(accepted := SaturatingIncrement(w.accepted))
  }

  /** Readings from `from` on, never running backwards. */
  predicate Timely(from: nat, calls: seq<Tick>)
    decreases |calls|
  {
    calls == [] || (from <= calls[0].now <= calls[0].restart && Timely(calls[0].restart, calls[1..]))
  }

  /** How many calls pass with their first reading in `[lo, hi)`. */
  function Passes(rpm: U32, s: Rate, calls: seq<Tick>, lo: nat, hi: nat): nat
    decreases |calls|
  {
    if calls == [] then 0
    else
      (if Admits(rpm, s, calls[0]) && lo <= calls[0].now < hi then 1 else 0)
      + Passes(rpm, Checked(rpm, s, calls[0]), calls[1..], lo, hi)
  }

  /** The limiter after a sequence of calls. */
  function CheckedAll(rpm: U32, s: Rate, calls: seq<Tick>): Rate
    decreases |calls|
  {
    if calls == [] then s else CheckedAll(rpm, Checked(rpm, s, calls[0]), calls[1..])
  }

  /** One more call at the end. */
  lemma {:induction false} PassesAppend(rpm: U32, s: Rate, calls: seq<Tick>, c: Tick, lo: nat, hi: nat)
    ensures var last := CheckedAll(rpm, s, calls);
            && Passes(rpm, s, calls + [c], lo, hi)
               == Passes(rpm, s, calls, lo, hi) + (if Admits(rpm, last, c) && lo <= c.now < hi then 1 else 0)
            && CheckedAll(rpm, s, calls + [c]) == Checked(rpm, last, c)
    decreases |calls|
  {
    if calls == [] {
      assert ([] + [c])[1..] == [];
    } else {
      PassesAppend(rpm, Checked(rpm, s, calls[0]), calls[1..], c, lo, hi);
      assert (calls + [c])[1..] == calls[1..] + [c];
    }
  }

  /** The count never exceeds the limit, so the saturating increment never saturates. */
  lemma CountWithinLimit(rpm: U32, s: Rate, c: Tick)
    requires s.accepted <= rpm
    ensures Checked(rpm, s, c).accepted <= rpm
    ensures Admits(rpm, s, c) ==> Checked(rpm, s, c).accepted == Window(s, c).accepted + 1
  {
  }

  /** What may still pass before `hi`: the rest of this window, and every full window after it. */
  function Cap(rpm: U32, s: Rate, hi: nat): int {
    if hi <= s.started then 0
    else rpm - s.accepted + rpm * ((hi - s.started - 1) / MINUTE)
  }

  lemma MulMono(r: nat, a: nat, b: nat)
    requires a <= b
    ensures r * a <= r * b
  {
  }

  lemma MulSucc(r: nat, a: nat)
    ensures r * (a + 1) == r * a + r
  {
  }

  /** A later reading has at least one whole window fewer ahead of it. */
  lemma CapAfterReset(rpm: U32, s: Rate, c: Tick, hi: nat)
    requires s.accepted <= rpm && Expired(s, c) && c.now <= c.restart && c.now < hi
    ensures rpm + Cap(rpm, Rate(c.restart, rpm), hi) <= Cap(rpm, s, hi)
  {
    var q := (hi - s.started - 1) / MINUTE;
    assert q >= 1;
    if hi > c.restart {
      var q' := (hi - c.restart - 1) / MINUTE;
      assert q' + 1 <= q;
      MulSucc(rpm, q');
      MulMono(rpm, q' + 1, q);
    } else {
      MulMono(rpm, 1, q);
    }
  }

  lemma {:induction false} PassesWithinCap(rpm: U32, s: Rate, calls: seq<Tick>, lo: nat, hi: nat)
    requires s.accepted <= rpm && Timely(s.started, calls)
    ensures Passes(rpm, s, calls, lo, hi) <= Cap(rpm, s, hi)
    decreases |calls|
  {
    if calls != [] {
      var c := calls[0];
      CountWithinLimit(rpm, s, c);
      TimelySooner(s.started, c.restart, calls[1..]);
      PassesWithinCap(rpm, Checked(rpm, s, c), calls[1..], lo, hi);
      if Expired(s, c) && c.now < hi {
        CapAfterReset(rpm, s, c, hi);
      }
    }
    if hi > s.started {
      MulMono(rpm, 0, (hi - s.started - 1) / MINUTE);
    }
  }

  lemma TimelySooner(a: nat, b: nat, calls: seq<Tick>)
    requires a <= b && Timely(b, calls)
    ensures Timely(a, calls)
  {
  }

  /**
   The bound: in any half-open span of `k` minutes, wherever it starts, at most `k + 1` times the
   limit passes.
   */
  lemma {:induction false} PassesInSpan(rpm: U32, s: Rate, calls: seq<Tick>, lo: nat, k: nat)
    requires s.accepted <= rpm && Timely(s.started, calls)
    ensures Passes(rpm, s, calls, lo, lo + k * MINUTE) <= (k + 1) * rpm
    decreases |calls|
  {
    if calls != [] {
      var c, hi := calls[0], lo + k * MINUTE;
      CountWithinLimit(rpm, s, c);
      TimelySooner(s.started, c.restart, calls[1..]);
      if c.now < lo {
        PassesInSpan(rpm, Checked(rpm, s, c), calls[1..], lo, k);
      } else if lo <= s.started + MINUTE {
        PassesWithinCap(rpm, s, calls, lo, hi);
        if hi > s.started {
          var q := (hi - s.started - 1) / MINUTE;
          assert q <= k;
          MulMono(rpm, q, k);
        }
        MulSucc(rpm, k);
        MulMono(rpm, 0, k);
      } else {
        SpanAfterReset(rpm, s, calls, lo, k);
      }
    }
  }

  /** A span that begins after the window ran out starts with a fresh window. */
  lemma SpanAfterReset(rpm: U32, s: Rate, calls: seq<Tick>, lo: nat, k: nat)
    requires s.accepted <= rpm && Timely(s.started, calls)
    requires calls != [] && calls[0].now >= lo > s.started + MINUTE
    ensures Passes(rpm, s, calls, lo, lo + k * MINUTE) <= (k + 1) * rpm
  {
    var c, hi := calls[0], lo + k * MINUTE;
    CountWithinLimit(rpm, s, c);
    var s' := Checked(rpm, s, c);
    PassesWithinCap(rpm, s', calls[1..], lo, hi);
    MulSucc(rpm, k);
    MulMono(rpm, 0, k);
    if hi > s'.started {
      var q := (hi - s'.started - 1) / MINUTE;
      assert q <= k;
      MulMono(rpm, q, k);
    }
  }

  // ---------- the bound is attained ----------

  /** `n` calls at one instant, then the rest. */
  function Burst(t: nat, n: nat, rest: seq<Tick>): seq<Tick> {
    if n == 0 then rest else [Tick(t, t)] + Burst(t, n - 1, rest)
  }

  /** A full burst at the start of each of `n` windows from `t` on. */
  function Bursts(rpm: U32, t: nat, n: nat): seq<Tick>
    decreases n
  {
    if n == 0 then [] else Burst(t, rpm, Bursts(rpm, t + MINUTE, n - 1))
  }

  lemma {:induction false} BurstTimely(from: nat, t: nat, n: nat, rest: seq<Tick>)
    requires from <= t && Timely(t, rest)
    ensures Timely(from, Burst(t, n, rest))
    decreases n
  {
    if n > 0 {
      BurstTimely(t, t, n - 1, rest);
    } else {
      TimelySooner(from, t, rest);
    }
  }

  /** Inside one window, calls pass until the limit. */
  lemma {:induction false} BurstPasses(rpm: U32, s: Rate, t: nat, n: nat, rest: seq<Tick>, lo: nat, hi: nat)
    requires s.started <= t < s.started + MINUTE && lo <= t < hi && s.accepted + n <= rpm
    ensures Passes(rpm, s, Burst(t, n, rest), lo, hi)
         == n + Passes(rpm, Rate(s.started, s.accepted + n), rest, lo, hi)
    decreases n
  {
    if n > 0 {
      var calls := Burst(t, n, rest);
      assert calls[1..] == Burst(t, n - 1, rest);
      BurstPasses(rpm, Rate(s.started, s.accepted + 1), t, n - 1, rest, lo, hi);
    }
  }

  /** A burst when the window has run out starts a new one and passes in full. */
  lemma FreshBurstPasses(rpm: U32, s: Rate, t: nat, rest: seq<Tick>, lo: nat, hi: nat)
    requires rpm > 0 && t >= s.started + MINUTE && lo <= t < hi
    ensures Passes(rpm, s, Burst(t, rpm, rest), lo, hi) == rpm + Passes(rpm, Rate(t, rpm), rest, lo, hi)
  {
    var calls := Burst(t, rpm, rest);
    assert calls[1..] == Burst(t, rpm - 1, rest);
    BurstPasses(rpm, Rate(t, 1), t, rpm - 1, rest, lo, hi);
  }

  lemma {:induction false} BurstsPass(rpm: U32, s: Rate, t: nat, n: nat, lo: nat, hi: nat)
    requires rpm > 0 && t >= s.started + MINUTE && lo <= t && t + n * MINUTE <= hi + MINUTE - 1
    ensures Passes(rpm, s, Bursts(rpm, t, n), lo, hi) == n * rpm
    decreases n
  {
    if n > 0 {
      var rest := Bursts(rpm, t + MINUTE, n - 1);
      BurstsPass(rpm, Rate(t, rpm), t + MINUTE, n - 1, lo, hi);
      FreshBurstPasses(rpm, s, t, rest, lo, hi);
      MulSucc(rpm, n - 1);
    }
  }

  lemma {:induction false} BurstsTimely(rpm: U32, from: nat, t: nat, n: nat)
    requires from <= t
    ensures Timely(from, Bursts(rpm, t, n))
    decreases n
  {
    if n > 0 {
      BurstsTimely(rpm, t, t + MINUTE, n - 1);
      BurstTimely(from, t, rpm, Bursts(rpm, t + MINUTE, n - 1));
    }
  }

  /** For every limit and every number of minutes there is a schedule of calls that attains the bound. */
  lemma BoundAttained(rpm: U32, k: nat)
    requires rpm > 0 && k > 0
    ensures var calls := Burst(MINUTE - 1, rpm, Bursts(rpm, MINUTE, k));
            && Timely(0, calls)
            && Passes(rpm, Rate(0, 0), calls, MINUTE - 1, MINUTE - 1 + k * MINUTE) == (k + 1) * rpm
  {
    var lo, hi := MINUTE - 1, MINUTE - 1 + k * MINUTE;
    var rest := Bursts(rpm, MINUTE, k);
    BurstsTimely(rpm, lo, MINUTE, k);
    BurstTimely(0, lo, rpm, rest);
    BurstsPass(rpm, Rate(0, rpm), MINUTE, k, lo, hi);
    BurstPasses(rpm, Rate(0, 0), lo, rpm, rest, lo, hi);
    MulSucc(rpm, k);
  }
}
