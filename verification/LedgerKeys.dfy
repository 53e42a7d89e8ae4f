/**
 One-time keys of a transparent round. A participant record is one per derived address, and the bump of
 that address is an argument of the registration. So what is unique is a key together with a bump, not
 the key: the lemmas say how far the two can differ, and exactly when a key registers again.
 */
module LedgerKeys {
  import opened Bytes
  import opened Accounts
  import opened Ledger
  import opened LedgerInvariant
  import opened LedgerRuns

  // ---------- addresses and keys ----------

  /** The keys a set of record addresses was derived from. */
  function Keys(records: set<Address>): set<Digest> {
    set b | b in records && b.RecordPda? :: b.key
  }

  /** The distinct keys registered in a round. */
  function KeysOf(l: Ledger, round: Address): set<Digest> {
    Keys(RecordsOf(l, round))
  }

  /** Record addresses derived from one round. */
  predicate Under(records: set<Address>, round: Address) {
    forall b :: b in records ==> b.RecordPda? && b.round == round
  }

  /** No two of the records share a key. */
  predicate OnePerKey(records: set<Address>) {
    forall b, c :: b in records && c in records && b.RecordPda? && c.RecordPda? && b.key == c.key ==> b == c
  }

  /** The records of one key. */
  function OfKey(records: set<Address>, key: Digest): set<Address> {
    set b | b in records && b.RecordPda? && b.key == key
  }

  lemma {:induction false} BumpsBelow(records: set<Address>, round: Address, key: Digest, n: nat)
    requires n <= 256 && Under(records, round)
    requires forall b :: b in records ==> b.key == key && b.bump < n
    ensures |records| <= n
    decreases n
  {
    if n == 0 {
      assert records == {};
    } else {
      BumpsBelow(records - {RecordPda(round, key, n - 1)}, round, key, n - 1);
    }
  }

  /** A key has at least one and at most 256 records among those of a round. */
  lemma RecordsPerKey(records: set<Address>, round: Address, b: Address)
    requires Under(records, round) && b in records
    ensures 1 <= |OfKey(records, b.key)| <= 256
    ensures |OfKey(records, b.key)| == 1 <==> OfKey(records, b.key) == {b}
    ensures |records| == |OfKey(records, b.key)| + |records - OfKey(records, b.key)|
    ensures Keys(records) == Keys(records - OfKey(records, b.key)) + {b.key}
    ensures b.key !in Keys(records - OfKey(records, b.key))
  {
    var mine := OfKey(records, b.key);
    BumpsBelow(mine, round, b.key, 256);
    assert mine == {b} + (mine - {b});
    assert records == mine + (records - mine);
    assert Keys(records) == Keys(records - mine) + {b.key};
  }

  lemma OnePerKeySplits(records: set<Address>, round: Address, b: Address)
    requires Under(records, round) && b in records
    ensures OnePerKey(records) <==> OfKey(records, b.key) == {b} && OnePerKey(records - OfKey(records, b.key))
  {
    if OnePerKey(records) {
      forall c | c in OfKey(records, b.key) ensures c == b {}
      assert b in OfKey(records, b.key);
    }
  }

  /** Records outnumber keys at most 256 to one, and are as many exactly when none shares a key. */
  lemma {:induction false} KeysAndRecords(records: set<Address>, round: Address)
    requires Under(records, round)
    ensures |Keys(records)| <= |records| <= 256 * |Keys(records)|
    ensures |Keys(records)| == |records| <==> OnePerKey(records)
    decreases |records|
  {
    if records != {} {
      var b :| b in records;
      var rest := records - OfKey(records, b.key);
      RecordsPerKey(records, round, b);
      OnePerKeySplits(records, round, b);
      KeysAndRecords(rest, round);
    }
  }

  lemma RecordsAreUnder(l: Ledger, a: Address)
    requires WellFormed(l)
    ensures Under(RecordsOf(l, a), a)
  {
    forall b | b in RecordsOf(l, a) ensures b.RecordPda? && b.round == a { assert AccountOk(l, b); }
  }

  predicate Transparent(l: Ledger, a: Address) {
    IsRound(l, a) && IsPool(l, l[a].round.pool) && l[l[a].round.pool].pool.backend == TransparentRegistry
  }

  /**
   The count of a live transparent round against its distinct keys: at least as many, at most 256 times
   as many, and equal if and only if no two records share a key.
   */
  lemma CountAgainstKeys(l: Ledger, a: Address)
    requires WellFormed(l) && Conserved(l) && Transparent(l, a)
    ensures |KeysOf(l, a)| <= l[a].round.acceptedCount <= 256 * |KeysOf(l, a)|
    ensures l[a].round.acceptedCount == |KeysOf(l, a)| <==> OnePerKey(RecordsOf(l, a))
  {
    RecordsAreUnder(l, a);
    KeysAndRecords(RecordsOf(l, a), a);
  }

  /** The same after every prefix of every run. */
  lemma CountAgainstKeysOverRuns(run: seq<Event>, n: nat, a: Address)
    requires n <= |run| && Transparent(After(run, n), a)
    ensures var l := After(run, n);
            && |KeysOf(l, a)| <= l[a].round.acceptedCount <= 256 * |KeysOf(l, a)|
            && (l[a].round.acceptedCount == |KeysOf(l, a)| <==> OnePerKey(RecordsOf(l, a)))
  {
    AlwaysWellFormed(run, n);
    CountAgainstKeys(After(run, n), a);
  }

  // ---------- when a key registers ----------

  /** The round takes registrations at this slot. */
  predicate TakesMore(p: Pool, r: Round, slot: U64) {
    (r.state == Registration || r.state == ThresholdReached) && slot < r.registrationDeadline
    && r.acceptedCount < p.maxParticipants
  }

  /** A signed registration of a key under a bump; `derivable` are the bumps whose seeds give an address. */
  function Registering(l: Ledger, a: Address, payer: Address, key: Digest, bump: Byte, slot: U64, derivable: set<Byte>): Event
    requires IsRound(l, a)
  {
    Event(RegisterTransparent(key, bump),
          Call(payer, true, true, l[a].round.pool, a, RecordPda(a, key, bump), slot, bump in derivable, true, true))
  }

  /** A registration succeeds exactly with room, in time, under a derivable bump not used for that key. */
  lemma RegistersExactly(l: Ledger, a: Address, payer: Address, key: Digest, bump: Byte, slot: U64, derivable: set<Byte>)
    requires WellFormed(l) && Transparent(l, a)
    ensures Succeeds(l, Registering(l, a, payer, key, bump, slot, derivable)) <==>
              && TakesMore(l[l[a].round.pool].pool, l[a].round, slot)
              && bump in derivable && RecordPda(a, key, bump) !in l
  {
    var e := Registering(l, a, payer, key, bump, slot, derivable);
    assert Process(l, e) == Register(l, e.call, e.ins);
    PoolInOrder(l, l[a].round.pool);
  }

  /** Some bump registers the key. */
  ghost predicate CanRegister(l: Ledger, a: Address, payer: Address, key: Digest, slot: U64, derivable: set<Byte>)
    requires IsRound(l, a)
  {
    exists bump: Byte :: Succeeds(l, Registering(l, a, payer, key, bump, slot, derivable))
  }

  /** Some derivable bump has not been used for the key. */
  ghost predicate HasUnusedBump(l: Ledger, a: Address, key: Digest, derivable: set<Byte>) {
    exists bump: Byte :: bump in derivable && RecordPda(a, key, bump) !in l
  }

  /** A key, registered or not, registers exactly when room, time and an unused derivable bump allow. */
  lemma KeyRegistersExactly(l: Ledger, a: Address, payer: Address, key: Digest, slot: U64, derivable: set<Byte>)
    requires WellFormed(l) && Transparent(l, a)
    ensures CanRegister(l, a, payer, key, slot, derivable) <==>
              TakesMore(l[l[a].round.pool].pool, l[a].round, slot) && HasUnusedBump(l, a, key, derivable)
  {
    if CanRegister(l, a, payer, key, slot, derivable) {
      var bump: Byte :| Succeeds(l, Registering(l, a, payer, key, bump, slot, derivable));
      RegistersExactly(l, a, payer, key, bump, slot, derivable);
    }
    if TakesMore(l[l[a].round.pool].pool, l[a].round, slot) && HasUnusedBump(l, a, key, derivable) {
      var bump: Byte :| bump in derivable && RecordPda(a, key, bump) !in l;
      RegistersExactly(l, a, payer, key, bump, slot, derivable);
    }
  }

  /** What a registration adds: one to the count, and its key to the keys, which a registered key does not enlarge. */
  lemma RegisteredKeys(l: Ledger, e: Event)
    requires WellFormed(l) && Conserved(l) && e.ins.RegisterTransparent? && Succeeds(l, e)
    ensures var a, l' := e.call.round, Step(l, e);
            && IsRound(l, a) && IsRound(l', a) && l'[a].round.acceptedCount == l[a].round.acceptedCount + 1
            && KeysOf(l', a) == KeysOf(l, a) + {e.ins.coordinationKey}
  {
    var a := e.call.round;
    assert AccountOk(l, a);
    RecordAdded(l, e.call.record, Step(l, e)[e.call.record].record);
    var mid := l[e.call.record := Step(l, e)[e.call.record]];
    SameRecordsOf(mid, Step(l, e), a);
    assert RecordsOf(Step(l, e), a) == RecordsOf(l, a) + {e.call.record};
  }

  /** Replacing a round leaves records alone. */
  lemma SameRecordsOf(mid: Ledger, l': Ledger, a: Address)
    requires IsRound(mid, a) && IsRound(l', a) && l' == mid[a := l'[a]]
    ensures RecordsOf(l', a) == RecordsOf(mid, a)
  {
    RecordsKept(mid, l', a);
  }

  // ---------- over runs ----------

  /** A record once made stays. */
  lemma RecordStays(l: Ledger, e: Event, b: Address)
    requires WellFormed(l) && b in l && l[b].RecordData?
    ensures b in Step(l, e) && Step(l, e)[b] == l[b]
  {
    if e.ins.RegisterTransparent? && Succeeds(l, e) {
      assert b != e.call.record && b != e.call.round;
    } else {
      StepAddsNoRecord(l, e);
    }
  }

  lemma {:induction false} RecordForever(run: seq<Event>, m: nat, n: nat, b: Address)
    requires m <= n <= |run| && b in After(run, m) && After(run, m)[b].RecordData?
    ensures b in After(run, n) && After(run, n)[b] == After(run, m)[b]
    decreases n
  {
    if m < n {
      RecordForever(run, m, n - 1, b);
      AlwaysWellFormed(run, n - 1);
      RecordStays(After(run, n - 1), run[n - 1], b);
    }
  }

  lemma RecordMade(l: Ledger, e: Event)
    requires e.ins.RegisterTransparent? && Succeeds(l, e)
    ensures e.call.record == RecordPda(e.call.round, e.ins.coordinationKey, e.ins.recordBump) && e.call.record !in l
    ensures e.call.record in Step(l, e) && Step(l, e)[e.call.record].RecordData?
  {
  }

  /** What does fail closed: a key registers in a round at most once under each bump. */
  lemma OncePerBump(run: seq<Event>, i: nat, j: nat)
    requires i < j < |run| && run[i].ins.RegisterTransparent? && run[j].ins.RegisterTransparent?
    requires Succeeds(After(run, i), run[i]) && Succeeds(After(run, j), run[j])
    requires run[i].call.round == run[j].call.round && run[i].ins.coordinationKey == run[j].ins.coordinationKey
    ensures run[i].ins.recordBump != run[j].ins.recordBump
  {
    RecordMade(After(run, i), run[i]);
    RecordMade(After(run, j), run[j]);
    RecordForever(run, i + 1, j, run[i].call.record);
  }

  // ---------- a run in which one key is a whole quorum ----------

  /** A transparent pool with minimum two, a round, and one key registered under bumps 0 and 1. */
  function OneKeyRun(x: Address, id: Digest, key: Digest): seq<Event> {
    var p := PoolPda(id, 0);
    var a := RoundPda(p, 0, 0);
    [ Event(InitializePool(id, ZERO, 2, 2, 0, 0, 1, TransparentRegistry, 0), Call(x, true, true, p, a, a, 0, true, true, true)),
      Event(OpenRound(0, 1, ZERO, 0), Call(x, true, true, p, a, a, 0, true, true, true)),
      Event(RegisterTransparent(key, 0), Call(x, true, true, p, a, RecordPda(a, key, 0), 0, true, true, true)),
      Event(RegisterTransparent(key, 1), Call(x, true, true, p, a, RecordPda(a, key, 1), 0, true, true, true)) ]
  }

  /** The round is open after two instructions and takes the key under bump 0. */
  lemma OneKeySetUp(x: Address, id: Digest, key: Digest)
    ensures var run, a := OneKeyRun(x, id, key), RoundPda(PoolPda(id, 0), 0, 0);
            && (forall n :: 0 <= n < 3 ==> Succeeds(After(run, n), run[n]))
            && Transparent(After(run, 3), a) && a.pool == After(run, 3)[a].round.pool
            && After(run, 3)[a.pool].pool.minParticipants == After(run, 3)[a.pool].pool.maxParticipants == 2
            && TakesMore(After(run, 3)[a.pool].pool, After(run, 3)[a].round, 0) && After(run, 3)[a].round.acceptedCount == 1
            && RecordsOf(After(run, 3), a) == {RecordPda(a, key, 0)} && RecordPda(a, key, 1) !in After(run, 3)
  {
    var run := OneKeyRun(x, id, key);
    assert Succeeds(After(run, 0), run[0]);
    assert Succeeds(After(run, 1), run[1]);
    assert Succeeds(After(run, 2), run[2]);
  }

  /** All four instructions succeed: one key is the whole quorum. */
  lemma OneKeyQuorum(x: Address, id: Digest, key: Digest)
    ensures var run, a := OneKeyRun(x, id, key), RoundPda(PoolPda(id, 0), 0, 0);
            && (forall n :: 0 <= n < 4 ==> Succeeds(After(run, n), run[n]))
            && IsRound(After(run, 4), a) && After(run, 4)[a].round.state == ThresholdReached
            && After(run, 4)[a].round.acceptedCount == 2 && KeysOf(After(run, 4), a) == {key}
  {
    var run, a := OneKeyRun(x, id, key), RoundPda(PoolPda(id, 0), 0, 0);
    OneKeySetUp(x, id, key);
    AlwaysWellFormed(run, 3);
    SecondRegistration(After(run, 3), a, x, key, run[3]);
    assert After(run, 4) == Step(After(run, 3), run[3]);
  }

  /** A key that is a round's one record registers under another bump and fills the quorum. */
  lemma SecondRegistration(l: Ledger, a: Address, x: Address, key: Digest, e: Event)
    requires WellFormed(l) && Conserved(l) && Transparent(l, a) && RecordsOf(l, a) == {RecordPda(a, key, 0)}
    requires RecordPda(a, key, 1) !in l && l[a].round.acceptedCount == 1
    requires TakesMore(l[l[a].round.pool].pool, l[a].round, 0) && l[l[a].round.pool].pool.minParticipants == 2
    requires e == Registering(l, a, x, key, 1, 0, {1})
    ensures Succeeds(l, e) && IsRound(Step(l, e), a) && Step(l, e)[a].round.state == ThresholdReached
    ensures Step(l, e)[a].round.acceptedCount == 2 && KeysOf(Step(l, e), a) == {key}
  {
    RegistersExactly(l, a, x, key, 1, 0, {1});
    RegisteredKeys(l, e);
    StepOnRound(l, e, a);
  }
}
