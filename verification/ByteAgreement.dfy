/** The ledger of bytes and the ledger of typed accounts: exactly when they agree. */
module ByteAgreement {
  import opened Bytes
  import opened Accounts
  import opened Handlers
  import opened Ledger
  import opened LedgerInvariant
  import opened LedgerHistory
  import opened ByteLedger

  // ---------- conditions ----------

  /** No two of these addresses have the same 32 bytes. */
  predicate Distinguishes(w: Wire, names: set<Address>) {
    forall a, b :: a in names && b in names && w.key(a) == w.key(b) ==> a == b
  }

  function CallNames(c: Call): set<Address> { {c.authority, c.pool, c.round, c.record} }

  /** Addresses that are in use, or that accounts hold and handlers compare. */
  function Mentioned(l: Ledger): set<Address> {
    l.Keys + (set a | a in l && l[a].PoolData? :: l[a].pool.authority)
           + (set a | a in l && l[a].RoundData? :: l[a].round.pool)
  }

  /** No pool account reads as a round. */
  ghost predicate NinthBytesHigh(l: Ledger) {
    forall a :: IsPool(l, a) ==> l[a].pool.poolId.bytes[8] >= 9
  }

  /** Only ordinary accounts sign: nobody has the secret key of a derived address. */
  predicate OrdinarySigner(c: Call) {
    c.signed ==> c.authority.Wallet?
  }

  ghost predicate Ordinary(w: Wire, l: Ledger, e: Event) {
    OrdinarySigner(e.call) && Distinguishes(w, Mentioned(l) + CallNames(e.call))
  }

  /** Both fail, or both succeed and the buffers are those of the typed ledger. */
  ghost predicate Agrees(w: Wire, x: ByteOutcome, y: Outcome)
    requires w.Lawful()
  {
    (x.Ok? <==> y.Ok?) && (x.Ok? ==> x.value == Images(w, y.value))
  }

  // ---------- what the buffers of a typed ledger read as ----------

  /** What the program sees of an account. */
  ghost predicate ReadsLike(w: Wire, x: Account, b: seq<Byte>) {
    && b != [] && b[0] != 0
    && match x
       case PoolData(p) =>
         |b| == POOL_ACCOUNT_SIZE && w.readPool(b) == Some(WirePool(w, p)) && w.readRound(b) == None
       case RoundData(r) =>
         && |b| == ROUND_ACCOUNT_SIZE && w.readRound(b) == Some(WireRound(w, r))
         && (w.readPool(b).Some? ==> w.readPool(b).value.authority == w.key(r.pool))
       case RecordData(_) => w.readPool(b) == None && w.readRound(b) == None
  }

  lemma ImageReads(w: Wire, l: Ledger, a: Address)
    requires w.Lawful() && WellFormed(l) && NinthBytesHigh(l) && a in l
    ensures ReadsLike(w, l[a], Images(w, l)[a])
  {
    assert AccountOk(l, a);
    match l[a]
    case PoolData(p) => assert w.PoolLaw(WirePool(w, p));
    case RoundData(r) => assert w.RoundLaw(WireRound(w, r));
    case RecordData(r) => assert w.RecordLaw(WireRecord(w, r));
  }

  /** Writing an account's encoding into a buffer of its size makes the buffer its image. */
  lemma WritesImage(w: Wire, b: Buffers, a: Address, x: Account)
    requires w.Lawful() && a in b && |b[a]| == |Image(w, x)|
    ensures match x
            case PoolData(p) => Written(b, a, w.pool(WirePool(w, p))) == Ok(b[a := Image(w, x)])
            case RoundData(r) => Written(b, a, w.round(WireRound(w, r))) == Ok(b[a := Image(w, x)])
            case RecordData(r) => Written(b, a, w.record(WireRecord(w, r))) == Ok(b[a := Image(w, x)])
  {
    match x
    case PoolData(p) => assert w.PoolLaw(WirePool(w, p));
    case RoundData(r) => assert w.RoundLaw(WireRound(w, r));
    case RecordData(r) => assert w.RecordLaw(WireRecord(w, r));
  }

  // ---------- the decisions are the same on both sides ----------

  lemma SameAdministered(w: Wire, p: Pool, r: Round, c: Call, i: Instruction)
    requires Administers(i)
    requires w.key(p.authority) == w.key(c.authority) ==> p.authority == c.authority
    requires w.key(r.pool) == w.key(c.pool) ==> r.pool == c.pool
    ensures var x := Administered(WirePool(w, p), WireRound(w, r), w.key(c.authority), w.key(c.pool), c.slot, i);
            match AdminRound(p, r, c, i)
            case Ok(r') => x == Ok(WireRound(w, r'))
            case Err(_) => x.Err?
  {
  }

  lemma AdministeredByAuthority<K>(p: PoolAccount<K>, r: RoundAccount<K>, authority: K, pool: K, slot: U64, i: Instruction)
    requires Administers(i) && p.authority != authority
    ensures Administered(p, r, authority, pool, slot, i).Err?
  {
  }

  /** What a call compares is told apart by its bytes, and a round passed for a pool names nobody who signs. */
  predicate Apart(w: Wire, l: Ledger, c: Call) {
    && (IsPool(l, c.pool) && w.key(l[c.pool].pool.authority) == w.key(c.authority) ==> l[c.pool].pool.authority == c.authority)
    && (IsRound(l, c.round) && w.key(l[c.round].round.pool) == w.key(c.pool) ==> l[c.round].round.pool == c.pool)
    && (c.signed && IsRound(l, c.pool) ==> w.key(l[c.pool].round.pool) != w.key(c.authority))
  }

  lemma OrdinaryApart(w: Wire, l: Ledger, e: Event)
    requires WellFormed(l) && Ordinary(w, l, e)
    ensures Apart(w, l, e.call)
  {
    var names, c := Mentioned(l) + CallNames(e.call), e.call;
    assert c.authority in names && c.pool in names;
    if IsPool(l, c.pool) { assert l[c.pool].pool.authority in names; }
    if IsRound(l, c.round) { assert l[c.round].round.pool in names; }
    if IsRound(l, c.pool) {
      PoolOfRound(l, c.pool);
      assert l[c.pool].round.pool in names;
    }
  }

  lemma PoolOfRound(l: Ledger, a: Address)
    requires WellFormed(l) && IsRound(l, a)
    ensures IsPool(l, l[a].round.pool) && l[a].round.pool.PoolPda?
  {
    assert AccountOk(l, a);
    assert AccountOk(l, l[a].round.pool);
  }

  /** Both accounts are read as what they are. */
  lemma ReadsTyped(w: Wire, l: Ledger, c: Call)
    requires w.Lawful() && WellFormed(l) && NinthBytesHigh(l) && ReadErrors(l, c).None?
    ensures ReadBoth(w, Images(w, l), c) == Ok((WirePool(w, l[c.pool].pool), WireRound(w, l[c.round].round)))
  {
    ImageReads(w, l, c.pool);
    ImageReads(w, l, c.round);
  }

  /** Or the read fails, or a round was passed for the pool. */
  lemma ReadsForeign(w: Wire, l: Ledger, c: Call)
    requires w.Lawful() && WellFormed(l) && NinthBytesHigh(l) && Apart(w, l, c) && ReadErrors(l, c).Some?
    requires ReadBoth(w, Images(w, l), c).Ok?
    ensures var (p, r) := ReadBoth(w, Images(w, l), c).value;
            IsRound(l, c.pool) && IsRound(l, c.round) && r == WireRound(w, l[c.round].round) && p.authority != w.key(c.authority)
  {
    ImageReads(w, l, c.pool);
    ImageReads(w, l, c.round);
  }

  // ---------- each instruction ----------

  lemma AdminAgrees(w: Wire, l: Ledger, c: Call, i: Instruction)
    requires w.Lawful() && WellFormed(l) && NinthBytesHigh(l) && Apart(w, l, c) && Administers(i)
    ensures Agrees(w, AdminBytes(w, Images(w, l), c, i), Admin(l, c, i))
  {
    var b := Images(w, l);
    if ReadErrors(l, c).None? {
      AdminAgreesTyped(w, l, c, i);
    } else if ReadBoth(w, b, c).Ok? {
      ReadsForeign(w, l, c);
      var (p, r) := ReadBoth(w, b, c).value;
      AdministeredByAuthority(p, r, w.key(c.authority), w.key(c.pool), c.slot, i);
    }
  }

  lemma AdminAgreesTyped(w: Wire, l: Ledger, c: Call, i: Instruction)
    requires w.Lawful() && WellFormed(l) && NinthBytesHigh(l) && Apart(w, l, c) && Administers(i)
    requires ReadErrors(l, c).None?
    ensures Agrees(w, AdminBytes(w, Images(w, l), c, i), Admin(l, c, i))
  {
    ReadsTyped(w, l, c);
    SameAdministered(w, l[c.pool].pool, l[c.round].round, c, i);
    var x := AdminRound(l[c.pool].pool, l[c.round].round, c, i);
    if x.Ok? {
      WritesImage(w, Images(w, l), c.round, RoundData(x.value));
      ImagesUpdate(w, l, c.round, RoundData(x.value));
    }
  }

  lemma CloseAgrees(w: Wire, l: Ledger, c: Call)
    requires w.Lawful() && WellFormed(l) && NinthBytesHigh(l) && Apart(w, l, c)
    ensures Agrees(w, CloseBytes(w, Images(w, l), c), Close(l, c))
  {
    if ReadErrors(l, c).None? {
      ReadsTyped(w, l, c);
      ImagesRemove(w, l, c.round);
    } else if ReadBoth(w, Images(w, l), c).Ok? {
      ReadsForeign(w, l, c);
    }
  }

  lemma BeginAgrees(w: Wire, l: Ledger, c: Call)
    requires w.Lawful() && WellFormed(l) && NinthBytesHigh(l)
    ensures Agrees(w, BeginBytes(w, Images(w, l), c), Begin(l, c))
  {
    if c.round in l {
      ImageReads(w, l, c.round);
      if IsRound(l, c.round) {
        var r' := l[c.round].round.(state := ExecutionWindow);
        WritesImage(w, Images(w, l), c.round, RoundData(r'));
        ImagesUpdate(w, l, c.round, RoundData(r'));
      }
    }
  }

  /** Allocating an account: refused when there is one, otherwise a zero buffer. */
  lemma CreatesLike(w: Wire, l: Ledger, c: Call, a: Address, size: nat)
    requires w.Lawful() && WellFormed(l) && NinthBytesHigh(l)
    ensures Created(Images(w, l), c, a, size)
         == if CreateErrors(l, c, a).Some? then Err(CreateErrors(l, c, a).value) else Ok(Images(w, l)[a := Zeros(size)])
  {
    if a in l { ImageReads(w, l, a); }
  }

  /** A new account: allocated, then written. */
  lemma CreatesAndWrites(w: Wire, l: Ledger, a: Address, p: Pool)
    requires w.Lawful()
    ensures Written(Images(w, l)[a := Zeros(POOL_ACCOUNT_SIZE)], a, w.pool(WirePool(w, p)))
         == Ok(Images(w, l[a := PoolData(p)]))
  {
    var b := Images(w, l)[a := Zeros(POOL_ACCOUNT_SIZE)];
    WritesImage(w, b, a, PoolData(p));
    ImagesUpdate(w, l, a, PoolData(p));
    assert b[a := Image(w, PoolData(p))] == Images(w, l)[a := Image(w, PoolData(p))];
  }

  lemma InitializeAgrees(w: Wire, l: Ledger, c: Call, i: Instruction)
    requires w.Lawful() && WellFormed(l) && NinthBytesHigh(l) && i.InitializePool?
    ensures Agrees(w, InitializeBytes(w, Images(w, l), c, i), Initialize(l, c, i))
  {
    var p := NewPool(c.authority, i);
    assert WirePool(w, p) == NewPool(w.key(c.authority), i);
    CreatesLike(w, l, c, c.pool, POOL_ACCOUNT_SIZE);
    CreatesAndWrites(w, l, c.pool, p);
  }

  /** Opening writes the pool and the new round. */
  lemma OpenWrites(w: Wire, l: Ledger, c: Call, p: Pool, r: Round)
    requires w.Lawful() && IsPool(l, c.pool) && c.pool != c.round
    ensures Opened(Images(w, l)[c.round := Zeros(ROUND_ACCOUNT_SIZE)], c, w.pool(WirePool(w, p)), w.round(WireRound(w, r)))
         == Ok(Images(w, l[c.pool := PoolData(p)][c.round := RoundData(r)]))
  {
    var b, x, y := Images(w, l)[c.round := Zeros(ROUND_ACCOUNT_SIZE)], PoolData(p), RoundData(r);
    WritesImage(w, b, c.pool, x);
    WritesImage(w, b[c.pool := Image(w, x)], c.round, y);
    ImagesTwice(w, l, c.pool, x, c.round, y);
    assert b[c.pool := Image(w, x)][c.round := Image(w, y)] == Images(w, l)[c.pool := Image(w, x)][c.round := Image(w, y)];
  }

  lemma ImagesTwice(w: Wire, l: Ledger, a: Address, x: Account, c: Address, y: Account)
    requires w.Lawful()
    ensures Images(w, l[a := x][c := y]) == Images(w, l)[a := Image(w, x)][c := Image(w, y)]
  {
    ImagesUpdate(w, l, a, x);
    ImagesUpdate(w, l[a := x], c, y);
  }

  lemma OpenAgrees(w: Wire, l: Ledger, c: Call, i: Instruction)
    requires w.Lawful() && WellFormed(l) && NinthBytesHigh(l) && Apart(w, l, c) && i.OpenRound?
    ensures Agrees(w, OpenBytes(w, Images(w, l), c, i), Open(l, c, i))
  {
    if c.signed && c.pool in l {
      ImageReads(w, l, c.pool);
      if IsPool(l, c.pool) {
        OpenAgreesTyped(w, l, c, i);
      }
    }
  }

  lemma SameOpenRefusal(w: Wire, p: Pool, c: Call, i: Instruction)
    requires i.OpenRound? && (w.key(p.authority) == w.key(c.authority) ==> p.authority == c.authority)
    ensures OpenRefusal(WirePool(w, p), w.key(c.authority), c.slot, i) == OpenRefusal(p, c.authority, c.slot, i)
  {
  }

  lemma OpenAgreesTyped(w: Wire, l: Ledger, c: Call, i: Instruction)
    requires w.Lawful() && WellFormed(l) && NinthBytesHigh(l) && Apart(w, l, c) && i.OpenRound?
    requires c.signed && IsPool(l, c.pool) && w.readPool(Images(w, l)[c.pool]) == Some(WirePool(w, l[c.pool].pool))
    ensures Agrees(w, OpenBytes(w, Images(w, l), c, i), Open(l, c, i))
  {
    var p := l[c.pool].pool;
    SameOpenRefusal(w, p, c, i);
    CreatesLike(w, l, c, c.round, ROUND_ACCOUNT_SIZE);
    if Open(l, c, i).Ok? {
      var p', r := p.(nextRound := p.nextRound + 1), NewRound(c.pool, i);
      OpenWrites(w, l, c, p', r);
      assert WirePool(w, p') == WirePool(w, p).(nextRound := p.nextRound + 1);
      assert WireRound(w, r) == NewRound(w.key(c.pool), i);
    }
  }

  /** A registration writes the record and the round. */
  lemma RegisterWrites(w: Wire, l: Ledger, c: Call, rec: Participant, r: Round)
    requires w.Lawful() && IsRound(l, c.round) && c.round != c.record
    ensures Registered(Images(w, l)[c.record := Zeros(RECORD_ACCOUNT_SIZE)], c, w.record(WireRecord(w, rec)), w.round(WireRound(w, r)))
         == Ok(Images(w, l[c.record := RecordData(rec)][c.round := RoundData(r)]))
  {
    var b, x, y := Images(w, l)[c.record := Zeros(RECORD_ACCOUNT_SIZE)], RecordData(rec), RoundData(r);
    WritesImage(w, b, c.record, x);
    WritesImage(w, b[c.record := Image(w, x)], c.round, y);
    ImagesTwice(w, l, c.record, x, c.round, y);
    assert b[c.record := Image(w, x)] == Images(w, l)[c.record := Image(w, x)];
  }

  lemma SameRegisterAllowed(w: Wire, p: Pool, r: Round, c: Call)
    requires w.key(r.pool) == w.key(c.pool) ==> r.pool == c.pool
    ensures RegisterAllowed(WirePool(w, p), WireRound(w, r), w.key(c.pool), c.slot) <==> RegisterAllowed(p, r, c.pool, c.slot)
    ensures r.acceptedCount < U32_MAX ==> OneMore(WirePool(w, p), WireRound(w, r)) == WireRound(w, OneMore(p, r))
  {
  }

  lemma RegisterAgrees(w: Wire, l: Ledger, c: Call, i: Instruction)
    requires w.Lawful() && WellFormed(l) && NinthBytesHigh(l) && Apart(w, l, c) && i.RegisterTransparent?
    ensures Agrees(w, RegisterBytes(w, Images(w, l), c, i), Register(l, c, i))
  {
    if ReadErrors(l, c).None? {
      RegisterAgreesTyped(w, l, c, i);
    } else if ReadBoth(w, Images(w, l), c).Ok? {
      ReadsForeign(w, l, c);
      PoolOfRound(l, c.round);
    }
  }

  lemma RegisterAgreesTyped(w: Wire, l: Ledger, c: Call, i: Instruction)
    requires w.Lawful() && WellFormed(l) && NinthBytesHigh(l) && Apart(w, l, c) && i.RegisterTransparent?
    requires ReadErrors(l, c).None?
    ensures Agrees(w, RegisterBytes(w, Images(w, l), c, i), Register(l, c, i))
  {
    var p, r := l[c.pool].pool, l[c.round].round;
    ReadsTyped(w, l, c);
    SameRegisterAllowed(w, p, r, c);
    CreatesLike(w, l, c, c.record, RECORD_ACCOUNT_SIZE);
    if r.acceptedCount < U32_MAX && c.record !in l {
      var rec := ParticipantRecord(1, i.recordBump, c.round, i.coordinationKey);
      assert WireRecord(w, rec) == ParticipantRecord(1, i.recordBump, w.key(c.round), i.coordinationKey);
      RegisterWrites(w, l, c, rec, OneMore(p, r));
    }
  }

  lemma ProcessAgrees(w: Wire, l: Ledger, e: Event)
    requires w.Lawful() && WellFormed(l) && NinthBytesHigh(l) && Apart(w, l, e.call)
    ensures Agrees(w, ProcessBytes(w, Images(w, l), e), Process(l, e))
  {
    if e.ins.InitializePool? {
      InitializeAgrees(w, l, e.call, e.ins);
    } else if e.ins.OpenRound? {
      OpenAgrees(w, l, e.call, e.ins);
    } else if e.ins.RegisterTransparent? {
      RegisterAgrees(w, l, e.call, e.ins);
    } else if e.ins.BeginExecutionWindow? {
      BeginAgrees(w, l, e.call);
    } else if e.ins.CloseRound? {
      CloseAgrees(w, l, e.call);
    } else {
      AdminAgrees(w, l, e.call, e.ins);
    }
  }

  /**
   One step of the program on bytes is one step of the typed ledger, whatever accounts the call passes,
   when every pool id's ninth byte is at least nine and no derived address signs.
   */
  lemma StepAgrees(w: Wire, l: Ledger, e: Event)
    requires w.Lawful() && WellFormed(l) && NinthBytesHigh(l) && Ordinary(w, l, e)
    ensures StepBytes(w, Images(w, l), e) == Images(w, Step(l, e))
  {
    OrdinaryApart(w, l, e);
    ProcessAgrees(w, l, e);
  }

  // ---------- over runs ----------

  /** All addresses the first `n` instructions name. */
  function RunNames(run: seq<Event>, n: nat): set<Address>
    requires n <= |run|
  {
    if n == 0 then {} else RunNames(run, n - 1) + CallNames(run[n - 1].call)
  }

  /** What a caller can check of each instruction of a run, and that the addresses named differ in bytes. */
  ghost predicate OrdinaryRun(w: Wire, run: seq<Event>) {
    && Distinguishes(w, RunNames(run, |run|))
    && (forall k :: 0 <= k < |run| ==> OrdinarySigner(run[k].call))
    && (forall k :: 0 <= k < |run| && run[k].ins.InitializePool? ==> run[k].ins.poolId.bytes[8] >= 9)
  }

  lemma {:induction false} RunNamesGrow(run: seq<Event>, m: nat, n: nat)
    requires m <= n <= |run|
    ensures RunNames(run, m) <= RunNames(run, n)
    decreases n
  {
    if m < n { RunNamesGrow(run, m, n - 1); }
  }

  /** Accounts appear only at addresses the instruction names. */
  lemma ProcessKeys(l: Ledger, e: Event, l': Ledger)
    requires Succeeds(l, e) && l' == Process(l, e).value
    ensures l'.Keys <= l.Keys + CallNames(e.call)
  {
    if e.ins.OpenRound? { OpenForm(l, e.call, e.ins, l'); }
  }

  /** A pool's authority was there before, or is the caller. */
  lemma ProcessAuthorities(l: Ledger, e: Event, l': Ledger, a: Address)
    requires Succeeds(l, e) && l' == Process(l, e).value && IsPool(l', a)
    ensures l'[a].pool.authority == e.call.authority || (IsPool(l, a) && l'[a].pool.authority == l[a].pool.authority)
  {
    if e.ins.OpenRound? { OpenForm(l, e.call, e.ins, l'); }
  }

  /** A round's pool was there before, or is the pool named. */
  lemma ProcessPools(l: Ledger, e: Event, l': Ledger, a: Address)
    requires Succeeds(l, e) && l' == Process(l, e).value && IsRound(l', a)
    ensures l'[a].round.pool == e.call.pool || (IsRound(l, a) && l'[a].round.pool == l[a].round.pool)
  {
    if e.ins.OpenRound? { OpenForm(l, e.call, e.ins, l'); }
  }

  lemma StepMentions(l: Ledger, e: Event)
    ensures Mentioned(Step(l, e)) <= Mentioned(l) + CallNames(e.call)
  {
    if Succeeds(l, e) {
      var l' := Process(l, e).value;
      ProcessKeys(l, e, l');
      forall x | x in Mentioned(l') ensures x in Mentioned(l) + CallNames(e.call) {
        if x !in l'.Keys {
          if a :| IsPool(l', a) && l'[a].pool.authority == x {
            ProcessAuthorities(l, e, l', a);
          } else {
            var a :| IsRound(l', a) && l'[a].round.pool == x;
            ProcessPools(l, e, l', a);
          }
        }
      }
    }
  }

  lemma {:induction false} RunMentions(run: seq<Event>, n: nat)
    requires n <= |run|
    ensures Mentioned(After(run, n)) <= RunNames(run, n)
    decreases n
  {
    if n > 0 {
      RunMentions(run, n - 1);
      StepMentions(After(run, n - 1), run[n - 1]);
    } else {
      assert Mentioned(After(run, 0)) == {};
    }
  }

  lemma RunNinthBytes(w: Wire, run: seq<Event>, n: nat)
    requires n <= |run| && OrdinaryRun(w, run)
    ensures NinthBytesHigh(After(run, n))
  {
    forall a | IsPool(After(run, n), a) ensures After(run, n)[a].pool.poolId.bytes[8] >= 9 {
      var i := PoolOrigin(run, n, a);
    }
  }

  lemma RunOrdinary(w: Wire, run: seq<Event>, n: nat)
    requires n < |run| && OrdinaryRun(w, run)
    ensures Ordinary(w, After(run, n), run[n])
  {
    RunMentions(run, n);
    RunNamesGrow(run, n + 1, |run|);
    assert Mentioned(After(run, n)) + CallNames(run[n].call) <= RunNames(run, |run|);
  }

  /** Instruction `k` of a run does the same on bytes. */
  ghost predicate AgreesAt(w: Wire, run: seq<Event>, k: nat)
    requires w.Lawful() && k < |run|
  {
    StepBytes(w, Images(w, After(run, k)), run[k]) == Images(w, Step(After(run, k), run[k]))
  }

  lemma FollowOn(w: Wire, run: seq<Event>, n: nat)
    requires w.Lawful() && 0 < n <= |run| && BytesAfter(w, run, n - 1) == Images(w, After(run, n - 1))
    requires AgreesAt(w, run, n - 1)
    ensures BytesAfter(w, run, n) == Images(w, After(run, n))
  {
  }

  lemma {:induction false} FollowAll(w: Wire, run: seq<Event>, n: nat)
    requires w.Lawful() && n <= |run| && forall k: nat :: k < n ==> AgreesAt(w, run, k)
    ensures BytesAfter(w, run, n) == Images(w, After(run, n))
    decreases n
  {
    if n > 0 {
      FollowAll(w, run, n - 1);
      FollowOn(w, run, n);
    }
  }

  /**
   The program on bytes and the typed ledger agree over every run in which no derived address signs,
   every pool is created with a ninth id byte of at least nine, and the addresses named differ in bytes.
   All laws about runs of the typed ledger are then laws about the bytes on chain.
   */
  lemma BytesFollow(w: Wire, run: seq<Event>, n: nat)
    requires w.Lawful() && n <= |run| && OrdinaryRun(w, run)
    ensures BytesAfter(w, run, n) == Images(w, After(run, n))
  {
    forall k: nat | k < n ensures AgreesAt(w, run, k) { RunStepAgrees(w, run, k); }
    FollowAll(w, run, n);
  }

  lemma RunStepAgrees(w: Wire, run: seq<Event>, n: nat)
    requires w.Lawful() && n < |run| && OrdinaryRun(w, run)
    ensures AgreesAt(w, run, n)
  {
    RunMeetsConditions(w, run, n);
    StepAgrees(w, After(run, n), run[n]);
  }

  lemma RunMeetsConditions(w: Wire, run: seq<Event>, n: nat)
    requires n < |run| && OrdinaryRun(w, run)
    ensures WellFormed(After(run, n)) && NinthBytesHigh(After(run, n)) && Ordinary(w, After(run, n), run[n])
  {
    AlwaysWellFormed(run, n);
    RunNinthBytes(w, run, n);
    RunOrdinary(w, run, n);
  }
}
