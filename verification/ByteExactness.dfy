/**
 What happens on bytes when a pool account is passed for a round: it reads as a round exactly when its
 id's ninth byte is below nine, and then the authority of any pool can have it cancelled or closed as
 one. So the condition under which bytes and typed accounts agree is exact.
 */
module ByteExactness {
  import opened Bytes
  import opened Accounts
  import opened Ledger
  import opened LedgerInvariant
  import opened Codec
  import opened AccountMisreads
  import opened ByteLedger
  import opened ByteAgreement

  // ---------- what the program does to such a pool ----------

  /** A call that passes the pool `a` for a round, signed by the authority of some pool `q`. */
  function PoolForRound(l: Ledger, q: Address, a: Address): Call
    requires IsPool(l, q)
  {
    Call(l[q].pool.authority, true, true, q, a, a, 0, true, true, true)
  }

  /** The typed ledger refuses such a call. */
  lemma TypedRefuses(l: Ledger, q: Address, a: Address, i: Instruction)
    requires IsPool(l, q) && IsPool(l, a) && (i.CancelRound? || i.CloseRound?)
    ensures Step(l, Event(i, PoolForRound(l, q, a))) == l
  {
  }

  /** What the program reads in place of a round, and what it would write back cancelled. */
  lemma ReadsPoolAsRound(w: Wire, l: Ledger, q: Address, a: Address) returns (r: RoundAccount<Key>)
    requires w.Lawful() && IsPool(l, q) && IsPool(l, a) && l[a].pool.poolId.bytes[8] < 9
    ensures r.state == StateOf(l[a].pool.poolId.bytes[8])
    ensures ReadBoth(w, Images(w, l), PoolForRound(l, q, a)) == Ok((WirePool(w, l[q].pool), r))
    ensures |Images(w, l)[a]| == POOL_ACCOUNT_SIZE && |w.round(r.(state := Cancelled))| <= POOL_ACCOUNT_SIZE
    ensures Filled(w.round(r.(state := Cancelled)), POOL_ACCOUNT_SIZE) == Image(w, PoolData(RenamedPool(l[a].pool)))
  {
    var p := WirePool(w, l[a].pool);
    assert w.PoolLaw(WirePool(w, l[q].pool)) && w.PoolLaw(p) && w.PoolLaw(Renamed(p));
    r := w.readRound(Images(w, l)[a]).value;
    assert WirePool(w, RenamedPool(l[a].pool)) == Renamed(p);
  }

  /** The pool with its id's ninth byte set to seven. */
  function RenamedPool(p: Pool): Pool {
    p.(poolId := Digest(p.poolId.bytes[8 := 7]))
  }

  /** What cancelling does to the buffer read as a round, whatever is in it. */
  lemma CancelStep(w: Wire, b: Buffers, c: Call, p: PoolAccount<Key>, r: RoundAccount<Key>)
    requires ReadBoth(w, b, c) == Ok((p, r)) && p.authority == w.key(c.authority)
    requires r.state != Completed && r.state != Cancelled && r.state != Expired
    requires |w.round(r.(state := Cancelled))| <= |b[c.round]|
    ensures StepBytes(w, b, Event(CancelRound, c))
         == b[c.round := Filled(w.round(r.(state := Cancelled)), |b[c.round]|)]
  {
    assert ProcessBytes(w, b, Event(CancelRound, c)) == AdminBytes(w, b, c, CancelRound);
  }

  /** What closing does to it. */
  lemma CloseStep(w: Wire, b: Buffers, c: Call, p: PoolAccount<Key>, r: RoundAccount<Key>)
    requires ReadBoth(w, b, c) == Ok((p, r)) && p.authority == w.key(c.authority) && c.writable && c.credits
    requires r.state == Completed || r.state == Cancelled || r.state == Expired
    ensures StepBytes(w, b, Event(CloseRound, c)) == b - {c.round}
  {
    assert ProcessBytes(w, b, Event(CloseRound, c)) == CloseBytes(w, b, c);
  }

  /** On bytes, cancelling a pool whose byte is below six succeeds, and renames it. */
  lemma CancelOnPool(w: Wire, l: Ledger, q: Address, a: Address)
    requires w.Lawful() && IsPool(l, q) && IsPool(l, a) && l[a].pool.poolId.bytes[8] < 6
    ensures StepBytes(w, Images(w, l), Event(CancelRound, PoolForRound(l, q, a)))
         == Images(w, l[a := PoolData(RenamedPool(l[a].pool))])
  {
    var r := ReadsPoolAsRound(w, l, q, a);
    CancelSeen(w, l, q, a, r);
  }

  lemma CancelSeen(w: Wire, l: Ledger, q: Address, a: Address, r: RoundAccount<Key>)
    requires w.Lawful() && IsPool(l, q) && IsPool(l, a)
    requires r.state != Completed && r.state != Cancelled && r.state != Expired
    requires ReadBoth(w, Images(w, l), PoolForRound(l, q, a)) == Ok((WirePool(w, l[q].pool), r))
    requires |Images(w, l)[a]| == POOL_ACCOUNT_SIZE && |w.round(r.(state := Cancelled))| <= POOL_ACCOUNT_SIZE
    requires Filled(w.round(r.(state := Cancelled)), POOL_ACCOUNT_SIZE) == Image(w, PoolData(RenamedPool(l[a].pool)))
    ensures StepBytes(w, Images(w, l), Event(CancelRound, PoolForRound(l, q, a)))
         == Images(w, l[a := PoolData(RenamedPool(l[a].pool))])
  {
    CancelStep(w, Images(w, l), PoolForRound(l, q, a), WirePool(w, l[q].pool), r);
    ImagesUpdate(w, l, a, PoolData(RenamedPool(l[a].pool)));
  }

  /** On bytes, closing a pool whose byte is six, seven or eight succeeds, and removes it. */
  lemma CloseOnPool(w: Wire, l: Ledger, q: Address, a: Address)
    requires w.Lawful() && IsPool(l, q) && IsPool(l, a) && 6 <= l[a].pool.poolId.bytes[8] < 9
    ensures StepBytes(w, Images(w, l), Event(CloseRound, PoolForRound(l, q, a))) == Images(w, l - {a})
  {
    var r := ReadsPoolAsRound(w, l, q, a);
    CloseSeen(w, l, q, a, r);
  }

  lemma CloseSeen(w: Wire, l: Ledger, q: Address, a: Address, r: RoundAccount<Key>)
    requires w.Lawful() && IsPool(l, q) && IsPool(l, a)
    requires r.state == Completed || r.state == Cancelled || r.state == Expired
    requires ReadBoth(w, Images(w, l), PoolForRound(l, q, a)) == Ok((WirePool(w, l[q].pool), r))
    ensures StepBytes(w, Images(w, l), Event(CloseRound, PoolForRound(l, q, a))) == Images(w, l - {a})
  {
    CloseStep(w, Images(w, l), PoolForRound(l, q, a), WirePool(w, l[q].pool), r);
    ImagesRemove(w, l, a);
  }

  // ---------- the condition is exact ----------

  /** Every pool is run by an ordinary account. */
  ghost predicate OrdinaryAuthorities(l: Ledger) {
    forall a :: IsPool(l, a) ==> l[a].pool.authority.Wallet?
  }

  lemma DisagreesOnLowByte(w: Wire, l: Ledger, a: Address) returns (e: Event)
    requires w.Lawful() && OrdinaryAuthorities(l) && Distinguishes(w, Mentioned(l))
    requires IsPool(l, a) && l[a].pool.poolId.bytes[8] < 9
    ensures Ordinary(w, l, e) && StepBytes(w, Images(w, l), e) != Images(w, Step(l, e))
  {
    var c := PoolForRound(l, a, a);
    assert c.authority in Mentioned(l) && a in Mentioned(l);
    assert Mentioned(l) + CallNames(c) == Mentioned(l);
    if l[a].pool.poolId.bytes[8] < 6 {
      e := Event(CancelRound, c);
      CancelOnPool(w, l, a, a);
      TypedRefuses(l, a, a, CancelRound);
      RenamedDiffers(w, l, a);
    } else {
      e := Event(CloseRound, c);
      CloseOnPool(w, l, a, a);
      TypedRefuses(l, a, a, CloseRound);
      assert a in Images(w, l).Keys && a !in Images(w, l - {a}).Keys;
    }
  }

  lemma RenamedDiffers(w: Wire, l: Ledger, a: Address)
    requires w.Lawful() && IsPool(l, a) && l[a].pool.poolId.bytes[8] < 6
    ensures Images(w, l[a := PoolData(RenamedPool(l[a].pool))]) != Images(w, l)
  {
    var p := RenamedPool(l[a].pool);
    assert w.PoolLaw(WirePool(w, l[a].pool)) && w.PoolLaw(WirePool(w, p));
    assert p.poolId.bytes[8] == 7;
  }

  /**
   Bytes and typed accounts agree on every call by an ordinary signer if and only if every pool id's
   ninth byte is at least nine.
   */
  lemma AgreeExactly(w: Wire, l: Ledger)
    requires w.Lawful() && WellFormed(l) && OrdinaryAuthorities(l) && Distinguishes(w, Mentioned(l))
    ensures (forall e :: Ordinary(w, l, e) ==> StepBytes(w, Images(w, l), e) == Images(w, Step(l, e)))
       <==> NinthBytesHigh(l)
  {
    if NinthBytesHigh(l) {
      forall e | Ordinary(w, l, e) ensures StepBytes(w, Images(w, l), e) == Images(w, Step(l, e)) {
        StepAgrees(w, l, e);
      }
    } else {
      var a :| IsPool(l, a) && l[a].pool.poolId.bytes[8] < 9;
      var e := DisagreesOnLowByte(w, l, a);
    }
  }
}
