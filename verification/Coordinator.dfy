/** The coordinator object: a rate limiter and a store, each behind its own lock. */
module Coordinator {
  import opened Bytes
  import opened Merkle
  import opened Store
  import opened RateLimit
  import opened Admission
  import DurableStore

  class Service {
    const cfg: Config
    const store: DurableStore.Database
    var windowStarted: nat
    var accepted: U32

    constructor (cfg: Config, store: DurableStore.Database, now: nat)
      ensures this.cfg == cfg && this.store == store && Limiter() == Rate(now, 0)
    {
      this.cfg, this.store := cfg, store;
      windowStarted, accepted := now, 0;
    }

    function Limiter(): Rate
      reads this
    {
      Rate(windowStarted, accepted)
    }

    method CheckRate(tick: Tick) returns (r: Result<(), CoordinatorError>)
      modifies this
      ensures Limiter() == Checked(cfg.rpm, old(Limiter()), tick)
      ensures r == if Admits(cfg.rpm, old(Limiter()), tick) then Ok(()) else Err(RateLimited)
    {
      var elapsed := if tick.now < windowStarted then 0 else tick.now - windowStarted;
      if elapsed >= MINUTE {
        windowStarted := tick.restart;
        accepted := 0;
      }
      if accepted >= cfg.rpm {
        return Err(RateLimited);
      }
      accepted := SaturatingIncrement(accepted);
      return Ok(());
    }

    /** One submission with nothing in between: the rate gate, verification, then count and insert. */
    method SubmitTicket(t: JoinTicket, slot: U64, tick: Tick) returns (r: Result<Digest, CoordinatorError>)
      modifies this, store
      ensures Limiter() == Checked(cfg.rpm, old(Limiter()), tick)
      ensures (store.State(), r) == SubmitOutcome(store.env, cfg, old(Limiter()), old(store.State()), t, slot, tick)
    {
      var gate := CheckRate(tick);
      if gate.Err? {
        return Err(RateLimited);
      }
      if VerifyTicket(cfg, t, slot).Err? {
        return Err(InvalidTicket);
      }
      var count := store.TicketCount(cfg.Key());
      if count.Err? {
        return Err(StoreFailure(count.error));
      }
      if count.value >= cfg.maximum {
        return Err(CohortFull);
      }
      var inserted := store.AcceptTicket(t);
      if inserted.Err? {
        return Err(StoreFailure(inserted.error));
      }
      return Ok(inserted.value);
    }

    method Seal() returns (r: Result<(Digest, U32), StoreError>)
      requires store.env.Real()
      modifies store
      ensures (store.State(), r) == SealCohort(store.env, old(store.State()), cfg.Key(), cfg.minimum)
    {
      r := store.SealCohort(cfg.Key(), cfg.minimum);
    }

    /** The stored proof of a commitment, if any. */
    method Proof(commitment: Digest) returns (r: Result<Option<CohortProof>, StoreError>)
      ensures Persistable(cfg.binding.round) ==>
                r == Ok(if commitment in ProofsOf(store.State(), cfg.Key())
                        then Some(ProofsOf(store.State(), cfg.Key())[commitment]) else None)
      ensures !Persistable(cfg.binding.round) ==> r == Err(CountOverflow)
    {
      if !Persistable(cfg.binding.round) {
        return Err(CountOverflow);
      }
      var rows := if cfg.Key() in store.proofs then store.proofs[cfg.Key()] else map[];
      return Ok(if commitment in rows then Some(rows[commitment]) else None);
    }
  }
}
