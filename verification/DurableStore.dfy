/** The store as the coordinator calls it: methods that read and write the tables in place. */
module DurableStore {
  import opened Bytes
  import opened Sorting
  import opened Merkle
  import opened Inclusion
  import opened Store
  import MerkleBuilder

  lemma SortedAlready(s: seq<Digest>)
    ensures Sort(Sort(s)) == Sort(s)
  {
    SortSorts(s);
    SortSorts(Sort(s));
    OrderedUnique(Sort(Sort(s)), Sort(s));
  }

  class Database {
    const env: Env
    var tickets: seq<Row>
    var roots: map<RoundKey, (Digest, U32)>
    var proofs: map<RoundKey, map<Digest, CohortProof>>
    var schedules: map<RoundKey, (U64, U64)>
    var events: seq<StoreEvent>

    constructor (env: Env)
      ensures this.env == env && State() == EMPTY
    {
      this.env := env;
      tickets, roots, proofs, schedules, events := [], map[], map[], map[], [];
    }

    function State(): Db
      reads this
    {
      Db(tickets, roots, proofs, schedules, events)
    }

    method AcceptTicket(t: JoinTicket) returns (r: Result<Digest, StoreError>)
      modifies this
      ensures (State(), r) == AcceptTx(env, old(State()), t)
    {
      var row := RowOf(env, t);
      if !Persistable(t.roundId) {
        return Err(CountOverflow);
      }
      for i := 0 to |tickets|
        invariant forall j :: 0 <= j < i ==> !Clashes(tickets[j], row)
      {
        if Clashes(tickets[i], row) {
          return Err(DuplicateTicket);
        }
      }
      tickets := tickets + [row];
      events := events + [TicketAccepted(row.key, row.commitment)];
      return Ok(row.commitment);
    }

    /** The commitments of a round, ascending. */
    method SelectCommitments(k: RoundKey) returns (leaves: seq<Digest>)
      ensures leaves == Sort(Commitments(tickets, k))
    {
      leaves := [];
      for i := 0 to |tickets|
        invariant leaves == Commitments(tickets[..i], k)
      {
        if tickets[i].key == k {
          leaves := leaves + [tickets[i].commitment];
        }
        assert tickets[..i + 1][..i] == tickets[..i];
      }
      assert tickets[..|tickets|] == tickets;
      leaves := Sort(leaves);
    }

    method TicketCount(k: RoundKey) returns (r: Result<U32, StoreError>)
      ensures r == CountOf(State(), k)
    {
      if !Persistable(k.round) {
        return Err(CountOverflow);
      }
      var n := 0;
      for i := 0 to |tickets|
        invariant n == |Commitments(tickets[..i], k)|
      {
        if tickets[i].key == k {
          n := n + 1;
        }
        assert tickets[..i + 1][..i] == tickets[..i];
      }
      assert tickets[..|tickets|] == tickets;
      if n > U32_MAX {
        return Err(CountOutOfRange);
      }
      return Ok(n);
    }

    /** Proofs of all leaves; refused when one of them is already stored. */
    method InsertProofs(cohort: MerkleCohort, leaves: seq<Digest>, k: RoundKey)
      returns (r: Result<map<Digest, CohortProof>, StoreError>)
      requires cohort.Valid(NodeHash(env.h)) && cohort.leaves == leaves
      ensures (exists c :: c in leaves && c in ProofsOf(State(), k)) ==> r == Err(ConstraintViolation)
      ensures (forall c :: c in leaves ==> c !in ProofsOf(State(), k)) ==>
                r == Ok(ProofsOf(State(), k) + Table(leaves, AllProofs(NodeHash(env.h), leaves, k.round), |leaves|))
    {
      var existing := if k in proofs then proofs[k] else map[];
      r := AddProofs(NodeHash(env.h), cohort, leaves, existing, k.round);
    }

    /** Root, proofs and event of a built cohort, or nothing when a proof is there already. */
    method StoreCohort(cohort: MerkleCohort, leaves: seq<Digest>, k: RoundKey) returns (r: Result<(Digest, U32), StoreError>)
      requires env.Real() && cohort.Valid(NodeHash(env.h)) && cohort.leaves == leaves && k !in roots
      modifies this
      ensures (exists c :: c in leaves && c in ProofsOf(old(State()), k)) ==>
                r == Err(ConstraintViolation) && State() == old(State())
      ensures (forall c :: c in leaves ==> c !in ProofsOf(old(State()), k)) ==>
                var tree := env.sealing(leaves, k.round); var db := old(State());
                && r == Ok((tree.root, |leaves|))
                && State() == db.(roots := db.roots[k := (tree.root, |leaves|)],
                                  proofs := db.proofs[k := ProofsOf(db, k) + tree.proofs],
                                  events := db.events + [CohortSealed(k, tree.root)])
    {
      var root := MerkleBuilder.RootOf(NodeHash(env.h), cohort);
      if root.Err? {
        return Err(MerkleFailure);
      }
      var rows := InsertProofs(cohort, leaves, k);
      if rows.Err? {
        return Err(ConstraintViolation);
      }
      roots := roots[k := (root.value, |leaves|)];
      proofs := proofs[k := rows.value];
      events := events + [CohortSealed(k, root.value)];
      return Ok((root.value, |leaves|));
    }

    /** Check, then build and store everything, or nothing. */
    method SealCohort(k: RoundKey, minimum: U32) returns (r: Result<(Digest, U32), StoreError>)
      requires env.Real()
      modifies this
      ensures (State(), r) == Store.SealCohort(env, old(State()), k, minimum)
    {
      if !Persistable(k.round) {
        return Err(CountOverflow);
      }
      if k in roots {
        return Ok(roots[k]);
      }
      var leaves := SelectCommitments(k);
      SortedAlready(Commitments(tickets, k));
      if |leaves| > U32_MAX {
        return Err(CountOverflow);
      }
      if |leaves| < minimum {
        return Err(ThresholdNotReached);
      }
      var built := MerkleBuilder.Build(NodeHash(env.h), leaves);
      if built.Err? {
        return Err(MerkleFailure);
      }
      BuildOutcome(NodeHash(env.h), leaves);
      r := StoreCohort(built.value, leaves, k);
    }

    method ScheduleRelease(k: RoundKey, release: U64, end: U64) returns (r: Result<(), StoreError>)
      modifies this
      ensures (State(), r) == ScheduleOnce(old(State()), k, release, end)
    {
      if !Persistable(k.round) {
        return Err(CountOverflow);
      }
      if k in schedules {
        return if schedules[k] == (release, end) then Ok(()) else Err(ConflictingSchedule);
      }
      if !Persistable(release) || !Persistable(end) {
        return Err(CountOverflow);
      }
      schedules := schedules[k := (release, end)];
      return Ok(());
    }
  }

  /** The proof of the `i`th leaf. */
  method ProveLeaf(f: Pairing, cohort: MerkleCohort, leaves: seq<Digest>, i: nat, round: U64)
    returns (r: Result<CohortProof, MerkleError>)
    requires cohort.Valid(f) && cohort.leaves == leaves && i < |leaves|
    ensures r == Ok(AllProofs(f, leaves, round)[i])
  {
    r := MerkleBuilder.Prove(f, cohort, leaves[i], round);
    PositionUnique(leaves, i, r.value, f, round);
  }

  /** The proof loop, given the proofs already stored. */
  method AddProofs(f: Pairing, cohort: MerkleCohort, leaves: seq<Digest>, existing: map<Digest, CohortProof>, round: U64)
    returns (r: Result<map<Digest, CohortProof>, StoreError>)
    requires cohort.Valid(f) && cohort.leaves == leaves
    ensures (exists i :: 0 <= i < |leaves| && leaves[i] in existing) ==> r == Err(ConstraintViolation)
    ensures (forall i :: 0 <= i < |leaves| ==> leaves[i] !in existing) ==>
              r == Ok(existing + Table(leaves, AllProofs(f, leaves, round), |leaves|))
  {
    var added: map<Digest, CohortProof> := map[];
    ghost var all := AllProofs(f, leaves, round);
    for i := 0 to |leaves|
      invariant forall j :: 0 <= j < i ==> leaves[j] !in existing
      invariant added == Table(leaves, all, i)
    {
      var proof := ProveLeaf(f, cohort, leaves, i, round);
      if proof.Err? {
        return Err(MerkleFailure);
      }
      if leaves[i] in existing {
        return Err(ConstraintViolation);
      }
      added := added[leaves[i] := proof.value];
    }
    return Ok(existing + added);
  }

  /** In a strictly ascending leaf list a leaf has one position, so its proof is the one for it. */
  lemma PositionUnique(leaves: seq<Digest>, i: nat, proof: CohortProof, f: Pairing, round: U64)
    requires i < |leaves| <= MAX_LEAVES && StrictlyOrdered(leaves)
    requires exists j :: 0 <= j < |leaves| && leaves[j] == leaves[i] && proof == ProofAt(f, leaves, j, round)
    ensures proof == AllProofs(f, leaves, round)[i]
  {
    var j :| 0 <= j < |leaves| && leaves[j] == leaves[i] && proof == ProofAt(f, leaves, j, round);
    LessIrreflexive(leaves[i]);
    assert i == j;
  }
}
