/**
 The cohort tree as a mathematical object: levels, root, sibling paths and path folding,
 with completeness, depth and canonicity. Imperative construction is in MerkleBuilder.dfy,
 soundness in MerkleSoundness.dfy.
 */
module Merkle {
  import opened Bytes
  import opened Sorting

  const MAX_LEAVES := 100_000

  datatype MerkleError =
    | EmptyTree | TooManyLeaves | DuplicateLeaf | LeafNotFound
    | WrongRound | WrongRoot | InvalidProof

  datatype CohortProof = CohortProof(
    leafHash: Digest, leafIndex: U32, siblings: seq<Digest>, merkleRoot: Digest, roundId: U64)

  /**
   How two children make a parent. The tree laws hold for every pairing; the program's own is
   `NodeHash` in Inclusion.dfy.
   */
  type Pairing = (Digest, Digest) -> Digest

  /** The right child at pair `p`; an odd last node is paired with itself. */
  function RightChild(level: seq<Digest>, p: nat): Digest
    requires 2 * p < |level|
  {
    if 2 * p + 1 < |level| then level[2 * p + 1] else level[2 * p]
  }

  function NextLevel(f: Pairing, level: seq<Digest>): (next: seq<Digest>)
    ensures |next| == (|level| + 1) / 2
    ensures forall p :: 0 <= p < |next| ==> next[p] == f(level[2 * p], RightChild(level, p))
  {
    seq((|level| + 1) / 2, p requires 0 <= p < (|level| + 1) / 2 =>
      f(level[2 * p], RightChild(level, p)))
  }

  /** All levels, leaves first, ending with a single node. */
  function Levels(f: Pairing, level: seq<Digest>): (r: seq<seq<Digest>>)
    requires level != []
    ensures r != [] && r[0] == level
    decreases |level|
  {
    if |level| == 1 then [level] else [level] + Levels(f, NextLevel(f, level))
  }

  function Root(f: Pairing, level: seq<Digest>): Digest
    requires level != []
    decreases |level|
  {
    if |level| == 1 then level[0] else Root(f, NextLevel(f, level))
  }

  /** The sibling recorded for position `i` of one level; a node without one stands for itself. */
  function SiblingOf(level: seq<Digest>, i: nat): Digest
    requires i < |level|
  {
    if i % 2 == 1 then level[i - 1]
    else if i + 1 < |level| then level[i + 1]
    else level[i]
  }

  function Siblings(f: Pairing, level: seq<Digest>, i: nat): seq<Digest>
    requires i < |level|
    decreases |level|
  {
    if |level| == 1 then []
    else [SiblingOf(level, i)] + Siblings(f, NextLevel(f, level), i / 2)
  }

  /** One verification step: hash the node with its sibling, on the side its index says. */
  function StepUp(f: Pairing, node: Digest, i: nat, sibling: Digest): Digest {
    if i % 2 == 0 then f(node, sibling) else f(sibling, node)
  }

  function Fold(f: Pairing, node: Digest, i: nat, siblings: seq<Digest>): Digest
    decreases |siblings|
  {
    if siblings == [] then node
    else Fold(f, StepUp(f, node, i, siblings[0]), i / 2, siblings[1..])
  }

  function Verified(f: Pairing, proof: CohortProof, root: Digest, round: U64): Result<(), MerkleError> {
    if proof.roundId != round then Err(WrongRound)
    else if proof.merkleRoot != root then Err(WrongRoot)
    else if Fold(f, proof.leafHash, proof.leafIndex, proof.siblings) != root then Err(InvalidProof)
    else Ok(())
  }

  /** Height of a tree over `n` leaves. */
  function Depth(n: nat): nat {
    if n <= 1 then 0 else 1 + Depth((n + 1) / 2)
  }

  function Pow2(d: nat): (r: nat)
    ensures r >= 1
  {
    if d == 0 then 1 else 2 * Pow2(d - 1)
  }

  /** The height is the least exponent whose power of two covers the leaves. */
  lemma {:induction false} DepthIsLeast(n: nat, d: nat)
    requires n >= 1
    ensures n <= Pow2(d) <==> Depth(n) <= d
  {
    if n > 1 && d > 0 {
      DepthIsLeast((n + 1) / 2, d - 1);
    }
  }

  lemma {:induction false} PathLength(f: Pairing, level: seq<Digest>, i: nat)
    requires i < |level|
    ensures |Siblings(f, level, i)| == Depth(|level|)
    decreases |level|
  {
    if |level| > 1 {
      PathLength(f, NextLevel(f, level), i / 2);
    }
  }

  /** One step up a generated path. */
  lemma StepReachesParent(f: Pairing, level: seq<Digest>, i: nat)
    requires i < |level|
    ensures StepUp(f, level[i], i, SiblingOf(level, i)) == NextLevel(f, level)[i / 2]
  {
    if i % 2 == 1 {
      assert 2 * (i / 2) + 1 == i;
    } else {
      assert 2 * (i / 2) == i;
    }
  }

  /** Folding a node up its generated path arrives at the root. */
  lemma {:induction false} PathReachesRoot(f: Pairing, level: seq<Digest>, i: nat)
    requires i < |level|
    ensures Fold(f, level[i], i, Siblings(f, level, i)) == Root(f, level)
    decreases |level|
  {
    if |level| > 1 {
      var next := NextLevel(f, level);
      var path := Siblings(f, level, i);
      assert path[1..] == Siblings(f, next, i / 2);
      StepReachesParent(f, level, i);
      PathReachesRoot(f, next, i / 2);
    }
  }

  /** A successfully built cohort. */
  datatype MerkleCohort = MerkleCohort(leaves: seq<Digest>, levels: seq<seq<Digest>>) {

    /** What `build` establishes and every reader of the tree relies on. */
    ghost predicate Valid(f: Pairing) {
      && 1 <= |leaves| <= MAX_LEAVES
      && StrictlyOrdered(leaves)
      && levels == Levels(f, leaves)
    }
  }

  /** The value `build` computes. */
  function Cohort(f: Pairing, leaves: seq<Digest>): Result<MerkleCohort, MerkleError> {
    if leaves == [] then Err(EmptyTree)
    else if |leaves| > MAX_LEAVES then Err(TooManyLeaves)
    else if !AdjacentDistinct(Sort(leaves)) then Err(DuplicateLeaf)
    else Ok(MerkleCohort(Sort(leaves), Levels(f, Sort(leaves))))
  }

  /** The proof generated for the leaf at `i` of an ordered leaf list. */
  function ProofAt(f: Pairing, leaves: seq<Digest>, i: nat, round: U64): CohortProof
    requires i < |leaves| <= MAX_LEAVES
  {
    CohortProof(leaves[i], i, Siblings(f, leaves, i), Root(f, leaves), round)
  }

  /**
   `build` succeeds exactly on 1 to 100,000 distinct leaves, keeps exactly those leaves, and its
   errors are told apart by what is wrong with the input.
   */
  lemma BuildOutcome(f: Pairing, leaves: seq<Digest>)
    ensures Cohort(f, leaves).Ok? <==> 1 <= |leaves| <= 100_000 && Distinct(leaves)
    ensures Cohort(f, leaves).Ok? ==>
              var c := Cohort(f, leaves).value;
              c.Valid(f) && multiset(c.leaves) == multiset(leaves)
    ensures Cohort(f, leaves) == Err(EmptyTree) <==> leaves == []
    ensures Cohort(f, leaves) == Err(TooManyLeaves) <==> |leaves| > 100_000
    ensures Cohort(f, leaves) == Err(DuplicateLeaf) <==> 1 <= |leaves| <= 100_000 && !Distinct(leaves)
  {
    SortSorts(leaves);
    SortDistinct(leaves);
    AdjacentScanComplete(Sort(leaves));
  }

  /** Every permutation of the leaves builds the same cohort, root included. */
  lemma Canonical(f: Pairing, s: seq<Digest>, t: seq<Digest>)
    requires multiset(s) == multiset(t)
    ensures Cohort(f, s) == Cohort(f, t)
  {
    assert |s| == |multiset(s)| == |multiset(t)| == |t|;
    SortCanonical(s, t);
  }

  /**
   Completeness: over every built cohort, the generated proof of each position verifies against
   the root and round it was generated for, and its length is the least covering exponent.
   */
  lemma ProofsVerify(f: Pairing, leaves: seq<Digest>, i: nat, round: U64, d: nat)
    requires i < |leaves| <= MAX_LEAVES
    ensures Verified(f, ProofAt(f, leaves, i, round), Root(f, leaves), round) == Ok(())
    ensures |ProofAt(f, leaves, i, round).siblings| <= d <==> |leaves| <= Pow2(d)
  {
    PathReachesRoot(f, leaves, i);
    PathLength(f, leaves, i);
    DepthIsLeast(|leaves|, d);
  }

  /** The elements of a list below one digest, by their first differing byte. */
  ghost function LeavesBelow(leaves: seq<Digest>, x: Digest): set<Digest> {
    set y | y in leaves && Below(y, x)
  }

  /** In an ascending list a position is the number of leaves below the one there. */
  lemma RankInOrder(leaves: seq<Digest>, i: nat)
    requires StrictlyOrdered(leaves) && i < |leaves|
    ensures |LeavesBelow(leaves, leaves[i])| == i
  {
    PositionCounts(leaves, i);
    forall y ensures Less(y, leaves[i]) <==> Below(y, leaves[i]) { LessIsBelow(y, leaves[i]); }
    assert LeavesBelow(leaves, leaves[i]) == set y | y in leaves && Less(y, leaves[i]);
  }

  /**
   Which index a generated proof carries: over every built cohort, the number of leaves, as they were
   given, that are below the proof's own.
   */
  lemma IndexIsRank(f: Pairing, leaves: seq<Digest>, i: nat, round: U64)
    requires Cohort(f, leaves).Ok? && i < |leaves|
    ensures |Cohort(f, leaves).value.leaves| == |leaves| <= MAX_LEAVES
    ensures var proof := ProofAt(f, Cohort(f, leaves).value.leaves, i, round);
            proof.leafHash in leaves && proof.leafIndex == |LeavesBelow(leaves, proof.leafHash)|
  {
    var sorted := Sort(leaves);
    BuildOutcome(f, leaves);
    SortDistinct(leaves);
    RankInOrder(sorted, i);
    assert LeavesBelow(leaves, sorted[i]) == LeavesBelow(sorted, sorted[i]);
    assert sorted[i] in sorted;
  }

  /** The roots of the smallest trees, written out. */
  lemma SmallRoots(f: Pairing, a: Digest, b: Digest, c: Digest, d: Digest)
    ensures Root(f, [a]) == a
    ensures Root(f, [a, b]) == f(a, b)
    ensures Root(f, [a, b, c]) == f(f(a, b), f(c, c))
    ensures Root(f, [a, b, c, d]) == f(f(a, b), f(c, d))
  {
    var ab, cc, cd := f(a, b), f(c, c), f(c, d);
    assert NextLevel(f, [a, b]) == [ab];
    assert NextLevel(f, [a, b, c]) == [ab, cc] && NextLevel(f, [ab, cc]) == [f(ab, cc)];
    assert NextLevel(f, [a, b, c, d]) == [ab, cd] && NextLevel(f, [ab, cd]) == [f(ab, cd)];
    assert Root(f, [a, b, c]) == Root(f, [ab, cc]) == Root(f, [f(ab, cc)]);
    assert Root(f, [a, b, c, d]) == Root(f, [ab, cd]) == Root(f, [f(ab, cd)]);
  }

  /** What verification answers, case by case. */
  lemma VerifiedExactly(f: Pairing, proof: CohortProof, root: Digest, round: U64)
    ensures Verified(f, proof, root, round) == Err(WrongRound) <==> proof.roundId != round
    ensures Verified(f, proof, root, round) == Err(WrongRoot) <==> proof.roundId == round && proof.merkleRoot != root
    ensures Verified(f, proof, root, round) == Ok(()) <==>
              && proof.roundId == round && proof.merkleRoot == root
              && Fold(f, proof.leafHash, proof.leafIndex, proof.siblings) == root
    ensures Verified(f, proof, root, round).Err? ==> Verified(f, proof, root, round).error in {WrongRound, WrongRoot, InvalidProof}
  {
  }
}
