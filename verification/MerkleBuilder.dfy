/** The cohort tree as the program builds, reads and checks it: loops over growing vectors. */
module MerkleBuilder {
  import opened Bytes
  import opened Sorting
  import opened Merkle

  /** One pass of the level loop: hash the level's pairs, an odd last node with itself. */
  method HashPairs(f: Pairing, current: seq<Digest>) returns (next: seq<Digest>)
    ensures next == NextLevel(f, current)
  {
    next := [];
    var k := 0;
    while k < |current|
      invariant 0 <= k <= |current| + 1 && k == 2 * |next|
      invariant forall p :: 0 <= p < |next| ==> next[p] == NextLevel(f, current)[p]
    {
      var right := if k + 1 < |current| then current[k + 1] else current[k];
      next := next + [f(current[k], right)];
      k := k + 2;
    }
  }

  /** The level loop: grow the tree until its last level has one node. */
  method GrowLevels(f: Pairing, leaves: seq<Digest>) returns (levels: seq<seq<Digest>>)
    requires leaves != []
    ensures levels == Levels(f, leaves)
  {
    levels := [leaves];
    var last := leaves;
    ghost var done: seq<seq<Digest>> := [];
    while |last| > 1
      invariant last != [] && levels == done + [last]
      invariant done + Levels(f, last) == Levels(f, leaves)
      decreases |last|
    {
      var next := HashPairs(f, last);
      assert done + Levels(f, last) == levels + Levels(f, next);
      done := levels;
      levels := levels + [next];
      last := next;
    }
  }

  /** The duplicate scan over adjacent pairs. */
  method HasAdjacentDuplicate(leaves: seq<Digest>) returns (found: bool)
    ensures found <==> !AdjacentDistinct(leaves)
  {
    for k := 0 to if |leaves| == 0 then 0 else |leaves| - 1
      invariant forall i :: 0 <= i < k ==> leaves[i] != leaves[i + 1]
    {
      if leaves[k] == leaves[k + 1] {
        return true;
      }
    }
    return false;
  }

  /** Sort, reject duplicates, then hash pairs level by level until one node is left. */
  method Build(f: Pairing, input: seq<Digest>) returns (r: Result<MerkleCohort, MerkleError>)
    ensures r == Cohort(f, input)
  {
    if |input| == 0 {
      return Err(EmptyTree);
    }
    if |input| > MAX_LEAVES {
      return Err(TooManyLeaves);
    }
    var leaves := Sort(input);
    var duplicate := HasAdjacentDuplicate(leaves);
    if duplicate {
      return Err(DuplicateLeaf);
    }
    var levels := GrowLevels(f, leaves);
    return Ok(MerkleCohort(leaves, levels));
  }

  /** The last level of a built tree holds the root and nothing else. */
  lemma {:induction false} LastLevel(f: Pairing, level: seq<Digest>)
    requires level != []
    ensures Levels(f, level)[|Levels(f, level)| - 1] == [Root(f, level)]
    decreases |level|
  {
    if |level| > 1 {
      LastLevel(f, NextLevel(f, level));
    } else {
      assert level == [level[0]];
    }
  }

  /** First node of the last level, or `EmptyTree` when there is none. */
  method RootOf(ghost f: Pairing, cohort: MerkleCohort) returns (r: Result<Digest, MerkleError>)
    requires cohort.Valid(f)
    ensures r == Ok(Root(f, cohort.leaves))
  {
    LastLevel(f, cohort.leaves);
    if cohort.levels == [] || cohort.levels[|cohort.levels| - 1] == [] {
      return Err(EmptyTree);
    }
    return Ok(cohort.levels[|cohort.levels| - 1][0]);
  }

  /** Binary search in an ascending list: the position of `x`, or none when it is absent. */
  method BinarySearch(s: seq<Digest>, x: Digest) returns (r: Option<nat>)
    requires StrictlyOrdered(s)
    ensures r.None? <==> x !in s
    ensures r.Some? ==> r.value < |s| && s[r.value] == x
  {
    var lo, hi := 0, |s|;
    while lo < hi
      invariant 0 <= lo <= hi <= |s|
      invariant forall i :: 0 <= i < |s| && !(lo <= i < hi) ==> s[i] != x
    {
      var mid := (lo + hi) / 2;
      if s[mid] == x {
        return Some(mid);
      }
      LessTotal(s[mid], x);
      forall i | 0 <= i < |s|
        ensures Less(s[mid], x) && i <= mid ==> s[i] != x
        ensures Less(x, s[mid]) && mid <= i ==> s[i] != x
      {
        if Less(s[mid], x) { LessAsymmetric(s[mid], x); }
        if Less(x, s[mid]) { LessAsymmetric(x, s[mid]); }
      }
      if Less(s[mid], x) { lo := mid + 1; } else { hi := mid; }
    }
    return None;
  }

  /** The sibling loop: one sibling per stored level below the root. */
  method CollectSiblings(ghost f: Pairing, levels: seq<seq<Digest>>, position: nat) returns (siblings: seq<Digest>)
    requires Tower(f, levels, 0)
    requires position < |levels[0]|
    ensures siblings == Siblings(f, levels[0], position)
  {
    siblings := [];
    var index := position;
    ghost var all := Siblings(f, levels[0], position);
    for k := 0 to |levels| - 1
      invariant Tower(f, levels, k)
      invariant 0 <= index < |levels[k]|
      invariant siblings + Siblings(f, levels[k], index) == all
    {
      var level := levels[k];
      var siblingIndex := if index % 2 == 0 then index + 1 else index - 1;
      var sibling := if siblingIndex < |level| then level[siblingIndex] else level[index];
      assert sibling == SiblingOf(level, index);
      LevelAbove(f, levels, k);
      SiblingsUnfold(f, siblings, level, index);
      siblings := siblings + [sibling];
      index := index / 2;
    }
    TowerTop(f, levels);
    assert Siblings(f, levels[|levels| - 1], index) == [];
  }

  /** From `k` up, `levels` is the tree over its level `k`. */
  ghost predicate Tower(f: Pairing, levels: seq<seq<Digest>>, k: nat) {
    k < |levels| && levels[k] != [] && levels[k..] == Levels(f, levels[k])
  }

  lemma TowerTop(f: Pairing, levels: seq<seq<Digest>>)
    requires levels != [] && Tower(f, levels, |levels| - 1)
    ensures |levels[|levels| - 1]| == 1
  {
  }

  lemma SiblingsUnfold(f: Pairing, done: seq<Digest>, level: seq<Digest>, i: nat)
    requires i < |level| && |level| > 1
    ensures done + Siblings(f, level, i)
         == (done + [SiblingOf(level, i)]) + Siblings(f, NextLevel(f, level), i / 2)
  {
  }

  /** In a tower of levels, each level is the pairing of the one below it. */
  lemma LevelAbove(f: Pairing, levels: seq<seq<Digest>>, k: nat)
    requires k + 1 < |levels| && Tower(f, levels, k)
    ensures |levels[k]| > 1
    ensures levels[k + 1] == NextLevel(f, levels[k])
    ensures Tower(f, levels, k + 1)
  {
    assert |levels[k..]| > 1;
    assert levels[k + 1..] == levels[k..][1..];
    assert levels[k + 1] == levels[k + 1..][0];
  }

  /**
   Walks up the stored levels collecting siblings. Succeeds exactly for members, with the proof of
   the member's own position.
   */
  method Prove(ghost f: Pairing, cohort: MerkleCohort, leaf: Digest, round: U64)
    returns (r: Result<CohortProof, MerkleError>)
    requires cohort.Valid(f)
    ensures r.Ok? <==> leaf in cohort.leaves
    ensures r.Err? ==> r.error == LeafNotFound
    ensures r.Ok? ==> exists i :: 0 <= i < |cohort.leaves| && cohort.leaves[i] == leaf
                                  && r.value == ProofAt(f, cohort.leaves, i, round)
    ensures r.Ok? ==> r.value.leafIndex == |LeavesBelow(cohort.leaves, leaf)|
  {
    var found := BinarySearch(cohort.leaves, leaf);
    if found.None? {
      return Err(LeafNotFound);
    }
    var index := found.value;
    if index > U32_MAX {
      return Err(TooManyLeaves);
    }
    assert cohort.levels[0..] == cohort.levels;
    var siblings := CollectSiblings(f, cohort.levels, index);
    var root := RootOf(f, cohort);
    if root.Err? {
      return Err(EmptyTree);
    }
    var proof := CohortProof(leaf, index, siblings, root.value, round);
    assert proof == ProofAt(f, cohort.leaves, index, round);
    RankInOrder(cohort.leaves, index);
    return Ok(proof);
  }

  /** Checks round, root, then hashes up the path. */
  method Verify(f: Pairing, proof: CohortProof, expectedRoot: Digest, expectedRound: U64)
    returns (r: Result<(), MerkleError>)
    ensures r == Verified(f, proof, expectedRoot, expectedRound)
  {
    if proof.roundId != expectedRound {
      return Err(WrongRound);
    }
    if proof.merkleRoot != expectedRoot {
      return Err(WrongRoot);
    }
    var node: Digest := proof.leafHash;
    var index: nat := proof.leafIndex;
    for k := 0 to |proof.siblings|
      invariant Fold(f, node, index, proof.siblings[k..])
             == Fold(f, proof.leafHash, proof.leafIndex, proof.siblings)
    {
      var sibling := proof.siblings[k];
      assert proof.siblings[k..][1..] == proof.siblings[k + 1..];
      node := if index % 2 == 0 then f(node, sibling) else f(sibling, node);
      index := index / 2;
    }
    if node != expectedRoot {
      return Err(InvalidProof);
    }
    return Ok(());
  }
}
