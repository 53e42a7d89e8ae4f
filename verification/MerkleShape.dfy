/** The tree from the top down: which leaves stand under which node, without levels. */
module MerkleShape {
  import opened Bytes
  import opened Merkle

  /**
   The value of a node of height `d` over the leaves under it: the left child takes the first 2^(d-1)
   leaves and the right child the rest; a node whose right half is empty has its left child twice.
   */
  function Subtree(f: Pairing, leaves: seq<Digest>, d: nat): Digest
    requires 1 <= |leaves| <= Pow2(d)
  {
    if d == 0 then leaves[0]
    else
      var half := Pow2(d - 1);
      if |leaves| <= half then f(Subtree(f, leaves, d - 1), Subtree(f, leaves, d - 1))
      else f(Subtree(f, leaves[..half], d - 1), Subtree(f, leaves[half..], d - 1))
  }

  /** Pairing up neighbours respects a cut after an even number of nodes. */
  lemma LevelCut(f: Pairing, level: seq<Digest>, half: nat)
    requires 2 * half < |level|
    ensures NextLevel(f, level[..2 * half]) == NextLevel(f, level)[..half]
    ensures NextLevel(f, level[2 * half..]) == NextLevel(f, level)[half..]
  {
    var low, high := level[..2 * half], level[2 * half..];
    forall p | 0 <= p < half ensures NextLevel(f, low)[p] == NextLevel(f, level)[p] {
      assert RightChild(low, p) == RightChild(level, p);
    }
    forall p | 0 <= p < |NextLevel(f, high)| ensures NextLevel(f, high)[p] == NextLevel(f, level)[half + p] {
      assert high[2 * p] == level[2 * (half + p)];
      assert RightChild(high, p) == RightChild(level, half + p);
    }
  }

  /** Pairing up neighbours lowers a node by one, and changes nothing else. */
  lemma {:induction false} SubtreeOfNext(f: Pairing, leaves: seq<Digest>, d: nat)
    requires d > 0 && 1 <= |leaves| <= Pow2(d)
    ensures Subtree(f, leaves, d) == Subtree(f, NextLevel(f, leaves), d - 1)
  {
    var half := Pow2(d - 1);
    if d > 1 {
      if |leaves| <= half {
        SubtreeOfNext(f, leaves, d - 1);
      } else {
        LevelCut(f, leaves, Pow2(d - 2));
        SubtreeOfNext(f, leaves[..half], d - 1);
        SubtreeOfNext(f, leaves[half..], d - 1);
      }
    }
  }

  /** The root that level-by-level construction ends with is the node of least height over all leaves. */
  lemma {:induction false} RootFromTop(f: Pairing, leaves: seq<Digest>)
    requires leaves != []
    ensures |leaves| <= Pow2(Depth(|leaves|)) && Root(f, leaves) == Subtree(f, leaves, Depth(|leaves|))
    decreases |leaves|
  {
    DepthIsLeast(|leaves|, Depth(|leaves|));
    if |leaves| > 1 {
      RootFromTop(f, NextLevel(f, leaves));
      SubtreeOfNext(f, leaves, Depth(|leaves|));
    }
  }
}
