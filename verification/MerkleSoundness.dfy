/**
 Soundness of inclusion paths by collision extraction. A pairing of two digests into one cannot be
 injective, so nothing here assumes it is: `Divergence` computes, from an accepted path, two concrete
 child pairs, and the lemmas say that either those pairs collide or the path is the tree's own.
 */
module MerkleSoundness {
  import opened Bytes
  import opened Sorting
  import opened Merkle

  /** Two children, left and right. */
  type Pair = (Digest, Digest)

  /** Two different child pairs with one parent. */
  predicate PairCollision(f: Pairing, x: Pair, y: Pair) {
    x != y && f(x.0, x.1) == f(y.0, y.1)
  }

  /**
   The leaf position an index leads to. Each bit of the index picks a child on the way down; the
   missing right child of an odd last node is that node again.
   */
  function Resolve(n: nat, i: nat): (p: nat)
    requires n >= 1
    ensures p < n
    ensures i < n ==> p == i
    decreases n
  {
    if n == 1 then 0
    else
      var q := Resolve((n + 1) / 2, i / 2);
      if i % 2 == 1 && 2 * q + 1 < n then 2 * q + 1 else 2 * q
  }

  /** The children of node `q` of the next level. */
  function Children(level: seq<Digest>, q: nat): Pair
    requires 2 * q < |level|
  {
    (level[2 * q], RightChild(level, q))
  }

  /** The child a parity picks, and the one it leaves as sibling. */
  function Picked(c: Pair, i: nat): Digest { if i % 2 == 0 then c.0 else c.1 }
  function Other(c: Pair, i: nat): Digest { if i % 2 == 0 then c.1 else c.0 }

  /** The pair hashed by one verification step. */
  function StepPair(node: Digest, i: nat, sibling: Digest): Pair {
    if i % 2 == 0 then (node, sibling) else (sibling, node)
  }

  /** The siblings met on the way from the resolved position to the root. */
  function PathSiblings(f: Pairing, level: seq<Digest>, i: nat): seq<Digest>
    requires level != []
    decreases |level|
  {
    if |level| == 1 then []
    else
      var q := Resolve((|level| + 1) / 2, i / 2);
      [Other(Children(level, q), i)] + PathSiblings(f, NextLevel(f, level), i / 2)
  }

  lemma ResolvePicks(level: seq<Digest>, i: nat)
    requires |level| > 1
    ensures level[Resolve(|level|, i)] == Picked(Children(level, Resolve((|level| + 1) / 2, i / 2)), i)
  {
  }

  /** For an index that is a position, the path's siblings are the generated ones. */
  lemma PathSiblingsInRange(f: Pairing, level: seq<Digest>, i: nat)
    requires i < |level|
    ensures PathSiblings(f, level, i) == Siblings(f, level, i)
  {
    SameSiblings(f, level, i);
  }

  /**
   Compares an accepted path with the tree, top down, and returns the child pairs of the first node
   where they part; equal pairs when they never do.
   */
  function Divergence(f: Pairing, level: seq<Digest>, node: Digest, i: nat, siblings: seq<Digest>): (Pair, Pair)
    requires level != [] && |siblings| == Depth(|level|)
    decreases |level|
  {
    if |level| == 1 then ((node, node), (node, node))
    else
      var above := Divergence(f, NextLevel(f, level), StepUp(f, node, i, siblings[0]), i / 2, siblings[1..]);
      if above.0 != above.1 then above
      else (StepPair(node, i, siblings[0]), Children(level, Resolve((|level| + 1) / 2, i / 2)))
  }

  /** The path is the tree's own: it starts at the resolved leaf and carries the tree's siblings. */
  ghost predicate Genuine(f: Pairing, level: seq<Digest>, node: Digest, i: nat, siblings: seq<Digest>)
    requires level != []
  {
    node == level[Resolve(|level|, i)] && siblings == PathSiblings(f, level, i)
  }

  /** One level of binding: below a node the tree agrees on, the children agree or collide. */
  lemma ChildrenBind(f: Pairing, level: seq<Digest>, node: Digest, i: nat, sibling: Digest)
    requires |level| > 1
    requires StepUp(f, node, i, sibling) == NextLevel(f, level)[Resolve((|level| + 1) / 2, i / 2)]
    ensures var x, y := StepPair(node, i, sibling), Children(level, Resolve((|level| + 1) / 2, i / 2));
            PairCollision(f, x, y) || (x == y && node == level[Resolve(|level|, i)] && sibling == Other(y, i))
  {
    var q := Resolve((|level| + 1) / 2, i / 2);
    assert NextLevel(f, level)[q] == f(Children(level, q).0, Children(level, q).1);
    ResolvePicks(level, i);
  }

  /** A genuine path one level up, with agreeing children, is genuine. */
  lemma GenuineStep(f: Pairing, level: seq<Digest>, node: Digest, i: nat, siblings: seq<Digest>)
    requires |level| > 1 && siblings != []
    requires siblings[1..] == PathSiblings(f, NextLevel(f, level), i / 2)
    requires node == level[Resolve(|level|, i)]
    requires siblings[0] == Other(Children(level, Resolve((|level| + 1) / 2, i / 2)), i)
    ensures Genuine(f, level, node, i, siblings)
  {
    assert siblings == [siblings[0]] + siblings[1..];
  }

  /** Full-depth binding: accepted means genuine, or the divergence is a collision. */
  lemma {:induction false} PathBinding(f: Pairing, level: seq<Digest>, node: Digest, i: nat, siblings: seq<Digest>)
    requires level != [] && |siblings| == Depth(|level|)
    requires Fold(f, node, i, siblings) == Root(f, level)
    ensures var (x, y) := Divergence(f, level, node, i, siblings);
            PairCollision(f, x, y) || (x == y && Genuine(f, level, node, i, siblings))
    decreases |level|
  {
    if |level| > 1 {
      var next, up := NextLevel(f, level), StepUp(f, node, i, siblings[0]);
      PathBinding(f, next, up, i / 2, siblings[1..]);
      var above := Divergence(f, next, up, i / 2, siblings[1..]);
      if above.0 == above.1 {
        ChildrenBind(f, level, node, i, siblings[0]);
        if !PairCollision(f, StepPair(node, i, siblings[0]), Children(level, Resolve((|level| + 1) / 2, i / 2))) {
          GenuineStep(f, level, node, i, siblings);
        }
      }
    }
  }

  /** The converse: a genuine path is accepted, whatever its index. */
  lemma {:induction false} GenuineAccepted(f: Pairing, level: seq<Digest>, i: nat)
    requires level != []
    ensures Fold(f, level[Resolve(|level|, i)], i, PathSiblings(f, level, i)) == Root(f, level)
    ensures |PathSiblings(f, level, i)| == Depth(|level|)
    decreases |level|
  {
    if |level| > 1 {
      var next, path := NextLevel(f, level), PathSiblings(f, level, i);
      var q := Resolve((|level| + 1) / 2, i / 2);
      GenuineAccepted(f, next, i / 2);
      ResolvePicks(level, i);
      assert path[1..] == PathSiblings(f, next, i / 2);
      assert StepUp(f, level[Resolve(|level|, i)], i, path[0]) == next[q];
    }
  }

  /**
   Position binding and uniqueness: a full-depth proof whose index is a position is accepted only if
   it is, field by field, the proof generated for that position -- or it yields a collision.
   */
  lemma PositionBinding(f: Pairing, leaves: seq<Digest>, proof: CohortProof, round: U64)
    requires 1 <= |leaves| <= MAX_LEAVES
    requires |proof.siblings| == Depth(|leaves|) && proof.leafIndex < |leaves|
    requires Verified(f, proof, Root(f, leaves), round).Ok?
    ensures var (x, y) := Divergence(f, leaves, proof.leafHash, proof.leafIndex, proof.siblings);
            PairCollision(f, x, y) || proof == ProofAt(f, leaves, proof.leafIndex, round)
  {
    PathBinding(f, leaves, proof.leafHash, proof.leafIndex, proof.siblings);
    PathSiblingsInRange(f, leaves, proof.leafIndex);
  }

  /** Nodes `t` levels up a tree over `n` leaves. */
  function Width(n: nat, t: nat): nat {
    if t == 0 then n else Width((n + 1) / 2, t - 1)
  }

  /** The index after `k` verification steps. */
  function Shifted(i: nat, k: nat): nat {
    if k == 0 then i else Shifted(i / 2, k - 1)
  }

  /** The node above position `k` on level `t` is the last one of an odd level, paired with itself. */
  predicate Unpaired(n: nat, k: nat, t: nat) {
    Width(n, t) % 2 == 1 && Shifted(k, t) + 1 == Width(n, t)
  }

  /**
   An index leads to position `k` of `n` when it has the bits of `k` below the tree's depth, except
   that bits at unpaired nodes, and all bits from the depth up, are free.
   */
  predicate LeadsTo(n: nat, k: nat, i: nat) {
    forall t :: 0 <= t < Depth(n) ==> Shifted(i, t) % 2 == Shifted(k, t) % 2 || Unpaired(n, k, t)
  }

  /** One bit at a time. */
  lemma LeadsToHalves(n: nat, k: nat, i: nat)
    requires n > 1
    ensures LeadsTo(n, k, i) <==>
              (i % 2 == k % 2 || (n % 2 == 1 && k + 1 == n)) && LeadsTo((n + 1) / 2, k / 2, i / 2)
  {
    if LeadsTo(n, k, i) {
      assert Shifted(i, 0) % 2 == Shifted(k, 0) % 2 || Unpaired(n, k, 0);
      forall t | 0 <= t < Depth((n + 1) / 2)
        ensures Shifted(i / 2, t) % 2 == Shifted(k / 2, t) % 2 || Unpaired((n + 1) / 2, k / 2, t)
      {
        assert Shifted(i, t + 1) % 2 == Shifted(k, t + 1) % 2 || Unpaired(n, k, t + 1);
      }
    }
    if (i % 2 == k % 2 || (n % 2 == 1 && k + 1 == n)) && LeadsTo((n + 1) / 2, k / 2, i / 2) {
      forall t | 0 <= t < Depth(n)
        ensures Shifted(i, t) % 2 == Shifted(k, t) % 2 || Unpaired(n, k, t)
      {
        if t > 0 {
          assert Shifted(i / 2, t - 1) % 2 == Shifted(k / 2, t - 1) % 2 || Unpaired((n + 1) / 2, k / 2, t - 1);
        }
      }
    }
  }

  /** Which child `k` of node `q` a bit picks in a level of `n` nodes. */
  lemma PickedChild(n: nat, k: nat, odd: bool, q: nat)
    requires k < n && 2 * q < n
    ensures (if odd && 2 * q + 1 < n then 2 * q + 1 else 2 * q) == k <==>
              (odd == (k % 2 == 1) || (n % 2 == 1 && k + 1 == n)) && q == k / 2
  {
    assert k == 2 * (k / 2) + k % 2;
  }

  lemma ResolveHalves(n: nat, k: nat, i: nat)
    requires k < n && n > 1
    ensures Resolve(n, i) == k <==>
              (i % 2 == k % 2 || (n % 2 == 1 && k + 1 == n)) && Resolve((n + 1) / 2, i / 2) == k / 2
  {
    PickedChild(n, k, i % 2 == 1, Resolve((n + 1) / 2, i / 2));
  }

  /** Where an index leads, read off its bits. */
  lemma {:induction false} ResolveExactly(n: nat, k: nat, i: nat)
    requires k < n
    ensures Resolve(n, i) == k <==> LeadsTo(n, k, i)
    decreases n
  {
    if n > 1 {
      ResolveHalves(n, k, i);
      ResolveExactly((n + 1) / 2, k / 2, i / 2);
      LeadsToHalves(n, k, i);
    } else {
      assert Depth(n) == 0;
    }
  }

  /** On one level, the child left as sibling is the one recorded for the child picked. */
  lemma SameSibling(level: seq<Digest>, i: nat)
    requires |level| > 1
    ensures var q := Resolve((|level| + 1) / 2, i / 2);
            && Resolve(|level|, i) / 2 == q
            && Other(Children(level, q), i) == SiblingOf(level, Resolve(|level|, i))
  {
    var q := Resolve((|level| + 1) / 2, i / 2);
    assert Resolve(|level|, i) == if i % 2 == 1 && 2 * q + 1 < |level| then 2 * q + 1 else 2 * q;
  }

  /** Every index leading to a position meets that position's own siblings. */
  lemma {:induction false} SameSiblings(f: Pairing, level: seq<Digest>, i: nat)
    requires level != []
    ensures PathSiblings(f, level, i) == Siblings(f, level, Resolve(|level|, i))
    decreases |level|
  {
    if |level| > 1 {
      SameSibling(level, i);
      SameSiblings(f, NextLevel(f, level), i / 2);
    }
  }

  lemma HalfOfSum(i: nat, c: nat, m: nat)
    ensures (i + c * (2 * m)) / 2 == i / 2 + c * m && (i + c * (2 * m)) % 2 == i % 2
  {
    assert i + c * (2 * m) == i + 2 * (c * m);
  }

  /** Index bits from the path's length up are never read. */
  lemma {:induction false} HighBitsIgnored(f: Pairing, node: Digest, i: nat, siblings: seq<Digest>, c: nat)
    ensures Fold(f, node, i + c * Pow2(|siblings|), siblings) == Fold(f, node, i, siblings)
    decreases |siblings|
  {
    if siblings != [] {
      HalfOfSum(i, c, Pow2(|siblings| - 1));
      HighBitsIgnored(f, StepUp(f, node, i, siblings[0]), i / 2, siblings[1..], c);
    }
  }

  /**
   Exactly which indices a generated proof may carry: over distinct leaves, the proof of position `k`
   under index `i` is accepted if and only if `i` leads to `k` -- or it yields a collision.
   */
  lemma Reindexing(f: Pairing, leaves: seq<Digest>, k: nat, i: nat)
    requires k < |leaves| && Distinct(leaves)
    ensures var path := Siblings(f, leaves, k);
            |path| == Depth(|leaves|) &&
            var (x, y) := Divergence(f, leaves, leaves[k], i, path);
            (Fold(f, leaves[k], i, path) == Root(f, leaves) && PairCollision(f, x, y)) ||
            (Fold(f, leaves[k], i, path) == Root(f, leaves) <==> LeadsTo(|leaves|, k, i))
  {
    var path := Siblings(f, leaves, k);
    PathLength(f, leaves, k);
    ResolveExactly(|leaves|, k, i);
    if Fold(f, leaves[k], i, path) == Root(f, leaves) {
      PathBinding(f, leaves, leaves[k], i, path);
    }
    SameSiblings(f, leaves, i);
    GenuineAccepted(f, leaves, i);
  }

  lemma NextBitIgnored(f: Pairing, node: Digest, i: nat, siblings: seq<Digest>)
    ensures Fold(f, node, i + Pow2(|siblings|), siblings) == Fold(f, node, i, siblings)
  {
    HighBitsIgnored(f, node, i, siblings, 1);
    assert i + 1 * Pow2(|siblings|) == i + Pow2(|siblings|);
  }

  lemma PathCovers(f: Pairing, leaves: seq<Digest>, k: nat)
    requires k < |leaves|
    ensures |leaves| <= Pow2(|Siblings(f, leaves, k)|)
  {
    PathLength(f, leaves, k);
    DepthIsLeast(|leaves|, Depth(|leaves|));
  }

  /** Every position of every tree is accepted under an index past the leaves: its own plus 2^depth. */
  lemma IndexPlusPower(f: Pairing, leaves: seq<Digest>, k: nat, path: seq<Digest>)
    requires k < |leaves| && path == Siblings(f, leaves, k)
    ensures |leaves| <= k + Pow2(|path|)
    ensures Fold(f, leaves[k], k + Pow2(|path|), path) == Root(f, leaves)
  {
    PathCovers(f, leaves, k);
    NextBitIgnored(f, leaves[k], k, path);
    PathReachesRoot(f, leaves, k);
  }

  /** An index past the last leaf can be accepted: with three leaves, index 3 names the third. */
  lemma IndexBeyondLeaves(f: Pairing, a: Digest, b: Digest, c: Digest)
    ensures Resolve(3, 3) == 2
    ensures Fold(f, c, 3, Siblings(f, [a, b, c], 2)) == Root(f, [a, b, c])
  {
    var leaves := [a, b, c];
    assert Resolve(2, 1) == 1;
    GenuineAccepted(f, leaves, 3);
    var next := NextLevel(f, leaves);
    PathSiblingsInRange(f, next, 1);
    assert PathSiblings(f, leaves, 3) == Siblings(f, leaves, 2);
  }

  /** The level `k` pairings above `level`; its tree is the rest of the same tree. */
  function LevelAt(f: Pairing, level: seq<Digest>, k: nat): (r: seq<Digest>)
    requires level != [] && k <= Depth(|level|)
    ensures r != [] && Depth(|r|) == Depth(|level|) - k
    ensures Root(f, r) == Root(f, level)
    decreases k
  {
    if k == 0 then level else LevelAt(f, NextLevel(f, level), k - 1)
  }

  /** The children behind node `p` of level `k`, for any level above the leaves. */
  function InnerPair(f: Pairing, level: seq<Digest>, k: nat, p: nat): (c: Pair)
    requires level != [] && 1 <= k <= Depth(|level|) && p < |LevelAt(f, level, k)|
    ensures LevelAt(f, level, k)[p] == f(c.0, c.1)
    decreases k
  {
    if k == 1 then
      assert LevelAt(f, level, 1) == NextLevel(f, level);
      Children(level, p)
    else InnerPair(f, NextLevel(f, level), k - 1, p)
  }

  lemma {:induction false} FoldSplit(f: Pairing, node: Digest, i: nat, siblings: seq<Digest>, k: nat)
    requires k <= |siblings|
    ensures Fold(f, node, i, siblings)
         == Fold(f, Fold(f, node, i, siblings[..k]), Shifted(i, k), siblings[k..])
    decreases k
  {
    if k > 0 {
      assert siblings[..k][1..] == siblings[1..][..k - 1];
      assert siblings[k..] == siblings[1..][k - 1..];
      FoldSplit(f, StepUp(f, node, i, siblings[0]), i / 2, siblings[1..], k - 1);
    } else {
      assert siblings[0..] == siblings;
    }
  }

  /** The pair hashed by the last of a nonempty run of verification steps. */
  function LastPair(f: Pairing, node: Digest, i: nat, siblings: seq<Digest>): (c: Pair)
    requires siblings != []
    ensures Fold(f, node, i, siblings) == f(c.0, c.1)
    decreases |siblings|
  {
    if |siblings| == 1 then
      assert siblings[1..] == [];
      StepPair(node, i, siblings[0])
    else LastPair(f, StepUp(f, node, i, siblings[0]), i / 2, siblings[1..])
  }

  // ---------- paths of any length ----------

  /** A path of any length over a tree ends on the level where its length runs out, or passes a leaf. */
  ghost predicate GenuineAt(f: Pairing, leaves: seq<Digest>, node: Digest, i: nat, siblings: seq<Digest>)
    requires leaves != []
  {
    var d := Depth(|leaves|);
    if |siblings| <= d then Genuine(f, LevelAt(f, leaves, d - |siblings|), node, i, siblings)
    else
      var k := |siblings| - d;
      Genuine(f, leaves, Fold(f, node, i, siblings[..k]), Shifted(i, k), siblings[k..])
  }

  /** The child pairs where a path of any length parts from the tree. */
  function PathDivergence(f: Pairing, leaves: seq<Digest>, node: Digest, i: nat, siblings: seq<Digest>): (Pair, Pair)
    requires leaves != []
  {
    var d := Depth(|leaves|);
    if |siblings| <= d then Divergence(f, LevelAt(f, leaves, d - |siblings|), node, i, siblings)
    else
      var k := |siblings| - d;
      Divergence(f, leaves, Fold(f, node, i, siblings[..k]), Shifted(i, k), siblings[k..])
  }

  /**
   What verification accepts, for every pairing, digest, index and length. A path `k` shorter than the
   tree is accepted if and only if it starts at the node its index leads to, `k` levels up, and carries
   the siblings from there; a longer one if and only if its end does so from the leaves -- or it yields
   a collision.
   */
  lemma AcceptedExactly(f: Pairing, leaves: seq<Digest>, node: Digest, i: nat, siblings: seq<Digest>)
    requires leaves != []
    ensures var (x, y) := PathDivergence(f, leaves, node, i, siblings);
            (Fold(f, node, i, siblings) == Root(f, leaves) && PairCollision(f, x, y)) ||
            (Fold(f, node, i, siblings) == Root(f, leaves) <==> GenuineAt(f, leaves, node, i, siblings))
  {
    if |siblings| <= Depth(|leaves|) {
      ShortExactly(f, leaves, node, i, siblings);
    } else {
      LongExactly(f, leaves, node, i, siblings);
    }
  }

  lemma ShortExactly(f: Pairing, leaves: seq<Digest>, node: Digest, i: nat, siblings: seq<Digest>)
    requires leaves != [] && |siblings| <= Depth(|leaves|)
    ensures var (x, y) := PathDivergence(f, leaves, node, i, siblings);
            (Fold(f, node, i, siblings) == Root(f, leaves) && PairCollision(f, x, y)) ||
            (Fold(f, node, i, siblings) == Root(f, leaves) <==> GenuineAt(f, leaves, node, i, siblings))
  {
    LevelExactly(f, LevelAt(f, leaves, Depth(|leaves|) - |siblings|), node, i, siblings);
  }

  lemma LongExactly(f: Pairing, leaves: seq<Digest>, node: Digest, i: nat, siblings: seq<Digest>)
    requires leaves != [] && |siblings| > Depth(|leaves|)
    ensures var (x, y) := PathDivergence(f, leaves, node, i, siblings);
            (Fold(f, node, i, siblings) == Root(f, leaves) && PairCollision(f, x, y)) ||
            (Fold(f, node, i, siblings) == Root(f, leaves) <==> GenuineAt(f, leaves, node, i, siblings))
  {
    LongParts(f, leaves, node, i, siblings, |siblings| - Depth(|leaves|));
  }

  lemma LongParts(f: Pairing, leaves: seq<Digest>, node: Digest, i: nat, siblings: seq<Digest>, k: nat)
    requires leaves != [] && k + Depth(|leaves|) == |siblings|
    ensures var start := Fold(f, node, i, siblings[..k]);
            var (x, y) := Divergence(f, leaves, start, Shifted(i, k), siblings[k..]);
            (Fold(f, node, i, siblings) == Root(f, leaves) && PairCollision(f, x, y)) ||
            (Fold(f, node, i, siblings) == Root(f, leaves) <==>
             Genuine(f, leaves, start, Shifted(i, k), siblings[k..]))
  {
    FoldSplit(f, node, i, siblings, k);
    LevelExactly(f, leaves, Fold(f, node, i, siblings[..k]), Shifted(i, k), siblings[k..]);
  }

  lemma LevelExactly(f: Pairing, level: seq<Digest>, node: Digest, i: nat, siblings: seq<Digest>)
    requires level != [] && |siblings| == Depth(|level|)
    ensures var (x, y) := Divergence(f, level, node, i, siblings);
            (Fold(f, node, i, siblings) == Root(f, level) && PairCollision(f, x, y)) ||
            (Fold(f, node, i, siblings) == Root(f, level) <==> Genuine(f, level, node, i, siblings))
  {
    if Fold(f, node, i, siblings) == Root(f, level) {
      PathBinding(f, level, node, i, siblings);
    }
    GenuineAccepted(f, level, i);
  }

  /**
   What an accepted path of any length shows: two child pairs where it parts from the tree, or the
   children behind the inner node it starts at, or the children it hashes to a leaf, or a leaf.
   */
  datatype Evidence =
    | Parting(x: Pair, y: Pair)
    | InnerNode(children: Pair)
    | LeafAsNode(children: Pair, leaf: Digest)
    | Leaf(position: nat)

  function Explain(f: Pairing, leaves: seq<Digest>, node: Digest, i: nat, siblings: seq<Digest>): (e: Evidence)
    requires leaves != []
    ensures e.LeafAsNode? ==> e.leaf in leaves
    ensures e.Leaf? ==> e.position < |leaves|
  {
    var (x, y) := PathDivergence(f, leaves, node, i, siblings);
    if PairCollision(f, x, y) then Parting(x, y) else Placed(f, leaves, node, i, siblings)
  }

  /** What a path that parts from the tree nowhere shows, by its length. */
  function Placed(f: Pairing, leaves: seq<Digest>, node: Digest, i: nat, siblings: seq<Digest>): (e: Evidence)
    requires leaves != []
    ensures e.LeafAsNode? ==> e.leaf in leaves
    ensures e.Leaf? ==> e.position < |leaves|
  {
    var d := Depth(|leaves|);
    if |siblings| == d then Leaf(Resolve(|leaves|, i))
    else if |siblings| < d then InnerNode(ChildrenAbove(f, leaves, d - |siblings|, i))
    else
      var k := |siblings| - d;
      LeafAsNode(LastPair(f, node, i, siblings[..k]), leaves[Resolve(|leaves|, Shifted(i, k))])
  }

  /** The children behind the node an index leads to, `k` levels up. */
  function ChildrenAbove(f: Pairing, leaves: seq<Digest>, k: nat, i: nat): (c: Pair)
    requires leaves != [] && 1 <= k <= Depth(|leaves|)
    ensures var level := LevelAt(f, leaves, k); level[Resolve(|level|, i)] == f(c.0, c.1)
  {
    InnerPair(f, leaves, k, Resolve(|LevelAt(f, leaves, k)|, i))
  }

  /** What each kind of evidence means. */
  ghost predicate Shows(f: Pairing, leaves: seq<Digest>, node: Digest, i: nat, siblings: seq<Digest>, e: Evidence)
    requires leaves != []
  {
    match e
    case Parting(x, y) => PairCollision(f, x, y)
    case InnerNode(c) =>
      && |siblings| < Depth(|leaves|) && node == f(c.0, c.1)
      && Genuine(f, LevelAt(f, leaves, Depth(|leaves|) - |siblings|), node, i, siblings)
    case LeafAsNode(c, leaf) => |siblings| > Depth(|leaves|) && leaf in leaves && leaf == f(c.0, c.1)
    case Leaf(p) =>
      && |siblings| == Depth(|leaves|) && Genuine(f, leaves, node, i, siblings)
      && p == Resolve(|leaves|, i) && node == leaves[p]
  }

  /** For every pairing, digest, index and length, an accepted path shows what its evidence says. */
  lemma AcceptedShows(f: Pairing, leaves: seq<Digest>, node: Digest, i: nat, siblings: seq<Digest>)
    requires leaves != [] && Fold(f, node, i, siblings) == Root(f, leaves)
    ensures Shows(f, leaves, node, i, siblings, Explain(f, leaves, node, i, siblings))
  {
    AcceptedExactly(f, leaves, node, i, siblings);
    if GenuineAt(f, leaves, node, i, siblings) {
      PlacedShows(f, leaves, node, i, siblings);
    }
  }

  lemma PlacedShows(f: Pairing, leaves: seq<Digest>, node: Digest, i: nat, siblings: seq<Digest>)
    requires leaves != [] && GenuineAt(f, leaves, node, i, siblings)
    ensures Shows(f, leaves, node, i, siblings, Placed(f, leaves, node, i, siblings))
  {
    var d := Depth(|leaves|);
    if |siblings| < d {
      var c := ChildrenAbove(f, leaves, d - |siblings|, i);
      assert node == f(c.0, c.1);
    } else if |siblings| > d {
      var c := LastPair(f, node, i, siblings[..|siblings| - d]);
      assert leaves[Resolve(|leaves|, Shifted(i, |siblings| - d))] == f(c.0, c.1);
    } else {
      assert LevelAt(f, leaves, 0) == leaves;
    }
  }

  /** A digest some pair of children hashes to. */
  ghost predicate IsParent(f: Pairing, d: Digest) {
    exists x, y :: f(x, y) == d
  }

  /**
   Full depth: when neither the digest nor any leaf is a parent, an accepted path of any length has the
   tree's depth and is the tree's own -- or it yields a collision.
   */
  lemma FullDepth(f: Pairing, leaves: seq<Digest>, node: Digest, i: nat, siblings: seq<Digest>)
    requires leaves != [] && Fold(f, node, i, siblings) == Root(f, leaves)
    requires !IsParent(f, node) && forall leaf :: leaf in leaves ==> !IsParent(f, leaf)
    ensures var (x, y) := PathDivergence(f, leaves, node, i, siblings);
            PairCollision(f, x, y) || (|siblings| == Depth(|leaves|) && Genuine(f, leaves, node, i, siblings))
  {
    AcceptedShows(f, leaves, node, i, siblings);
  }

  /** Both conditions are needed. Every node above the leaves is accepted with a shorter path. */
  lemma ShorterAccepted(f: Pairing, leaves: seq<Digest>, k: nat, p: nat)
    requires leaves != [] && k <= Depth(|leaves|) && p < |LevelAt(f, leaves, k)|
    ensures var level := LevelAt(f, leaves, k);
            && Fold(f, level[p], p, Siblings(f, level, p)) == Root(f, leaves)
            && |Siblings(f, level, p)| == Depth(|leaves|) - k
  {
    PathReachesRoot(f, LevelAt(f, leaves, k), p);
    PathLength(f, LevelAt(f, leaves, k), p);
  }

  /** The children of a leaf that is a parent are accepted with a longer path. */
  lemma LongerAccepted(f: Pairing, leaves: seq<Digest>, p: nat, x: Digest, y: Digest)
    requires p < |leaves| && leaves[p] == f(x, y)
    ensures var path := [y] + Siblings(f, leaves, p);
            Fold(f, x, 2 * p, path) == Root(f, leaves) && |path| == Depth(|leaves|) + 1
  {
    FoldFirst(f, x, y, p, Siblings(f, leaves, p));
    PathReachesRoot(f, leaves, p);
    PathLength(f, leaves, p);
  }

  lemma FoldFirst(f: Pairing, x: Digest, y: Digest, p: nat, rest: seq<Digest>)
    ensures Fold(f, x, 2 * p, [y] + rest) == Fold(f, f(x, y), p, rest)
  {
    assert ([y] + rest)[1..] == rest;
    assert 2 * p / 2 == p && 2 * p % 2 == 0;
  }
}
