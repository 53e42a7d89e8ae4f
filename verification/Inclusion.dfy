/**
 Inclusion proofs for ticket commitments: the program's own node hash and commitment hash, both
 domain-separated BLAKE3, and soundness down to two colliding byte strings.
 */
module Inclusion {
  import opened Bytes
  import opened Merkle
  import opened MerkleSoundness

  /** The 64 concatenated child bytes under the node domain. */
  function NodeInput(left: Digest, right: Digest): seq<Byte> {
    HashInput(NODE_DOMAIN, left.bytes + right.bytes)
  }

  function NodeHash(h: Hasher): Pairing {
    (left, right) => h(NodeInput(left, right))
  }

  /** Commitment of a ticket's canonical bytes: a leaf of the cohort. */
  function Commitment(h: Hasher, ticket: seq<Byte>): Digest {
    h(TicketInput(ticket))
  }

  function TicketInput(ticket: seq<Byte>): seq<Byte> {
    HashInput(TICKET_DOMAIN, ticket)
  }

  /** The bytes hashed for a node and for a ticket, written out. */
  lemma HashedBytes(left: Digest, right: Digest, ticket: seq<Byte>)
    ensures NodeInput(left, right) == Ascii("mirror-pool/v1/") + Ascii("merkle-node") + [0] + left.bytes + right.bytes
    ensures TicketInput(ticket) == Ascii("mirror-pool/v1/") + Ascii("join-ticket") + [0] + ticket
  {
    DomainStrings();
  }

  /** Different child pairs are different hasher inputs. */
  lemma NodeInputInjective(x: Pair, y: Pair)
    requires NodeInput(x.0, x.1) == NodeInput(y.0, y.1)
    ensures x == y
  {
    var m, m' := x.0.bytes + x.1.bytes, y.0.bytes + y.1.bytes;
    HashInputInjective(NODE_DOMAIN, m, m');
    assert x.0.bytes == m[..32] && y.0.bytes == m'[..32];
    assert x.1.bytes == m[32..] && y.1.bytes == m'[32..];
  }

  /** A collision of child pairs is a collision of byte strings. */
  lemma PairCollisionLifts(h: Hasher, x: Pair, y: Pair)
    requires PairCollision(NodeHash(h), x, y)
    ensures Collision(h, NodeInput(x.0, x.1), NodeInput(y.0, y.1))
  {
    if NodeInput(x.0, x.1) == NodeInput(y.0, y.1) {
      NodeInputInjective(x, y);
    }
  }

  /** A digest that is both a commitment and a node is a collision across domains. */
  lemma CrossDomain(h: Hasher, ticket: seq<Byte>, c: Pair)
    requires Commitment(h, ticket) == NodeHash(h)(c.0, c.1)
    ensures Collision(h, TicketInput(ticket), NodeInput(c.0, c.1))
  {
    DomainsDisjoint(ticket, c.0.bytes + c.1.bytes);
  }

  /** Each leaf is the commitment of the ticket bytes recorded for it. */
  ghost predicate Committed(h: Hasher, leaves: seq<Digest>, tickets: map<Digest, seq<Byte>>) {
    forall leaf :: leaf in leaves ==> leaf in tickets && leaf == Commitment(h, tickets[leaf])
  }

  function NodeInputs(x: Pair, y: Pair): (seq<Byte>, seq<Byte>) {
    (NodeInput(x.0, x.1), NodeInput(y.0, y.1))
  }

  /**
   The inputs that collide behind an accepted path for a digest that is no node of the tree: the child
   pairs where path and tree part, or, for a path too long, a ticket hashed as a node.
   */
  function NodeForgery(tickets: map<Digest, seq<Byte>>, e: Evidence): (seq<Byte>, seq<Byte>)
    requires e.LeafAsNode? ==> e.leaf in tickets
  {
    match e
    case Parting(x, y) => NodeInputs(x, y)
    case LeafAsNode(c, leaf) => (NodeInput(c.0, c.1), TicketInput(tickets[leaf]))
    case _ => ([], [])
  }

  /**
   Soundness for every digest: whatever `leaf_hash`, index and path verification accepts against the
   root of a cohort of commitments, either the computed inputs collide, or the digest is a node of the
   tree on the level the path's length reaches, with that node's own siblings.
   */
  lemma AcceptedIsNode(h: Hasher, leaves: seq<Digest>, tickets: map<Digest, seq<Byte>>, proof: CohortProof, round: U64)
    requires leaves != [] && Committed(h, leaves, tickets)
    requires Verified(NodeHash(h), proof, Root(NodeHash(h), leaves), round).Ok?
    ensures var f := NodeHash(h);
            var e := Explain(f, leaves, proof.leafHash, proof.leafIndex, proof.siblings);
            var (x, y) := NodeForgery(tickets, e);
            || Collision(h, x, y)
            || ((e.InnerNode? || e.Leaf?) && Shows(f, leaves, proof.leafHash, proof.leafIndex, proof.siblings, e))
  {
    var f := NodeHash(h);
    AcceptedShows(f, leaves, proof.leafHash, proof.leafIndex, proof.siblings);
    match Explain(f, leaves, proof.leafHash, proof.leafIndex, proof.siblings)
    case Parting(x, y) => PairCollisionLifts(h, x, y);
    case LeafAsNode(c, leaf) => CrossDomain(h, tickets[leaf], c);
    case _ =>
  }

  /**
   The colliding inputs behind an accepted proof for a ticket that is not in the cohort, whatever the
   path length: those of its digest, or the ticket against the node or the ticket it would have to be.
   */
  function Forgery(h: Hasher, leaves: seq<Digest>, tickets: map<Digest, seq<Byte>>,
                   ticket: seq<Byte>, i: nat, siblings: seq<Digest>): (seq<Byte>, seq<Byte>)
    requires leaves != [] && forall leaf :: leaf in leaves ==> leaf in tickets
  {
    TicketForgery(leaves, tickets, ticket, Explain(NodeHash(h), leaves, Commitment(h, ticket), i, siblings))
  }

  function TicketForgery(leaves: seq<Digest>, tickets: map<Digest, seq<Byte>>, ticket: seq<Byte>, e: Evidence)
    : (seq<Byte>, seq<Byte>)
    requires forall leaf :: leaf in leaves ==> leaf in tickets
    requires (e.LeafAsNode? ==> e.leaf in leaves) && (e.Leaf? ==> e.position < |leaves|)
  {
    match e
    case InnerNode(c) => (TicketInput(ticket), NodeInput(c.0, c.1))
    case Leaf(p) => (TicketInput(ticket), TicketInput(tickets[leaves[p]]))
    case _ => NodeForgery(tickets, e)
  }

  /** What an honest, accepted path looks like. */
  ghost predicate Honest(h: Hasher, leaves: seq<Digest>, tickets: map<Digest, seq<Byte>>,
                         ticket: seq<Byte>, i: nat, siblings: seq<Digest>)
    requires leaves != []
  {
    && |siblings| == Depth(|leaves|)
    && Genuine(NodeHash(h), leaves, Commitment(h, ticket), i, siblings)
    && Commitment(h, ticket) in leaves
    && Commitment(h, ticket) in tickets && tickets[Commitment(h, ticket)] == ticket
  }

  /** A ticket commitment among the leaves is the recorded ticket's, or a collision. */
  lemma LeafTicket(h: Hasher, leaves: seq<Digest>, tickets: map<Digest, seq<Byte>>, ticket: seq<Byte>, p: nat)
    requires Committed(h, leaves, tickets) && p < |leaves| && Commitment(h, ticket) == leaves[p]
    ensures Collision(h, TicketInput(ticket), TicketInput(tickets[leaves[p]])) || tickets[leaves[p]] == ticket
  {
    if TicketInput(ticket) == TicketInput(tickets[leaves[p]]) {
      HashInputInjective(TICKET_DOMAIN, ticket, tickets[leaves[p]]);
    }
  }

  /**
   Inclusion soundness. Whenever verification accepts a proof for a ticket's commitment against the
   root of a cohort of ticket commitments, either `Forgery` exhibits two different byte strings with
   one digest, or that very ticket was committed to in the cohort, at the position the index leads
   to, and the path is the tree's own, of exactly the tree's depth.
   */
  lemma InclusionSoundness(h: Hasher, leaves: seq<Digest>, tickets: map<Digest, seq<Byte>>,
                           ticket: seq<Byte>, proof: CohortProof, round: U64)
    requires leaves != [] && Committed(h, leaves, tickets)
    requires proof.leafHash == Commitment(h, ticket)
    requires Verified(NodeHash(h), proof, Root(NodeHash(h), leaves), round).Ok?
    ensures var (x, y) := Forgery(h, leaves, tickets, ticket, proof.leafIndex, proof.siblings);
            Collision(h, x, y) || Honest(h, leaves, tickets, ticket, proof.leafIndex, proof.siblings)
  {
    var f := NodeHash(h);
    AcceptedShows(f, leaves, proof.leafHash, proof.leafIndex, proof.siblings);
    match Explain(f, leaves, proof.leafHash, proof.leafIndex, proof.siblings)
    case Parting(x, y) => PairCollisionLifts(h, x, y);
    case InnerNode(c) => CrossDomain(h, ticket, c);
    case LeafAsNode(c, leaf) => CrossDomain(h, tickets[leaf], c);
    case Leaf(p) => LeafTicket(h, leaves, tickets, ticket, p);
  }

  /**
   Full depth is not implied by acceptance alone: over four leaves, the inner node above the first
   two is accepted with a single sibling. Hashing commitments and nodes under different domains is
   what excludes it.
   */
  lemma InnerNodeAccepted(f: Pairing, a: Digest, b: Digest, c: Digest, d: Digest)
    ensures Fold(f, f(a, b), 0, [f(c, d)]) == Root(f, [a, b, c, d])
    ensures 1 < Depth(4)
  {
    var leaves, inner, top := [a, b, c, d], [f(a, b), f(c, d)], [f(f(a, b), f(c, d))];
    assert NextLevel(f, leaves) == inner && NextLevel(f, inner) == top;
    assert Root(f, leaves) == Root(f, inner) == Root(f, top) == top[0];
    assert [f(c, d)][1..] == [];
    assert Fold(f, f(a, b), 0, [f(c, d)]) == Fold(f, top[0], 0, []);
  }
}
