/** Bytes, 32-byte digests with their lexicographic order, and domain-separated hashing. */
module Bytes {

  type Byte = x: int | 0 <= x < 256

  type U16 = x: int | 0 <= x < 0x1_0000
  type U32 = x: int | 0 <= x < 0x1_0000_0000
  type U64 = x: int | 0 <= x < 0x1_0000_0000_0000_0000

  const U32_MAX: int := 0xFFFF_FFFF
  const U64_MAX: int := 0xFFFF_FFFF_FFFF_FFFF
  const I64_MAX: int := 0x7FFF_FFFF_FFFF_FFFF

  type Bytes32 = b: seq<Byte> | |b| == 32 witness seq(32, _ => 0)

  /** A 32-byte identifier: pools, templates, commitments, roots, keys. */
  datatype Digest = Digest(bytes: Bytes32)

  /** `n` zero bytes. */
  function Zeros(n: nat): (r: seq<Byte>)
    ensures |r| == n
    ensures forall i :: 0 <= i < n ==> r[i] == 0
  {
    if n == 0 then [] else [0] + Zeros(n - 1)
  }

  const ZERO: Digest := Digest(Zeros(32))

  datatype Option<+T> = None | Some(value: T)

  datatype Result<+T, +E> = Ok(value: T) | Err(error: E)

  /** BLAKE3 is a parameter of the model: any function from byte strings to digests. */
  type Hasher = seq<Byte> -> Digest

  /** ASCII bytes of "mirror-pool/v1/". */
  const PREFIX: seq<Byte> := [109, 105, 114, 114, 111, 114, 45, 112, 111, 111, 108, 47, 118, 49, 47]

  /** ASCII bytes of "merkle-node". */
  const NODE_DOMAIN: seq<Byte> := [109, 101, 114, 107, 108, 101, 45, 110, 111, 100, 101]

  /** ASCII bytes of "join-ticket". */
  const TICKET_DOMAIN: seq<Byte> := [106, 111, 105, 110, 45, 116, 105, 99, 107, 101, 116]

  /** The bytes of an ASCII string. */
  function Ascii(s: string): (r: seq<Byte>)
    ensures |r| == |s| && forall i :: 0 <= i < |s| ==> r[i] == s[i] as int % 256
  {
    seq(|s|, i requires 0 <= i < |s| => s[i] as int % 256)
  }

  /** The three constants, spelled. */
  lemma DomainStrings()
    ensures PREFIX == Ascii("mirror-pool/v1/")
    ensures NODE_DOMAIN == Ascii("merkle-node")
    ensures TICKET_DOMAIN == Ascii("join-ticket")
  {
  }

  /** What the hasher absorbs for one domain-separated message. */
  function HashInput(domain: seq<Byte>, bytes: seq<Byte>): seq<Byte> {
    PREFIX + domain + [0] + bytes
  }

  /** Two different byte strings with one digest. */
  predicate Collision(h: Hasher, x: seq<Byte>, y: seq<Byte>) {
    x != y && h(x) == h(y)
  }

  /** Within one domain, different messages are different hasher inputs. */
  lemma HashInputInjective(domain: seq<Byte>, a: seq<Byte>, b: seq<Byte>)
    requires HashInput(domain, a) == HashInput(domain, b)
    ensures a == b
  {
    var n := |PREFIX + domain + [0]|;
    assert a == HashInput(domain, a)[n..];
    assert b == HashInput(domain, b)[n..];
  }

  /** A ticket message and a node message are never the same hasher input. */
  lemma DomainsDisjoint(a: seq<Byte>, b: seq<Byte>)
    ensures HashInput(TICKET_DOMAIN, a) != HashInput(NODE_DOMAIN, b)
  {
    assert HashInput(TICKET_DOMAIN, a)[15] == 106;
    assert HashInput(NODE_DOMAIN, b)[15] == 109;
  }

  /** Strict lexicographic order on byte strings. */
  predicate LexLess(a: seq<Byte>, b: seq<Byte>) {
    if b == [] then false
    else if a == [] then true
    else a[0] < b[0] || (a[0] == b[0] && LexLess(a[1..], b[1..]))
  }

  lemma {:induction false} LexIrreflexive(a: seq<Byte>)
    ensures !LexLess(a, a)
  {
    if a != [] {
      LexIrreflexive(a[1..]);
    }
  }

  lemma {:induction false} LexTotal(a: seq<Byte>, b: seq<Byte>)
    ensures LexLess(a, b) || a == b || LexLess(b, a)
  {
    if a != [] && b != [] {
      LexTotal(a[1..], b[1..]);
      assert a == [a[0]] + a[1..] && b == [b[0]] + b[1..];
    }
  }

  lemma {:induction false} LexTransitive(a: seq<Byte>, b: seq<Byte>, c: seq<Byte>)
    requires LexLess(a, b) && LexLess(b, c)
    ensures LexLess(a, c)
  {
    if a != [] && a[0] == b[0] == c[0] {
      LexTransitive(a[1..], b[1..], c[1..]);
    }
  }

  /** The derived order of the digest type. */
  predicate Less(a: Digest, b: Digest) {
    LexLess(a.bytes, b.bytes)
  }

  /** The two byte strings agree up to a position, where the first has the smaller byte. */
  predicate FirstSmaller(a: seq<Byte>, b: seq<Byte>, i: nat) {
    i < |a| && i < |b| && a[..i] == b[..i] && a[i] < b[i]
  }

  /** One digest is below another: at the first byte where they differ, it has the smaller one. */
  ghost predicate Below(a: Digest, b: Digest) {
    exists i: nat :: i < 32 && FirstSmaller(a.bytes, b.bytes, i)
  }

  lemma FirstSmallerTail(a: seq<Byte>, b: seq<Byte>, i: nat)
    requires a != [] && b != [] && a[0] == b[0]
    ensures FirstSmaller(a, b, i + 1) <==> FirstSmaller(a[1..], b[1..], i)
  {
    if i < |a| - 1 && i < |b| - 1 {
      assert a[..i + 1] == [a[0]] + a[1..][..i] && b[..i + 1] == [b[0]] + b[1..][..i];
      assert a[1..][..i] == a[..i + 1][1..] && b[1..][..i] == b[..i + 1][1..];
    }
  }

  /** The lexicographic order goes by the first byte that differs. */
  lemma {:induction false} LexFirstSmaller(a: seq<Byte>, b: seq<Byte>)
    requires |a| == |b|
    ensures LexLess(a, b) <==> exists i: nat :: i < |a| && FirstSmaller(a, b, i)
    decreases |a|
  {
    if a != [] {
      if a[0] < b[0] {
        assert FirstSmaller(a, b, 0);
      } else if a[0] == b[0] {
        LexFirstSmaller(a[1..], b[1..]);
        if LexLess(a[1..], b[1..]) {
          var i: nat :| i < |a| - 1 && FirstSmaller(a[1..], b[1..], i);
          FirstSmallerTail(a, b, i);
          assert FirstSmaller(a, b, i + 1);
        }
        if i: nat :| i < |a| && FirstSmaller(a, b, i) {
          FirstSmallerTail(a, b, i - 1);
        }
      } else {
        forall i: nat | i < |a| ensures !FirstSmaller(a, b, i) {
          if i > 0 { assert a[..i][0] == a[0] && b[..i][0] == b[0]; }
        }
      }
    }
  }

  /** Which of two digests is the smaller. */
  lemma LessIsBelow(a: Digest, b: Digest)
    ensures Less(a, b) <==> Below(a, b)
  {
    LexFirstSmaller(a.bytes, b.bytes);
  }

  /** The order is strict and total, so sorting digests has one outcome. */
  lemma LessTotal(a: Digest, b: Digest)
    ensures Less(a, b) || a == b || Less(b, a)
  {
    LexTotal(a.bytes, b.bytes);
  }

  lemma LessIrreflexive(a: Digest)
    ensures !Less(a, a)
  {
    LexIrreflexive(a.bytes);
  }

  lemma LessTransitive(a: Digest, b: Digest, c: Digest)
    requires Less(a, b) && Less(b, c)
    ensures Less(a, c)
  {
    LexTransitive(a.bytes, b.bytes, c.bytes);
  }

  lemma LessAsymmetric(a: Digest, b: Digest)
    requires Less(a, b)
    ensures !Less(b, a)
  {
    if Less(b, a) {
      LessTransitive(a, b, a);
      LessIrreflexive(a);
    }
  }
}
