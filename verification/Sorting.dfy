/** Sorting digests: the canonical arrangement the cohort tree is built from. */
module Sorting {
  import opened Bytes

  predicate Ordered(s: seq<Digest>) {
    forall i, j :: 0 <= i < j < |s| ==> !Less(s[j], s[i])
  }

  predicate StrictlyOrdered(s: seq<Digest>) {
    forall i, j :: 0 <= i < j < |s| ==> Less(s[i], s[j])
  }

  predicate Distinct<T(==)>(s: seq<T>) {
    forall i, j :: 0 <= i < j < |s| ==> s[i] != s[j]
  }

  /** Where `x` goes in an ordered sequence: before the first element that is not below it. */
  function Insert(x: Digest, s: seq<Digest>): (r: seq<Digest>)
    ensures multiset(r) == multiset(s) + multiset{x}
  {
    if s == [] then [x]
    else if Less(s[0], x) then
      assert s == [s[0]] + s[1..];
      [s[0]] + Insert(x, s[1..])
    else [x] + s
  }

  lemma {:induction false} InsertOrdered(x: Digest, s: seq<Digest>)
    requires Ordered(s)
    ensures Ordered(Insert(x, s))
  {
    if s != [] && Less(s[0], x) {
      var t := Insert(x, s[1..]);
      InsertOrdered(x, s[1..]);
      forall i | 0 <= i < |t|
        ensures !Less(t[i], s[0])
      {
        assert t[i] in multiset(t);
        if t[i] == x { LessAsymmetric(s[0], x); } else { assert t[i] in s[1..]; }
      }
    } else {
      forall i | 0 <= i < |s|
        ensures !Less(s[i], x)
      {
        LessTotal(s[0], x);
        if Less(s[i], x) && x != s[0] { LessTransitive(s[i], x, s[0]); }
      }
    }
  }

  /** `sort_unstable` on digests; equal digests are interchangeable, so stability is moot. */
  function Sort(s: seq<Digest>): (r: seq<Digest>)
    ensures |r| == |s|
  {
    if s == [] then []
    else
      var r := Insert(s[|s| - 1], Sort(s[..|s| - 1]));
      assert |r| == |multiset(r)|;
      r
  }

  lemma LastOut<T>(s: seq<T>)
    requires s != []
    ensures multiset(s) == multiset(s[..|s| - 1]) + multiset{s[|s| - 1]}
  {
    assert s == s[..|s| - 1] + [s[|s| - 1]];
  }

  /** Sorting rearranges its input into ascending order. */
  lemma {:induction false} SortSorts(s: seq<Digest>)
    ensures Ordered(Sort(s))
    ensures multiset(Sort(s)) == multiset(s)
  {
    if s != [] {
      var front, last := s[..|s| - 1], s[|s| - 1];
      SortSorts(front);
      InsertOrdered(last, Sort(front));
      LastOut(s);
    }
  }

  lemma SameMembers<T>(s: seq<T>, t: seq<T>, x: T)
    requires multiset(s) == multiset(t)
    ensures x in s <==> x in t
  {
    assert x in s <==> x in multiset(s);
    assert x in t <==> x in multiset(t);
  }

  /** Each element stands in a given relation to all that follow it. */
  ghost predicate ArrangedBy<T(!new)>(leq: (T, T) -> bool, s: seq<T>) {
    forall i, j :: 0 <= i < j < |s| ==> leq(s[i], s[j])
  }

  lemma HeadFirst<T(!new)>(leq: (T, T) -> bool, s: seq<T>, x: T)
    requires ArrangedBy(leq, s) && x in multiset(s)
    ensures s != [] && (s[0] == x || leq(s[0], x))
  {
    var i :| 0 <= i < |s| && s[i] == x;
  }

  lemma TailOf<T(!new)>(leq: (T, T) -> bool, s: seq<T>)
    requires ArrangedBy(leq, s) && s != []
    ensures ArrangedBy(leq, s[1..])
    ensures s[0] in multiset(s) && multiset(s[1..]) == multiset(s) - multiset{s[0]}
  {
    assert s == [s[0]] + s[1..];
  }

  lemma SameHeadAndTail<T>(s: seq<T>, t: seq<T>)
    requires s != [] && t != [] && s[0] == t[0] && s[1..] == t[1..]
    ensures s == t
  {
    assert s == [s[0]] + s[1..] && t == [t[0]] + t[1..];
  }

  lemma SameSize<T>(s: seq<T>, t: seq<T>)
    requires multiset(s) == multiset(t)
    ensures |s| == |t|
  {
    assert |s| == |multiset(s)| == |multiset(t)| == |t|;
  }

  /** A multiset has one arrangement by an antisymmetric relation. */
  lemma {:induction false} ArrangedUnique<T(!new)>(leq: (T, T) -> bool, s: seq<T>, t: seq<T>)
    requires forall x, y :: leq(x, y) && leq(y, x) ==> x == y
    requires ArrangedBy(leq, s) && ArrangedBy(leq, t) && multiset(s) == multiset(t)
    ensures s == t
    decreases |s|
  {
    SameSize(s, t);
    if s != [] {
      TailOf(leq, s);
      TailOf(leq, t);
      HeadFirst(leq, s, t[0]);
      HeadFirst(leq, t, s[0]);
      ArrangedUnique(leq, s[1..], t[1..]);
      SameHeadAndTail(s, t);
    }
  }

  /** An ordered arrangement of a multiset of digests is unique. */
  lemma OrderedUnique(s: seq<Digest>, t: seq<Digest>)
    requires Ordered(s) && Ordered(t) && multiset(s) == multiset(t)
    ensures s == t
  {
    var leq := (x: Digest, y: Digest) => !Less(y, x);
    forall x, y | leq(x, y) && leq(y, x) ensures x == y { LessTotal(x, y); }
    ArrangedUnique(leq, s, t);
  }

  /** The order in which leaves arrive does not matter. */
  lemma SortCanonical(s: seq<Digest>, t: seq<Digest>)
    requires multiset(s) == multiset(t)
    ensures Sort(s) == Sort(t)
  {
    SortSorts(s);
    SortSorts(t);
    OrderedUnique(Sort(s), Sort(t));
  }

  lemma {:induction false} DistinctOnce<T>(s: seq<T>)
    requires Distinct(s)
    ensures forall x :: x in s ==> multiset(s)[x] == 1
  {
    if s != [] {
      var rest := s[1..];
      assert s == [s[0]] + rest;
      DistinctOnce(rest);
      assert s[0] !in rest;
    }
  }

  lemma OnceDistinct<T>(s: seq<T>)
    requires forall x :: x in s ==> multiset(s)[x] == 1
    ensures Distinct(s)
  {
    forall i, j | 0 <= i < j < |s|
      ensures s[i] != s[j]
    {
      var before, after := s[..j], s[j..];
      assert s == before + after;
      assert before[i] in before && after[0] in after;
      assert multiset(before)[s[i]] >= 1 && multiset(after)[s[j]] >= 1;
      assert s[i] in s && multiset(s)[s[i]] == 1;
    }
  }

  lemma DistinctPermutation<T>(s: seq<T>, t: seq<T>)
    requires multiset(s) == multiset(t)
    ensures Distinct(s) <==> Distinct(t)
  {
    forall x ensures x in s <==> x in t { SameMembers(s, t, x); }
    if Distinct(s) { DistinctOnce(s); OnceDistinct(t); }
    if Distinct(t) { DistinctOnce(t); OnceDistinct(s); }
  }

  /** No two neighbours equal: what the duplicate scan over adjacent pairs establishes. */
  predicate AdjacentDistinct(s: seq<Digest>) {
    forall i :: 0 <= i < |s| - 1 ==> s[i] != s[i + 1]
  }

  /** On an ordered sequence the adjacent scan finds every duplicate. */
  lemma AdjacentScanComplete(s: seq<Digest>)
    requires Ordered(s)
    ensures AdjacentDistinct(s) <==> Distinct(s)
    ensures Distinct(s) <==> StrictlyOrdered(s)
  {
    if AdjacentDistinct(s) {
      forall i, j | 0 <= i < j < |s|
        ensures Less(s[i], s[j])
      {
        NeighboursAscend(s, i, j);
      }
    }
    if StrictlyOrdered(s) {
      forall i, j | 0 <= i < j < |s| ensures s[i] != s[j] { LessIrreflexive(s[i]); }
    }
  }

  lemma {:induction false} NeighboursAscend(s: seq<Digest>, i: nat, j: nat)
    requires Ordered(s) && AdjacentDistinct(s) && i < j < |s|
    ensures Less(s[i], s[j])
    decreases j - i
  {
    LessTotal(s[j - 1], s[j]);
    assert s[j - 1] != s[j - 1 + 1];
    if i < j - 1 {
      NeighboursAscend(s, i, j - 1);
      LessTransitive(s[i], s[j - 1], s[j]);
    }
  }

  /** Sorting distinct digests gives a strictly ascending list with the same members. */
  lemma SortDistinct(s: seq<Digest>)
    ensures Distinct(s) <==> StrictlyOrdered(Sort(s))
    ensures forall x :: x in s <==> x in Sort(s)
  {
    SortSorts(s);
    DistinctPermutation(s, Sort(s));
    AdjacentScanComplete(Sort(s));
    forall x ensures x in s <==> x in Sort(s) { SameMembers(s, Sort(s), x); }
  }

  lemma {:induction false} DistinctSize(s: seq<Digest>)
    requires Distinct(s)
    ensures |set x | x in s| == |s|
  {
    if s != [] {
      var rest := s[1..];
      DistinctSize(rest);
      assert s == [s[0]] + rest;
      assert (set x | x in s) == (set x | x in rest) + {s[0]};
    }
  }

  /** In an ascending list, the elements below one of them are those before it. */
  lemma ElementsBelow(s: seq<Digest>, k: nat)
    requires StrictlyOrdered(s) && k < |s|
    ensures (set x | x in s && Less(x, s[k])) == (set x | x in s[..k])
  {
    forall x | x in s && Less(x, s[k]) ensures x in s[..k] {
      var i :| 0 <= i < |s| && s[i] == x;
      if i == k { LessIrreflexive(x); }
      if i > k { LessAsymmetric(s[k], s[i]); }
      assert x == s[..k][i];
    }
    forall x | x in s[..k] ensures x in s && Less(x, s[k]) {
      var i :| 0 <= i < k && s[..k][i] == x;
      assert s[i] == x;
    }
  }

  /** A position in an ascending list is the number of elements below the one there. */
  lemma PositionCounts(s: seq<Digest>, k: nat)
    requires StrictlyOrdered(s) && k < |s|
    ensures |set x | x in s && Less(x, s[k])| == k
  {
    ElementsBelow(s, k);
    forall i, j | 0 <= i < j < k ensures s[..k][i] != s[..k][j] { LessIrreflexive(s[i]); }
    DistinctSize(s[..k]);
  }
}
