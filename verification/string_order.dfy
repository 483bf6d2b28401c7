/**
 The order `Array.prototype.sort` uses when it is given no comparator:
 strings compared character by character, a proper prefix before any of its
 extensions. The module proves it is a strict total order, defines an
 insertion sort over it, and shows that a duplicate-free collection has
 exactly one strictly ascending arrangement, so any correct sort of the same
 elements yields the same sequence.
 */
module StringOrder {
  import opened Seqs

  /** `a` sorts strictly before `b`. */
  predicate Less(a: string, b: string)
    decreases |a|
  {
    if a == [] then b != []
    else if b == [] then false
    else a[0] < b[0] || (a[0] == b[0] && Less(a[1..], b[1..]))
  }

  /** `a` sorts before `b` or equals it. */
  predicate LessEq(a: string, b: string)
  {
    a == b || Less(a, b)
  }

  lemma {:induction false} LessIrreflexive(a: string)
    ensures !Less(a, a)
  {
    if a != [] {
      LessIrreflexive(a[1..]);
    }
  }

  lemma {:induction false} LessTransitive(a: string, b: string, c: string)
    requires Less(a, b) && Less(b, c)
    ensures Less(a, c)
    decreases |a|
  {
    if a != [] && a[0] == b[0] && b[0] == c[0] {
      LessTransitive(a[1..], b[1..], c[1..]);
    }
  }

  /** Any two different strings are ordered one way or the other. */
  lemma {:induction false} LessTotal(a: string, b: string)
    ensures a == b || Less(a, b) || Less(b, a)
    decreases |a|
  {
    if a != [] && b != [] && a[0] == b[0] {
      LessTotal(a[1..], b[1..]);
      if a[1..] == b[1..] {
        assert a == [a[0]] + a[1..] && b == [b[0]] + b[1..];
      }
    }
  }

  lemma LessAsymmetric(a: string, b: string)
    requires Less(a, b)
    ensures !Less(b, a)
  {
    if Less(b, a) {
      LessTransitive(a, b, a);
      LessIrreflexive(a);
    }
  }

  /** Every pair of positions is in non-decreasing order. */
  predicate Ascending(xs: seq<string>)
  {
    forall i, j :: 0 <= i < j < |xs| ==> LessEq(xs[i], xs[j])
  }

  /** Every pair of positions is in increasing order; no element repeats. */
  predicate StrictlyAscending(xs: seq<string>)
  {
    forall i, j :: 0 <= i < j < |xs| ==> Less(xs[i], xs[j])
  }

  /** `x` placed into the ascending sequence `xs` before the first element not below it. */
  function Insert(x: string, xs: seq<string>): (r: seq<string>)
    requires Ascending(xs)
    ensures Ascending(r)
    ensures multiset(r) == multiset(xs) + multiset{x}
  {
    if xs == [] then [x]
    else if LessEq(x, xs[0]) then
      assert forall j :: 0 < j < |xs| ==> LessEq(x, xs[j]) by {
        forall j | 0 < j < |xs|
          ensures LessEq(x, xs[j])
        {
          if x != xs[0] && xs[0] != xs[j] {
            LessTransitive(x, xs[0], xs[j]);
          }
        }
      }
      [x] + xs
    else
      LessTotal(x, xs[0]);
      var rest := Insert(x, xs[1..]);
      assert xs == [xs[0]] + xs[1..];
      assert forall j :: 0 <= j < |rest| ==> LessEq(xs[0], rest[j]) by {
        forall j | 0 <= j < |rest|
          ensures LessEq(xs[0], rest[j])
        {
          assert rest[j] in multiset(rest);
          if rest[j] != x {
            assert rest[j] in xs[1..];
          }
        }
      }
      [xs[0]] + rest
  }

  /** Insertion sort: an ascending permutation of `xs`. */
  function Sort(xs: seq<string>): (r: seq<string>)
    ensures Ascending(r)
    ensures multiset(r) == multiset(xs)
  {
    if xs == [] then []
    else
      assert xs == [xs[0]] + xs[1..];
      Insert(xs[0], Sort(xs[1..]))
  }

  /** Sorting duplicate-free strings yields a strictly ascending sequence. */
  lemma SortDistinct(xs: seq<string>)
    requires NoDups(xs)
    ensures StrictlyAscending(Sort(xs))
  {
    var r := Sort(xs);
    NoDupsMultiplicity(xs);
    MultiplicityNoDups(r);
  }

  /**
   Two strictly ascending sequences with the same elements are equal: the
   sorted arrangement of a set of distinct strings is unique.
   */
  lemma {:induction false} StrictlyAscendingUnique(a: seq<string>, b: seq<string>)
    requires StrictlyAscending(a) && StrictlyAscending(b)
    requires Elems(a) == Elems(b)
    ensures a == b
  {
    ElemsEmpty(a);
    ElemsEmpty(b);
    if a != [] && b != [] {
      assert a[0] in Elems(b) && b[0] in Elems(a);
      if a[0] != b[0] {
        var i :| 0 <= i < |a| && a[i] == b[0];
        var j :| 0 <= j < |b| && b[j] == a[0];
        LessAsymmetric(a[0], b[0]);
        assert false;
      }
      forall k | 0 < k < |a|
        ensures a[k] != a[0]
      {
        LessIrreflexive(a[0]);
      }
      forall k | 0 < k < |b|
        ensures b[k] != b[0]
      {
        LessIrreflexive(b[0]);
      }
      assert Elems(a[1..]) == Elems(a) - {a[0]};
      assert Elems(b[1..]) == Elems(b) - {b[0]};
      StrictlyAscendingUnique(a[1..], b[1..]);
      assert a == [a[0]] + a[1..] && b == [b[0]] + b[1..];
    }
  }
}
