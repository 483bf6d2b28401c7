/**
 Generic sequence vocabulary shared by the ledger and the report: the optional
 value JavaScript expresses as `undefined`, order-preserving filtering (the
 model of `Array.prototype.filter`), first-match search (`Array.prototype.find`)
 and duplicate-freedom.
 */
module Seqs {

  /** A value that may be absent, as `find` returns `undefined` on no match. */
  datatype Option<T> = None | Some(value: T)

  /** The set of elements of a sequence. */
  function Elems<T>(xs: seq<T>): set<T>
  {
    set x | x in xs
  }

  /** Only the empty sequence has no elements. */
  lemma ElemsEmpty<T>(xs: seq<T>)
    ensures Elems(xs) == {} <==> xs == []
  {
    if xs != [] {
      assert xs[0] in Elems(xs);
    }
  }

  /** `sub` is obtained from `xs` by deleting elements and keeping the order of the rest. */
  predicate IsSubseq<T(==)>(sub: seq<T>, xs: seq<T>)
    decreases |xs|
  {
    if sub == [] then true
    else if xs == [] then false
    else (sub[0] == xs[0] && IsSubseq(sub[1..], xs[1..])) || IsSubseq(sub, xs[1..])
  }

  /** `xs.map(f)`: `f` applied to every element, in order. */
  function Map<T, U>(xs: seq<T>, f: T -> U): (r: seq<U>)
    ensures |r| == |xs|
    ensures forall i :: 0 <= i < |xs| ==> r[i] == f(xs[i])
  {
    seq(|xs|, i requires 0 <= i < |xs| => f(xs[i]))
  }

  /** Every sequence is a subsequence of itself. */
  lemma {:induction false} SubseqRefl<T>(xs: seq<T>)
    ensures IsSubseq(xs, xs)
  {
    if xs != [] {
      SubseqRefl(xs[1..]);
    }
  }

  /** No element occurs twice. */
  predicate NoDups<T(==)>(xs: seq<T>)
  {
    forall i, j :: 0 <= i < j < |xs| ==> xs[i] != xs[j]
  }

  /** A duplicate-free sequence has no element with multiplicity above one. */
  lemma {:induction false} NoDupsMultiplicity<T>(xs: seq<T>)
    requires NoDups(xs)
    ensures forall x :: multiset(xs)[x] <= 1
  {
    if xs != [] {
      NoDupsMultiplicity(xs[1..]);
      assert xs == [xs[0]] + xs[1..];
      assert xs[0] !in xs[1..];
    }
  }

  /** A sequence with no element of multiplicity above one is duplicate-free. */
  lemma MultiplicityNoDups<T>(xs: seq<T>)
    requires forall x :: multiset(xs)[x] <= 1
    ensures NoDups(xs)
  {
    forall i, j | 0 <= i < j < |xs|
      ensures xs[i] != xs[j]
    {
      RepeatedMultiplicity(xs, i, j);
    }
  }

  /** An element found at two positions occurs at least twice. */
  lemma RepeatedMultiplicity<T>(xs: seq<T>, i: nat, j: nat)
    requires i < j < |xs|
    ensures xs[i] == xs[j] ==> multiset(xs)[xs[i]] >= 2
  {
    assert xs == xs[..j] + xs[j..];
    assert xs[i] in xs[..j] && xs[j] in xs[j..];
  }

  /** A sequence of length three is the display of its three elements. */
  lemma SeqOfThree<T>(xs: seq<T>, x: T, y: T, z: T)
    requires |xs| == 3 && xs[0] == x && xs[1] == y && xs[2] == z
    ensures xs == [x, y, z]
  {
  }

  /**
   The elements of `xs` that satisfy `p`, in their original order and with
   their original multiplicity.
   */
  function Filter<T(==)>(xs: seq<T>, p: T -> bool): (r: seq<T>)
    ensures forall x :: x in r ==> x in xs && p(x)
    ensures forall i :: 0 <= i < |xs| && p(xs[i]) ==> multiset(r)[xs[i]] == multiset(xs)[xs[i]]
    ensures |r| <= |xs|
  {
    if xs == [] then []
    else
      assert xs == [xs[0]] + xs[1..];
      if p(xs[0]) then [xs[0]] + Filter(xs[1..], p)
      else Filter(xs[1..], p)
  }

  /** A filter keeps the order of what it keeps: its result is a subsequence of its input. */
  lemma {:induction false} FilterSubseq<T>(xs: seq<T>, p: T -> bool)
    ensures IsSubseq(Filter(xs, p), xs)
  {
    if xs != [] {
      FilterSubseq(xs[1..], p);
    }
  }

  /** Filtering distributes over concatenation, so it keeps relative order. */
  lemma {:induction false} FilterAppend<T>(xs: seq<T>, ys: seq<T>, p: T -> bool)
    ensures Filter(xs + ys, p) == Filter(xs, p) + Filter(ys, p)
  {
    if xs == [] {
      assert xs + ys == ys;
    } else {
      assert (xs + ys)[1..] == xs[1..] + ys;
      FilterAppend(xs[1..], ys, p);
    }
  }

  /** Filtering a sequence extended by one element. */
  lemma FilterSnoc<T>(xs: seq<T>, x: T, p: T -> bool)
    ensures Filter(xs + [x], p) == if p(x) then Filter(xs, p) + [x] else Filter(xs, p)
  {
    FilterAppend(xs, [x], p);
    assert Filter([x], p) == if p(x) then [x] else [] by {
      assert [x][1..] == [];
    }
  }

  /** A filter that no element passes returns nothing. */
  lemma {:induction false} FilterNone<T>(xs: seq<T>, p: T -> bool)
    requires forall i :: 0 <= i < |xs| ==> !p(xs[i])
    ensures Filter(xs, p) == []
  {
    if xs != [] {
      FilterNone(xs[1..], p);
    }
  }

  /** A filter that every element passes returns its input. */
  lemma {:induction false} FilterAll<T>(xs: seq<T>, p: T -> bool)
    requires forall i :: 0 <= i < |xs| ==> p(xs[i])
    ensures Filter(xs, p) == xs
  {
    if xs != [] {
      FilterAll(xs[1..], p);
    }
  }

  /** Index `k` holds the first occurrence of `x` in `xs`, the one `find` returns. */
  predicate FirstAt<T(==)>(xs: seq<T>, x: T, k: int)
  {
    0 <= k < |xs| && xs[k] == x && forall j :: 0 <= j < k ==> xs[j] != x
  }

  /**
   The index of the first occurrence of `x` in `xs`, or `None` when `x` does
   not occur.
   */
  function FirstIndex<T(==)>(xs: seq<T>, x: T): (r: Option<nat>)
    ensures r.None? <==> x !in xs
    ensures r.Some? ==> r.value < |xs| && xs[r.value] == x && x !in xs[..r.value]
  {
    if xs == [] then None
    else if xs[0] == x then Some(0)
    else
      match FirstIndex(xs[1..], x)
      case None => None
      case Some(k) =>
        assert xs[..k + 1] == [xs[0]] + xs[1..][..k];
        Some(k + 1)
  }

  /** A duplicate-free sequence has as many elements as its element set. */
  lemma {:induction false} NoDupsCard<T>(xs: seq<T>)
    requires NoDups(xs)
    ensures |Elems(xs)| == |xs|
  {
    if xs != [] {
      NoDupsCard(xs[1..]);
      assert Elems(xs) == {xs[0]} + Elems(xs[1..]);
      assert xs[0] !in Elems(xs[1..]);
    }
  }
}
