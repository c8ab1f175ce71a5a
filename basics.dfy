/**
 * Small generic helpers shared by the dashboard model: an Option type,
 * counting the elements of a sequence that satisfy a predicate (a boolean
 * mask's `.sum()`), and the "order-preserving subsequence" relation that every
 * row filter of the dashboard satisfies.
 */
module Basics {

  datatype Option<+T> = None | Some(value: T)

  /** Number of elements of `xs` for which `p` holds. */
  function Count<T>(xs: seq<T>, p: T -> bool): (n: nat)
    ensures n <= |xs|
    ensures n == 0 <==> forall i :: 0 <= i < |xs| ==> !p(xs[i])
  {
    if xs == [] then 0 else (if p(xs[0]) then 1 else 0) + Count(xs[1..], p)
  }

  /** A count grows with its predicate: if `p` implies `q` on every element, fewer satisfy `p`. */
  lemma {:induction false} CountMonotone<T>(xs: seq<T>, p: T -> bool, q: T -> bool)
    requires forall i :: 0 <= i < |xs| && p(xs[i]) ==> q(xs[i])
    ensures Count(xs, p) <= Count(xs, q)
  {
    if xs != [] {
      CountMonotone(xs[1..], p, q);
    }
  }

  /**
   * `xs` is obtained from `ys` by deleting elements, without reordering the
   * ones that remain.
   */
  ghost predicate SubsequenceOf<T>(xs: seq<T>, ys: seq<T>)
    decreases |ys|
  {
    if ys == [] then xs == []
    else (xs != [] && xs[0] == ys[0] && SubsequenceOf(xs[1..], ys[1..])) || SubsequenceOf(xs, ys[1..])
  }

  /** A subsequence is no longer than the sequence and has no element the sequence lacks. */
  lemma {:induction false} SubsequenceBounds<T>(xs: seq<T>, ys: seq<T>)
    requires SubsequenceOf(xs, ys)
    ensures |xs| <= |ys|
    ensures forall x :: x in xs ==> x in ys
    decreases |ys|
  {
    if ys != [] {
      if xs != [] && xs[0] == ys[0] && SubsequenceOf(xs[1..], ys[1..]) {
        SubsequenceBounds(xs[1..], ys[1..]);
        assert forall x :: x in xs ==> x == xs[0] || x in xs[1..];
      } else {
        SubsequenceBounds(xs, ys[1..]);
      }
    }
  }

  /** Every sequence is a subsequence of itself. */
  lemma {:induction false} SubsequenceReflexive<T>(xs: seq<T>)
    ensures SubsequenceOf(xs, xs)
    decreases |xs|
  {
    if xs != [] {
      SubsequenceReflexive(xs[1..]);
    }
  }

  /** The subsequence relation composes: a subsequence of a subsequence is a subsequence. */
  lemma {:induction false} SubsequenceTransitive<T>(xs: seq<T>, ys: seq<T>, zs: seq<T>)
    requires SubsequenceOf(xs, ys) && SubsequenceOf(ys, zs)
    ensures SubsequenceOf(xs, zs)
    decreases |zs|, |ys|
  {
    if zs == [] {
    } else if ys != [] && ys[0] == zs[0] && SubsequenceOf(ys[1..], zs[1..]) {
      if xs != [] && xs[0] == ys[0] && SubsequenceOf(xs[1..], ys[1..]) {
        SubsequenceTransitive(xs[1..], ys[1..], zs[1..]);
      } else {
        SubsequenceTransitive(xs, ys[1..], zs[1..]);
      }
    } else {
      SubsequenceTransitive(xs, ys, zs[1..]);
    }
  }
}
