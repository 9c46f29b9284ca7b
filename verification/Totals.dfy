/** Weighted totals over a sequence: the counting vocabulary of the state machines. */
module Totals {

  function Total<T>(xs: seq<T>, w: T -> nat): nat {
    TotalOfFirst(xs, w, |xs|)
  }

  /** Total weight of the first `n` elements. */
  function TotalOfFirst<T>(xs: seq<T>, w: T -> nat, n: nat): nat
    requires n <= |xs|
  {
    if n == 0 then 0 else TotalOfFirst(xs, w, n - 1) + w(xs[n - 1])
  }

  lemma {:induction false} UpdateOfFirst<T>(xs: seq<T>, i: nat, x: T, w: T -> nat, n: nat)
    requires i < |xs| && n <= |xs|
    ensures i < n ==> TotalOfFirst(xs[i := x], w, n) + w(xs[i]) == TotalOfFirst(xs, w, n) + w(x)
    ensures n <= i ==> TotalOfFirst(xs[i := x], w, n) == TotalOfFirst(xs, w, n)
  {
    if n == 0 {
    } else {
      UpdateOfFirst(xs, i, x, w, n - 1);
    }
  }

  /** Replacing one element changes the total by the difference of the two weights. */
  lemma TotalUpdate<T>(xs: seq<T>, i: nat, x: T, w: T -> nat)
    requires i < |xs|
    ensures Total(xs[i := x], w) + w(xs[i]) == Total(xs, w) + w(x)
  {
    UpdateOfFirst(xs, i, x, w, |xs|);
  }

  lemma TotalAtLeast<T>(xs: seq<T>, i: nat, w: T -> nat)
    requires i < |xs|
    ensures Total(xs, w) >= w(xs[i])
  {
    FirstAtLeast(xs, i, w, |xs|);
  }

  lemma {:induction false} FirstAtLeast<T>(xs: seq<T>, i: nat, w: T -> nat, n: nat)
    requires i < n <= |xs|
    ensures TotalOfFirst(xs, w, n) >= w(xs[i])
  {
    if i < n - 1 {
      FirstAtLeast(xs, i, w, n - 1);
    }
  }

  lemma TotalZero<T>(xs: seq<T>, w: T -> nat)
    requires forall i :: 0 <= i < |xs| ==> w(xs[i]) == 0
    ensures Total(xs, w) == 0
  {
    TotalOfEqual(xs, w, 0);
  }

  lemma TotalOfEqual<T>(xs: seq<T>, w: T -> nat, k: nat)
    requires forall i :: 0 <= i < |xs| ==> w(xs[i]) == k
    ensures Total(xs, w) == k * |xs|
  {
    FirstOfEqual(xs, w, k, |xs|);
  }

  lemma {:induction false} FirstOfEqual<T>(xs: seq<T>, w: T -> nat, k: nat, n: nat)
    requires n <= |xs| && forall i :: 0 <= i < |xs| ==> w(xs[i]) == k
    ensures TotalOfFirst(xs, w, n) == k * n
  {
    if n == 0 {
    } else {
      FirstOfEqual(xs, w, k, n - 1);
      assert k * n == k * (n - 1) + k;
    }
  }

  /** Marks of at most one each: the total is at most the length, and falls short of it
      as soon as one element is unmarked. */
  lemma TotalOfMarks<T>(xs: seq<T>, w: T -> nat)
    requires forall i :: 0 <= i < |xs| ==> w(xs[i]) <= 1
    ensures Total(xs, w) <= |xs|
    ensures Total(xs, w) == |xs| <==> forall i :: 0 <= i < |xs| ==> w(xs[i]) == 1
  {
    FirstOfMarks(xs, w, |xs|);
  }

  lemma {:induction false} FirstOfMarks<T>(xs: seq<T>, w: T -> nat, n: nat)
    requires n <= |xs| && forall i :: 0 <= i < |xs| ==> w(xs[i]) <= 1
    ensures TotalOfFirst(xs, w, n) <= n
    ensures TotalOfFirst(xs, w, n) == n <==> forall i :: 0 <= i < n ==> w(xs[i]) == 1
  {
    if n == 0 {
    } else {
      FirstOfMarks(xs, w, n - 1);
    }
  }
}
