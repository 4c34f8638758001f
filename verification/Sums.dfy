/** Weighted sums over a sequence, the tool behind every counting argument in this project. */
module Sums {

  function Sum<T>(xs: seq<T>, w: T -> int): int {
    if xs == [] then 0 else Sum(xs[..|xs| - 1], w) + w(xs[|xs| - 1])
  }

  /** Replacing one element changes the sum by the difference of the two weights. */
  lemma {:induction false} SumUpdate<T>(xs: seq<T>, w: T -> int, k: nat, x: T)
    requires k < |xs|
    ensures Sum(xs[k := x], w) == Sum(xs, w) - w(xs[k]) + w(x)
  {
    var last := |xs| - 1;
    if k == last {
      assert xs[k := x][..last] == xs[..last];
    } else {
      SumUpdate(xs[..last], w, k, x);
      assert xs[k := x][..last] == xs[..last][k := x];
    }
  }

  lemma SumAppend<T>(xs: seq<T>, w: T -> int, x: T)
    ensures Sum(xs + [x], w) == Sum(xs, w) + w(x)
  {
    assert (xs + [x])[..|xs|] == xs;
  }

  /** Pointwise order carries over to sums. */
  lemma {:induction false} SumMonotone<T>(xs: seq<T>, v: T -> int, w: T -> int)
    requires forall k :: 0 <= k < |xs| ==> v(xs[k]) <= w(xs[k])
    ensures Sum(xs, v) <= Sum(xs, w)
  {
    if xs != [] {
      SumMonotone(xs[..|xs| - 1], v, w);
    }
  }

  lemma {:induction false} SumConstant<T>(xs: seq<T>, w: T -> int, c: int)
    requires forall k :: 0 <= k < |xs| ==> w(xs[k]) == c
    ensures Sum(xs, w) == |xs| * c
  {
    if xs != [] {
      SumConstant(xs[..|xs| - 1], w, c);
      assert |xs| * c == (|xs| - 1) * c + c;
    }
  }

  /** A sum of non-negative weights dominates any one of them. */
  lemma {:induction false} SumAtLeast<T>(xs: seq<T>, w: T -> int, k: nat)
    requires k < |xs|
    requires forall i :: 0 <= i < |xs| ==> w(xs[i]) >= 0
    ensures w(xs[k]) <= Sum(xs, w)
  {
    SumNonNegative(xs[..|xs| - 1], w);
    if k < |xs| - 1 {
      SumAtLeast(xs[..|xs| - 1], w, k);
    }
  }

  lemma {:induction false} SumNonNegative<T>(xs: seq<T>, w: T -> int)
    requires forall i :: 0 <= i < |xs| ==> w(xs[i]) >= 0
    ensures Sum(xs, w) >= 0
  {
    if xs != [] {
      SumNonNegative(xs[..|xs| - 1], w);
    }
  }

  /** ... and any two of them. */
  lemma {:induction false} SumAtLeastTwo<T>(xs: seq<T>, w: T -> int, j: nat, k: nat)
    requires j < k < |xs|
    requires forall i :: 0 <= i < |xs| ==> w(xs[i]) >= 0
    ensures w(xs[j]) + w(xs[k]) <= Sum(xs, w)
  {
    if k == |xs| - 1 {
      SumAtLeast(xs[..k], w, j);
    } else {
      SumAtLeastTwo(xs[..|xs| - 1], w, j, k);
    }
  }

  /** A sum that reaches the bound reaches it in every element. */
  lemma {:induction false} SumTight<T>(xs: seq<T>, w: T -> int, c: int)
    requires forall k :: 0 <= k < |xs| ==> w(xs[k]) <= c
    ensures Sum(xs, w) <= |xs| * c
    ensures Sum(xs, w) == |xs| * c ==> forall k :: 0 <= k < |xs| ==> w(xs[k]) == c
  {
    if xs != [] {
      SumTight(xs[..|xs| - 1], w, c);
      assert |xs| * c == (|xs| - 1) * c + c;
      assert forall k :: 0 <= k < |xs| - 1 ==> xs[k] == xs[..|xs| - 1][k];
    }
  }

  /** All elements but one weigh at most c, and exactly c if equality is wanted. */
  lemma {:induction false} SumOthers<T>(xs: seq<T>, w: T -> int, j: nat, c: int)
    requires j < |xs| && forall k :: 0 <= k < |xs| && k != j ==> w(xs[k]) <= c
    ensures Sum(xs, w) <= (|xs| - 1) * c + w(xs[j])
    ensures (forall k :: 0 <= k < |xs| && k != j ==> w(xs[k]) == c) ==> Sum(xs, w) == (|xs| - 1) * c + w(xs[j])
  {
    var n := |xs| - 1;
    if j == n {
      SumTight(xs[..n], w, c);
      if forall k :: 0 <= k < n ==> w(xs[k]) == c {
        SumConstant(xs[..n], w, c);
      }
    } else {
      SumOthers(xs[..n], w, j, c);
      assert n * c == (n - 1) * c + c;
    }
  }

  lemma {:induction false} SumAdd<T>(xs: seq<T>, u: T -> int, v: T -> int, w: T -> int)
    requires forall k :: 0 <= k < |xs| ==> u(xs[k]) + v(xs[k]) == w(xs[k])
    ensures Sum(xs, u) + Sum(xs, v) == Sum(xs, w)
  {
    if xs != [] {
      SumAdd(xs[..|xs| - 1], u, v, w);
    }
  }
}
