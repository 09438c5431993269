/** Sums over sequences. */
module Sums {

  function Sum<T>(q: seq<T>, f: T -> nat): nat {
    if q == [] then 0 else Sum(q[..|q| - 1], f) + f(q[|q| - 1])
  }

  lemma {:induction false} SumUpdate<T>(q: seq<T>, i: nat, x: T, f: T -> nat)
    requires i < |q|
    ensures Sum(q[i := x], f) + f(q[i]) == Sum(q, f) + f(x)
  {
    var n := |q| - 1;
    if i == n {
      assert q[i := x][..n] == q[..n];
    } else {
      assert q[i := x][..n] == q[..n][i := x];
      SumUpdate(q[..n], i, x, f);
    }
  }

  lemma {:induction false} SumAppend<T>(q: seq<T>, x: T, f: T -> nat)
    ensures Sum(q + [x], f) == Sum(q, f) + f(x)
  {
    assert (q + [x])[..|q|] == q;
  }

  lemma {:induction false} SumConcat<T>(p: seq<T>, q: seq<T>, f: T -> nat)
    ensures Sum(p + q, f) == Sum(p, f) + Sum(q, f)
    decreases |q|
  {
    if q == [] {
      assert p + q == p;
    } else {
      var n := |q| - 1;
      assert (p + q)[..|p| + n] == p + q[..n];
      SumConcat(p, q[..n], f);
    }
  }

  lemma {:induction false} SumMember<T>(q: seq<T>, i: nat, f: T -> nat)
    requires i < |q|
    ensures f(q[i]) <= Sum(q, f)
  {
    if i < |q| - 1 {
      SumMember(q[..|q| - 1], i, f);
    }
  }

  lemma {:induction false} SumPair<T>(q: seq<T>, i: nat, j: nat, f: T -> nat)
    requires i < j < |q|
    ensures f(q[i]) + f(q[j]) <= Sum(q, f)
  {
    var n := |q| - 1;
    if j < n {
      SumPair(q[..n], i, j, f);
    } else {
      SumMember(q[..n], i, f);
    }
  }

  lemma {:induction false} SumZero<T>(q: seq<T>, f: T -> nat)
    requires forall i :: 0 <= i < |q| ==> f(q[i]) == 0
    ensures Sum(q, f) == 0
  {
    if q != [] {
      SumZero(q[..|q| - 1], f);
    }
  }

  lemma {:induction false} SumAtMost<T>(q: seq<T>, f: T -> nat, g: T -> nat)
    requires forall i :: 0 <= i < |q| ==> f(q[i]) <= g(q[i])
    ensures Sum(q, f) <= Sum(q, g)
  {
    if q != [] {
      SumAtMost(q[..|q| - 1], f, g);
    }
  }

  /** A positive sum has a positive term. */
  lemma {:induction false} SumSource<T>(q: seq<T>, f: T -> nat) returns (k: nat)
    requires Sum(q, f) > 0
    ensures k < |q| && f(q[k]) > 0
  {
    var n := |q| - 1;
    if f(q[n]) > 0 {
      k := n;
    } else {
      k := SumSource(q[..n], f);
    }
  }
}
