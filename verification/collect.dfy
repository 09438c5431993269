/** Multiset bookkeeping for queues of owners. */
module Collect {
  import opened Machine

  /** The ids contributed by all elements of a queue. */
  function Gather<T>(q: seq<T>, f: T -> multiset<nat>): multiset<nat> {
    if q == [] then multiset{} else Gather(q[..|q| - 1], f) + f(q[|q| - 1])
  }

  lemma {:induction false} GatherAppend<T>(q: seq<T>, x: T, f: T -> multiset<nat>)
    ensures Gather(q + [x], f) == Gather(q, f) + f(x)
  {
    assert (q + [x])[..|q|] == q;
  }

  lemma {:induction false} GatherUpdate<T>(q: seq<T>, i: nat, x: T, f: T -> multiset<nat>)
    requires i < |q|
    ensures Gather(q[i := x], f) + f(q[i]) == Gather(q, f) + f(x)
  {
    var n := |q| - 1;
    var p := q[..n];
    if i == n {
      assert q[i := x][..n] == p;
      Exchange(Gather(p, f), f(x), f(q[i]));
    } else {
      assert q[i := x][..n] == p[i := x];
      GatherUpdate(p, i, x, f);
      Exchange(Gather(p[i := x], f), f(q[n]), f(q[i]));
      Exchange(Gather(p, f), f(q[n]), f(x));
    }
  }

  lemma Exchange(a: multiset<nat>, b: multiset<nat>, c: multiset<nat>)
    ensures a + b + c == a + c + b
  {
  }

  lemma {:induction false} GatherMember<T>(q: seq<T>, i: nat, f: T -> multiset<nat>)
    requires i < |q|
    ensures f(q[i]) <= Gather(q, f)
  {
    if i < |q| - 1 {
      GatherMember(q[..|q| - 1], i, f);
    }
  }

  /** Every gathered id comes from some element. */
  lemma {:induction false} GatherSource<T>(q: seq<T>, x: nat, f: T -> multiset<nat>) returns (k: nat)
    requires x in Gather(q, f)
    ensures k < |q| && x in f(q[k])
  {
    var n := |q| - 1;
    if x in f(q[n]) {
      k := n;
    } else {
      k := GatherSource(q[..n], x, f);
    }
  }

  lemma {:induction false} GatherPair<T>(q: seq<T>, i: nat, j: nat, f: T -> multiset<nat>)
    requires i < j < |q|
    ensures f(q[i]) + f(q[j]) <= Gather(q, f)
  {
    var n := |q| - 1;
    if j < n {
      GatherPair(q[..n], i, j, f);
    } else {
      GatherMember(q[..n], i, f);
    }
  }

  /** Removes position k by moving the last element into it. */
  function SwapRemove<T>(q: seq<T>, k: nat): seq<T>
    requires k < |q|
  {
    q[k := q[|q| - 1]][..|q| - 1]
  }

  lemma {:induction false} GatherSwapRemove<T>(q: seq<T>, k: nat, f: T -> multiset<nat>)
    requires k < |q|
    ensures Gather(SwapRemove(q, k), f) + f(q[k]) == Gather(q, f)
  {
    var last := q[|q| - 1];
    var t, rest := q[k := last], SwapRemove(q, k);
    GatherUpdate(q, k, last, f);
    assert Gather(t, f) == Gather(rest, f) + f(last);
    Exchange(Gather(rest, f), f(last), f(q[k]));
    Cancel(Gather(rest, f) + f(q[k]), Gather(q, f), f(last));
  }

  lemma Cancel(a: multiset<nat>, b: multiset<nat>, c: multiset<nat>)
    requires a + c == b + c
    ensures a == b
  {
    forall x: nat ensures a[x] == b[x] {
      assert (a + c)[x] == (b + c)[x];
    }
  }

  lemma {:induction false} GatherSize<T>(q: seq<T>, f: T -> multiset<nat>)
    requires forall x :: x in q ==> |f(x)| == 1
    ensures |Gather(q, f)| == |q|
  {
    if q != [] {
      GatherSize(q[..|q| - 1], f);
    }
  }

  /** Each id below n, once. */
  function AllIds(n: nat): multiset<nat> {
    if n == 0 then multiset{} else AllIds(n - 1) + multiset{n - 1}
  }

  lemma {:induction false} AllIdsSize(n: nat)
    ensures |AllIds(n)| == n
    ensures forall x: nat :: AllIds(n)[x] == if x < n then 1 else 0
  {
    if n > 0 {
      AllIdsSize(n - 1);
    }
  }

  lemma CountTwo(q: seq<nat>, i: nat, j: nat)
    requires i < j < |q| && q[i] == q[j]
    ensures multiset(q)[q[i]] >= 2
  {
    assert q == q[..j] + [q[j]] + q[j + 1..];
    assert q[i] in q[..j];
  }

  /** The queue without its p-th element. */
  function Without(q: seq<nat>, p: nat): (r: seq<nat>)
    requires p < |q|
    ensures |r| == |q| - 1
  {
    q[..p] + q[p + 1..]
  }

  lemma WithoutCount(q: seq<nat>, p: nat)
    requires p < |q|
    ensures multiset(q) == multiset(Without(q, p)) + multiset{q[p]}
  {
    assert q == q[..p] + [q[p]] + q[p + 1..];
  }

  lemma WithoutAt(q: seq<nat>, p: nat, j: nat)
    requires p < |q| && j < |q| - 1
    ensures Without(q, p)[j] == q[if j < p then j else j + 1]
  {
  }

  lemma WithoutHas(q: seq<nat>, p: nat, x: nat)
    requires p < |q| && x in q && x != q[p]
    ensures x in Without(q, p)
  {
    var j :| 0 <= j < |q| && q[j] == x;
    assert x == Without(q, p)[if j < p then j else j - 1];
  }
}
