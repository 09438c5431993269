/** Doubly linked queues threaded through one array of links (`PolicyQueue`), and the sequences they
    stand for. */
module Lists {
  import opened Machine
  import opened Collect

  /** The end-of-list marker, reserved by the slot index width. */
  const NIL: nat := 0xFFFF_FFFF

  datatype Link = Link(previous: nat, next: nat, weight: nat)

  const Unlinked := Link(NIL, NIL, 0)

  predicate Distinct(q: seq<nat>) {
    forall i, j :: 0 <= i < j < |q| ==> q[i] != q[j]
  }

  function Before(q: seq<nat>, i: nat): nat
    requires i < |q|
  {
    if i == 0 then NIL else q[i - 1]
  }

  function Behind(q: seq<nat>, i: nat): nat
    requires i < |q|
  {
    if i + 1 == |q| then NIL else q[i + 1]
  }

  function First(q: seq<nat>): nat {
    if q == [] then NIL else q[0]
  }

  function Last(q: seq<nat>): nat {
    if q == [] then NIL else q[|q| - 1]
  }

  predicate LinkedAt(links: seq<Link>, q: seq<nat>, i: nat)
    requires i < |q|
  {
    && q[i] < |links|
    && links[q[i]].previous == Before(q, i)
    && links[q[i]].next == Behind(q, i)
    && 0 < links[q[i]].weight <= U32_MAX
  }

  /** The links of q's members spell out q in both directions. */
  ghost predicate Chained(links: seq<Link>, q: seq<nat>) {
    && |links| <= NIL
    && Distinct(q)
    && forall i :: 0 <= i < |q| ==> LinkedAt(links, q, i)
  }

  function WeightAt(links: seq<Link>, k: nat): nat {
    if k < |links| then links[k].weight else 0
  }

  function Weight(links: seq<Link>, q: seq<nat>): nat {
    if q == [] then 0 else Weight(links, q[..|q| - 1]) + WeightAt(links, q[|q| - 1])
  }

  // ----- the effect of each queue operation on the links -----

  function Pushed(links: seq<Link>, tail: nat, index: nat, weight: nat): seq<Link>
    requires index < |links|
  {
    var placed := links[index := Link(tail, NIL, weight)];
    if tail < |links| then placed[tail := placed[tail].(next := index)] else placed
  }

  function Removed(links: seq<Link>, index: nat): seq<Link>
    requires index < |links|
  {
    var link := links[index];
    var a := if link.previous < |links| then links[link.previous := links[link.previous].(next := link.next)] else links;
    var b := if link.next < |links| then a[link.next := a[link.next].(previous := link.previous)] else a;
    b[index := Unlinked]
  }

  lemma PushChains(links: seq<Link>, q: seq<nat>, index: nat, weight: nat)
    requires Chained(links, q) && index < |links| && index !in q && 0 < weight <= U32_MAX
    ensures Chained(Pushed(links, Last(q), index, weight), q + [index])
  {
    var links', q' := Pushed(links, Last(q), index, weight), q + [index];
    assert q != [] ==> LinkedAt(links, q, |q| - 1);
    forall i | 0 <= i < |q'| ensures LinkedAt(links', q', i) {
      if i < |q| {
        assert LinkedAt(links, q, i);
        assert q[i] in q;
      }
    }
  }

  lemma RemoveChains(links: seq<Link>, q: seq<nat>, i: nat)
    requires Chained(links, q) && i < |q|
    ensures q[i] < |links| && Chained(Removed(links, q[i]), Without(q, i))
  {
    assert LinkedAt(links, q, i);
    var links', q' := Removed(links, q[i]), Without(q, i);
    forall j | 0 <= j < |q'| ensures LinkedAt(links', q', j) {
      var k := if j < i then j else j + 1;
      assert q'[j] == q[k] && LinkedAt(links, q, k);
      if i > 0 {
        assert LinkedAt(links, q, i - 1);
      }
      if i + 1 < |q| {
        assert LinkedAt(links, q, i + 1);
      }
    }
  }

  /** The neighbours named by a removed link, and the ends of the shortened queue. */
  lemma RemoveEnds(links: seq<Link>, q: seq<nat>, i: nat)
    requires Chained(links, q) && i < |q|
    ensures q[i] < |links|
    ensures var link := links[q[i]];
            && (if link.previous == NIL then i == 0 else link.previous < |links| && link.previous != q[i] && i > 0)
            && (if link.next == NIL then i == |q| - 1 else link.next < |links| && link.next != q[i] && i < |q| - 1)
            && First(Without(q, i)) == (if link.previous == NIL then link.next else First(q))
            && Last(Without(q, i)) == (if link.next == NIL then link.previous else Last(q))
  {
    assert LinkedAt(links, q, i);
    assert i > 0 ==> LinkedAt(links, q, i - 1);
    assert i + 1 < |q| ==> LinkedAt(links, q, i + 1);
  }

  /** What an operation touches: the moved slot and its neighbours, whose weights stay. */
  lemma PushFrame(links: seq<Link>, q: seq<nat>, index: nat, weight: nat)
    requires Chained(links, q) && index < |links| && index !in q
    ensures var links' := Pushed(links, Last(q), index, weight);
            && |links'| == |links| && links'[index].weight == weight
            && (forall k :: 0 <= k < |links| && k != index && k !in q ==> links'[k] == links[k])
            && (forall k :: 0 <= k < |links| && k != index ==> links'[k].weight == links[k].weight)
  {
    assert q != [] ==> LinkedAt(links, q, |q| - 1);
  }

  lemma RemoveFrame(links: seq<Link>, q: seq<nat>, i: nat)
    requires Chained(links, q) && i < |q|
    ensures q[i] < |links|
    ensures var links' := Removed(links, q[i]);
            && |links'| == |links| && links'[q[i]] == Unlinked
            && (forall k :: 0 <= k < |links| && k !in q ==> links'[k] == links[k])
            && (forall k :: 0 <= k < |links| && k != q[i] ==> links'[k].weight == links[k].weight)
  {
    assert LinkedAt(links, q, i);
  }

  lemma {:induction false} ChainFrame(links: seq<Link>, links': seq<Link>, q: seq<nat>)
    requires Chained(links, q) && |links'| == |links|
    requires forall i :: 0 <= i < |q| && q[i] < |links| ==> links'[q[i]] == links[q[i]]
    ensures Chained(links', q) && Weight(links', q) == Weight(links, q)
  {
    forall i | 0 <= i < |q| ensures LinkedAt(links', q, i) && WeightAt(links', q[i]) == WeightAt(links, q[i]) {
      assert LinkedAt(links, q, i);
    }
    WeightFrame(links, links', q);
  }

  // ----- weights -----

  lemma {:induction false} WeightFrame(links: seq<Link>, links': seq<Link>, q: seq<nat>)
    requires forall i :: 0 <= i < |q| ==> WeightAt(links', q[i]) == WeightAt(links, q[i])
    ensures Weight(links', q) == Weight(links, q)
  {
    if q != [] {
      WeightFrame(links, links', q[..|q| - 1]);
    }
  }

  lemma {:induction false} WeightPush(links: seq<Link>, q: seq<nat>, x: nat)
    ensures Weight(links, q + [x]) == Weight(links, q) + WeightAt(links, x)
  {
    assert (q + [x])[..|q|] == q;
  }

  lemma {:induction false} WeightWithout(links: seq<Link>, q: seq<nat>, i: nat)
    requires i < |q|
    ensures Weight(links, Without(q, i)) + WeightAt(links, q[i]) == Weight(links, q)
  {
    var n := |q| - 1;
    if i == n {
      assert Without(q, i) == q[..n];
    } else {
      assert Without(q, i)[..n - 1] == Without(q[..n], i);
      assert Without(q, i)[n - 1] == q[n];
      WeightWithout(links, q[..n], i);
    }
  }

  /** Removing a member shortens the chain and takes exactly its weight. */
  lemma {:induction false} RemoveWeight(links: seq<Link>, q: seq<nat>, i: nat)
    requires Chained(links, q) && i < |q|
    ensures q[i] < |links| && 0 < WeightAt(links, q[i]) <= U32_MAX
    ensures Chained(Removed(links, q[i]), Without(q, i))
    ensures Weight(Removed(links, q[i]), Without(q, i)) + WeightAt(links, q[i]) == Weight(links, q)
  {
    assert LinkedAt(links, q, i);
    RemoveChains(links, q, i);
    RemoveFrame(links, q, i);
    WeightWithout(links, q, i);
    var q' := Without(q, i);
    forall j | 0 <= j < |q'| ensures q'[j] != q[i] {
      WithoutAt(q, i, j);
    }
    WeightFrame(links, Removed(links, q[i]), q');
  }

  /** The byte count of a queue fits its counter. */
  lemma {:induction false} WeightBound(links: seq<Link>, q: seq<nat>)
    requires forall i :: 0 <= i < |q| ==> WeightAt(links, q[i]) <= U32_MAX
    ensures Weight(links, q) <= |q| * U32_MAX
  {
    if q != [] {
      WeightBound(links, q[..|q| - 1]);
    }
  }

  lemma {:induction false} DistinctOnce(q: seq<nat>, x: nat)
    requires Distinct(q)
    ensures multiset(q)[x] <= 1
  {
    if q != [] {
      var n := |q| - 1;
      DistinctOnce(q[..n], x);
      assert q == q[..n] + [q[n]] && q[n] !in q[..n];
    }
  }

  lemma DistinctBound(q: seq<nat>, n: nat)
    requires Distinct(q) && forall i :: 0 <= i < |q| ==> q[i] < n
    ensures |q| <= n
  {
    AllIdsSize(n);
    forall x ensures multiset(q)[x] <= AllIds(n)[x] {
      DistinctOnce(q, x);
      assert x in multiset(q) ==> x in q;
    }
    assert AllIds(n) == multiset(q) + (AllIds(n) - multiset(q));
  }

  lemma {:induction false} WeightFits(links: seq<Link>, q: seq<nat>)
    requires Chained(links, q)
    ensures Weight(links, q) + U32_MAX <= U64_MAX
  {
    forall i | 0 <= i < |q| ensures q[i] < |links| && WeightAt(links, q[i]) <= U32_MAX {
      assert LinkedAt(links, q, i);
    }
    DistinctBound(q, |links|);
    WeightBound(links, q);
    assert |q| * U32_MAX <= U32_MAX * U32_MAX;
  }

  // ----- the queue -----

  /** The stored fields of one queue. */
  datatype Ends = Ends(head: nat, tail: nat, bytes: nat)

  const NoEnds := Ends(NIL, NIL, 0)

  function PushedEnds(e: Ends, index: nat, weight: nat): Ends {
    Ends(if e.tail == NIL then index else e.head, index, Min(e.bytes + weight, U64_MAX))
  }

  function RemovedEnds(e: Ends, link: Link): Ends {
    Ends(if link.previous == NIL then link.next else e.head,
         if link.next == NIL then link.previous else e.tail,
         SaturatingSub(e.bytes, link.weight))
  }

  /** The neighbours named by a slot's link exist. */
  predicate Detachable(links: seq<Link>, index: nat) {
    && index < |links| <= NIL
    && (links[index].previous == NIL || links[index].previous < |links|)
    && (links[index].next == NIL || links[index].next < |links|)
  }

  function MovedBack(links: seq<Link>, e: Ends, index: nat): (seq<Link>, Ends)
    requires Detachable(links, index)
  {
    if e.tail == index then (links, e)
    else
      var weight, links', e' := links[index].weight, Removed(links, index), RemovedEnds(e, links[index]);
      (Pushed(links', e'.tail, index, weight), PushedEnds(e', index, weight))
  }

  /** The queue e, read through `links`, is the sequence q, and its byte count is the weight of q. */
  ghost predicate QueueOk(links: seq<Link>, e: Ends, q: seq<nat>) {
    Chained(links, q) && e == Ends(First(q), Last(q), Weight(links, q))
  }

  /** Appending to the linked queue appends to its sequence. */
  lemma {:induction false} PushQueue(links: seq<Link>, e: Ends, q: seq<nat>, index: nat, weight: nat)
    requires QueueOk(links, e, q) && index < |links| && index !in q && 0 < weight <= U32_MAX
    ensures e.tail == NIL || e.tail < |links|
    ensures QueueOk(Pushed(links, e.tail, index, weight), PushedEnds(e, index, weight), q + [index])
  {
    assert q != [] ==> LinkedAt(links, q, |q| - 1);
    PushChains(links, q, index, weight);
    PushFrame(links, q, index, weight);
    WeightFits(links, q);
    var links' := Pushed(links, e.tail, index, weight);
    WeightPush(links', q, index);
    WeightFrame(links, links', q);
  }

  /** Unlinking a member removes it from the sequence, wherever it is. */
  lemma {:induction false} RemoveQueue(links: seq<Link>, e: Ends, q: seq<nat>, i: nat)
    requires QueueOk(links, e, q) && i < |q|
    ensures Detachable(links, q[i]) && 0 < links[q[i]].weight <= U32_MAX
    ensures QueueOk(Removed(links, q[i]), RemovedEnds(e, links[q[i]]), Without(q, i))
  {
    RemoveWeight(links, q, i);
    RemoveEnds(links, q, i);
  }

  /** Moving a member to the back keeps every weight and leaves other slots alone. */
  lemma {:induction false} MoveQueue(links: seq<Link>, e: Ends, q: seq<nat>, i: nat)
    requires QueueOk(links, e, q) && i < |q|
    ensures Detachable(links, q[i])
    ensures var (links', e') := MovedBack(links, e, q[i]);
            && QueueOk(links', e', Without(q, i) + [q[i]]) && |links'| == |links|
            && (forall k :: 0 <= k < |links| && k !in q ==> links'[k] == links[k])
            && (forall k :: 0 <= k < |links| ==> links'[k].weight == links[k].weight)
  {
    RemoveQueue(links, e, q, i);
    if e.tail == q[i] {
      assert i == |q| - 1;
      assert Without(q, i) + [q[i]] == q;
    } else {
      var weight, middle, rest := links[q[i]].weight, Removed(links, q[i]), Without(q, i);
      RemoveFrame(links, q, i);
      WithoutMembers(q, i);
      PushQueue(middle, RemovedEnds(e, links[q[i]]), rest, q[i], weight);
      PushFrame(middle, rest, q[i], weight);
    }
  }

  lemma WithoutMembers(q: seq<nat>, i: nat)
    requires Distinct(q) && i < |q|
    ensures forall x :: x in Without(q, i) ==> x in q && x != q[i]
  {
    forall x | x in Without(q, i) ensures x in q && x != q[i] {
      var j: nat :| j < |Without(q, i)| && Without(q, i)[j] == x;
      WithoutAt(q, i, j);
    }
  }

  /** A queue depends only on the links of its members. */
  lemma QueueFrame(links: seq<Link>, links': seq<Link>, e: Ends, q: seq<nat>)
    requires QueueOk(links, e, q) && |links'| == |links|
    requires forall k :: 0 <= k < |links| && k in q ==> links'[k] == links[k]
    ensures QueueOk(links', e, q)
  {
    forall i | 0 <= i < |q| && q[i] < |links| ensures links'[q[i]] == links[q[i]] {
      assert q[i] in q;
    }
    ChainFrame(links, links', q);
  }

  class PolicyQueue {
    var head: nat
    var tail: nat
    var bytes: nat

    function View(): Ends
      reads this
    {
      Ends(head, tail, bytes)
    }

    constructor ()
      ensures View() == NoEnds
    {
      head, tail, bytes := NIL, NIL, 0;
    }

    method PushBack(links: array<Link>, index: nat, weight: nat)
      requires index < links.Length <= NIL && (tail == NIL || tail < links.Length)
      modifies this, links
      ensures View() == PushedEnds(old(View()), index, weight)
      ensures links[..] == Pushed(old(links[..]), old(tail), index, weight)
    {
      ghost var before := links[..];
      links[index] := Link(tail, NIL, weight);
      if tail == NIL {
        head := index;
      } else {
        links[tail] := links[tail].(next := index);
      }
      assert links[..] == Pushed(before, tail, index, weight);
      tail := index;
      bytes := Min(bytes + weight, U64_MAX);
    }

    method Remove(links: array<Link>, index: nat) returns (weight: nat)
      requires Detachable(links[..], index)
      modifies this, links
      ensures View() == RemovedEnds(old(View()), old(links[index])) && weight == old(links[index].weight)
      ensures links[..] == Removed(old(links[..]), index)
    {
      ghost var before := links[..];
      var link := links[index];
      if link.previous == NIL {
        head := link.next;
      } else {
        links[link.previous] := links[link.previous].(next := link.next);
      }
      if link.next == NIL {
        tail := link.previous;
      } else {
        links[link.next] := links[link.next].(previous := link.previous);
      }
      links[index] := Unlinked;
      assert links[..] == Removed(before, index);
      weight := link.weight;
      bytes := SaturatingSub(bytes, weight);
    }

    method MoveToBack(links: array<Link>, index: nat)
      requires Detachable(links[..], index) && (tail == NIL || tail < links.Length)
      modifies this, links
      ensures (links[..], View()) == MovedBack(old(links[..]), old(View()), index)
    {
      if tail != index {
        var weight := Remove(links, index);
        PushBack(links, index, weight);
      }
    }
  }
}
