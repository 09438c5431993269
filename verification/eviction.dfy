/** The two eviction policies as they are stored: a CLOCK vector with back pointers, and S3-FIFO queues
    threaded through one link array with a ghost history. */
module Eviction {
  import opened Machine
  import opened Collect
  import opened Lists
  import opened Policies
  import opened GhostQueues
  import opened Directory

  /** Policy metadata of one L1 slot. */
  datatype PolicySlot = PolicySlot(hash: u64, position: nat, resident: bool, visited: bool, main: bool, frequency: nat)

  const NoSlot := PolicySlot(0, 0, false, false, false, 0)

  // ----- CLOCK -----

  ghost predicate BackPointers(slots: seq<PolicySlot>, residents: seq<nat>) {
    && (forall p :: 0 <= p < |residents| ==>
          residents[p] < |slots| && slots[residents[p]].resident && slots[residents[p]].position == p)
    && (forall k :: 0 <= k < |slots| && slots[k].resident ==>
          slots[k].position < |residents| && residents[slots[k].position] == k)
  }

  function VisitedOf(slots: seq<PolicySlot>): (v: seq<bool>)
    ensures |v| == |slots|
  {
    seq(|slots|, i requires 0 <= i < |slots| => slots[i].visited)
  }

  predicate SameButVisited(slots: seq<PolicySlot>, slots': seq<PolicySlot>) {
    && |slots'| == |slots|
    && forall k :: 0 <= k < |slots| ==> slots'[k] == slots[k].(visited := slots'[k].visited)
  }

  lemma VisitedTwice(a: seq<PolicySlot>, b: seq<PolicySlot>, c: seq<PolicySlot>)
    requires SameButVisited(a, b) && SameButVisited(b, c)
    ensures SameButVisited(a, c)
  {
    forall k | 0 <= k < |a| ensures c[k] == a[k].(visited := c[k].visited) {
      assert b[k] == a[k].(visited := b[k].visited);
    }
  }

  /** The slots after position p is vacated by swapping in the last resident. */
  function ClockRemoved(slots: seq<PolicySlot>, residents: seq<nat>, index: nat): seq<PolicySlot>
    requires index < |slots| && slots[index].position < |residents|
  {
    var p := slots[index].position;
    var rest := SwapRemove(residents, p);
    var moved := if p < |rest| && rest[p] < |slots| then slots[rest[p] := slots[rest[p]].(position := p)] else slots;
    moved[index := NoSlot]
  }

  lemma InsertPointers(slots: seq<PolicySlot>, residents: seq<nat>, index: nat, slot: PolicySlot)
    requires BackPointers(slots, residents) && index < |slots| && !slots[index].resident
    requires slot.resident && slot.position == |residents|
    ensures BackPointers(slots[index := slot], residents + [index])
  {
  }

  lemma RemovePointers(slots: seq<PolicySlot>, residents: seq<nat>, index: nat)
    requires BackPointers(slots, residents) && index < |slots| && slots[index].resident
    ensures slots[index].position < |residents| && residents[slots[index].position] == index
    ensures BackPointers(ClockRemoved(slots, residents, index), SwapRemove(residents, slots[index].position))
  {
    var p := slots[index].position;
    var rest, slots' := SwapRemove(residents, p), ClockRemoved(slots, residents, index);
    var last := residents[|residents| - 1];
    forall q | 0 <= q < |rest| ensures rest[q] < |slots'| && slots'[rest[q]].resident && slots'[rest[q]].position == q {
      assert rest[q] == if q == p then last else residents[q];
    }
    forall k | 0 <= k < |slots'| && slots'[k].resident
      ensures slots'[k].position < |rest| && rest[slots'[k].position] == k
    {
      assert slots[k].resident && k != index;
    }
  }

  class ClockState {
    var hand: nat
    var residents: seq<nat>

    ghost predicate Tracks(slots: array<PolicySlot>)
      reads this, slots
    {
      BackPointers(slots[..], residents) && (if residents == [] then hand == 0 else hand < |residents|)
    }

    ghost function View(slots: array<PolicySlot>): Clock
      reads this, slots
    {
      Clock(hand, residents, VisitedOf(slots[..]))
    }

    constructor ()
      ensures hand == 0 && residents == []
    {
      hand, residents := 0, [];
    }

    method Insert(slots: array<PolicySlot>, index: nat, hash: u64, visited: bool)
      requires Tracks(slots) && index < slots.Length && !slots[index].resident
      modifies this, slots
      ensures Tracks(slots) && residents == old(residents) + [index] && hand == old(hand)
      ensures slots[..] == old(slots[..])[index := PolicySlot(hash, |old(residents)|, true, visited, false, 0)]
    {
      var slot := PolicySlot(hash, |residents|, true, visited, false, 0);
      InsertPointers(slots[..], residents, index, slot);
      slots[index] := slot;
      residents := residents + [index];
      assert slots[..] == old(slots[..])[index := slot];
    }

    method Remove(slots: array<PolicySlot>, index: nat)
      requires Tracks(slots) && index < slots.Length && slots[index].resident
      modifies this, slots
      ensures Tracks(slots)
      ensures old(slots[index].position) < |old(residents)| && old(residents[slots[index].position]) == index
      ensures residents == SwapRemove(old(residents), old(slots[index].position))
      ensures slots[..] == ClockRemoved(old(slots[..]), old(residents), index)
    {
      ghost var before, listed := slots[..], residents;
      RemovePointers(before, residents, index);
      var position := slots[index].position;
      residents := SwapRemove(residents, position);
      if position < |residents| {
        assert residents[position] == listed[|listed| - 1];
        var moved := residents[position];
        slots[moved] := slots[moved].(position := position);
      }
      slots[index] := NoSlot;
      assert slots[..] == ClockRemoved(before, listed, index);
      if hand >= |residents| {
        hand := 0;
      }
    }

    /** One look of the hand. */
    method Look(slots: array<PolicySlot>, reclaimable: set<nat>) returns (victim: Option<nat>)
      requires Tracks(slots) && residents != []
      modifies this`hand, slots
      ensures Tracks(slots) && (View(slots), victim) == LookClock(old(View(slots)), reclaimable)
      ensures SameButVisited(old(slots[..]), slots[..])
    {
      var position := if hand < |residents| then hand else 0;
      hand := if position + 1 == |residents| then 0 else position + 1;
      var index := residents[position];
      if slots[index].visited {
        ghost var before := VisitedOf(slots[..]);
        slots[index] := slots[index].(visited := false);
        assert VisitedOf(slots[..]) == before[index := false];
        return None;
      }
      victim := if index in reclaimable then Some(index) else None;
    }

    /** The hand turns until it finds a victim or a bound stops it. */
    method SelectVictim(slots: array<PolicySlot>, remaining: nat, reclaimable: set<nat>) returns (left: nat, victim: Option<nat>)
      requires Tracks(slots)
      modifies this`hand, slots
      ensures Tracks(slots)
      ensures SweepEnds(old(View(slots)), MaximumScanSteps(|residents|), remaining, reclaimable, (View(slots), left, victim))
      ensures SameButVisited(old(slots[..]), slots[..])
    {
      left, victim := remaining, None;
      var round, rounds := 0, MaximumScanSteps(|residents|);
      ghost var c := View(slots);
      ghost var goal := SweepGoal(c, rounds, remaining, reclaimable);
      while round < rounds
        invariant round <= rounds && Tracks(slots) && victim.None?
        invariant c == View(slots) && SweepEnds(c, rounds - round, left, reclaimable, goal)
        invariant SameButVisited(old(slots[..]), slots[..])
      {
        SweepLooks(c, rounds - round, left, reclaimable, goal);
        if residents == [] || left == 0 {
          return;
        }
        ghost var before := slots[..];
        victim := Look(slots, reclaimable);
        VisitedTwice(old(slots[..]), before, slots[..]);
        c := LookClock(c, reclaimable).0;
        left := left - 1;
        if victim.Some? {
          return;
        }
        round := round + 1;
      }
      SweepLooks(c, 0, left, reclaimable, goal);
    }
  }

  // ----- S3-FIFO -----

  function FrequenciesOf(slots: seq<PolicySlot>): (v: seq<nat>)
    ensures |v| == |slots|
  {
    seq(|slots|, i requires 0 <= i < |slots| => slots[i].frequency)
  }

  function WeightsOf(links: seq<Link>): (v: seq<nat>)
    ensures |v| == |links|
  {
    seq(|links|, i requires 0 <= i < |links| => links[i].weight)
  }

  lemma {:induction false} WeightTotal(links: seq<Link>, q: seq<nat>)
    ensures Total(WeightsOf(links), q) == Weight(links, q)
  {
    if q != [] {
      WeightTotal(links, q[..|q| - 1]);
    }
  }

  lemma SameWeights(links: seq<Link>, links': seq<Link>)
    requires |links'| == |links| && forall k :: 0 <= k < |links| ==> links'[k].weight == links[k].weight
    ensures WeightsOf(links') == WeightsOf(links)
  {
  }

  lemma OneWeight(links: seq<Link>, links': seq<Link>, x: nat, weight: nat)
    requires |links'| == |links| && x < |links| && links'[x].weight == weight
    requires forall k :: 0 <= k < |links| && k != x ==> links'[k].weight == links[k].weight
    ensures WeightsOf(links') == WeightsOf(links)[x := weight]
  {
  }

  lemma OneFrequency(slots: seq<PolicySlot>, x: nat, slot: PolicySlot)
    requires x < |slots|
    ensures FrequenciesOf(slots[x := slot]) == FrequenciesOf(slots)[x := slot.frequency]
  {
  }

  /** Slot flags agree with the two disjoint queues, and only queued slots carry weight. */
  ghost predicate Flagged(slots: seq<PolicySlot>, links: seq<Link>, small: seq<nat>, main: seq<nat>) {
    && |slots| == |links|
    && Distinct(small + main)
    && (forall i :: 0 <= i < |small| ==> small[i] < |slots|)
    && (forall i :: 0 <= i < |main| ==> main[i] < |slots|)
    && (forall k :: 0 <= k < |slots| ==>
          && (slots[k].resident <==> k in small || k in main)
          && (k in small ==> !slots[k].main) && (k in main ==> slots[k].main)
          && (!slots[k].resident ==> links[k].weight == 0))
  }

  /** Members of one queue are not in the other. */
  lemma Apart(small: seq<nat>, main: seq<nat>)
    requires Distinct(small + main)
    ensures Distinct(small) && Distinct(main)
    ensures forall x :: x in small ==> x !in main
  {
    var p := small + main;
    forall i, j | 0 <= i < j < |small| ensures small[i] != small[j] {
      assert p[i] == small[i] && p[j] == small[j];
    }
    forall i, j | 0 <= i < j < |main| ensures main[i] != main[j] {
      assert p[|small| + i] == main[i] && p[|small| + j] == main[j];
    }
    forall i, j | 0 <= i < |small| && 0 <= j < |main| ensures small[i] != main[j] {
      assert p[i] == small[i] && p[|small| + j] == main[j];
    }
  }

  lemma Together(small: seq<nat>, main: seq<nat>)
    requires Distinct(small) && Distinct(main) && forall x :: x in small ==> x !in main
    ensures Distinct(small + main)
  {
    var p := small + main;
    forall i, j | 0 <= i < j < |p| ensures p[i] != p[j] {
      if i < |small| <= j {
        assert small[i] in small && main[j - |small|] in main;
      }
    }
  }

  lemma Extended(q: seq<nat>, x: nat)
    requires Distinct(q) && x !in q
    ensures Distinct(q + [x])
  {
    forall i | 0 <= i < |q| ensures q[i] != x {
      assert q[i] in q;
    }
  }

  lemma FlaggedPromote(slots: seq<PolicySlot>, links: seq<Link>, links': seq<Link>, small: seq<nat>, main: seq<nat>)
    requires Flagged(slots, links, small, main) && small != []
    requires |links'| == |links| && forall k :: 0 <= k < |links| ==> links'[k].weight == links[k].weight
    ensures var x := small[0];
            Flagged(slots[x := slots[x].(main := true)], links', small[1..], main + [x])
  {
    Apart(small, main);
    var x, small', main' := small[0], small[1..], main + [small[0]];
    assert small == [x] + small';
    Extended(main, x);
    Together(small', main');
  }

  lemma FlaggedRecycle(slots: seq<PolicySlot>, links: seq<Link>, links': seq<Link>, small: seq<nat>, main: seq<nat>, left: nat)
    requires Flagged(slots, links, small, main) && main != []
    requires |links'| == |links| && forall k :: 0 <= k < |links| ==> links'[k].weight == links[k].weight
    ensures var x := main[0];
            Flagged(slots[x := slots[x].(frequency := left)], links', small, main[1..] + [x])
  {
    Apart(small, main);
    var x, main' := main[0], main[1..] + [main[0]];
    assert main == [x] + main[1..];
    Extended(main[1..], x);
    Together(small, main');
  }

  lemma FlaggedJoin(slots: seq<PolicySlot>, links: seq<Link>, links': seq<Link>, small: seq<nat>, main: seq<nat>, x: nat, slot: PolicySlot)
    requires Flagged(slots, links, small, main) && x < |slots| && !slots[x].resident && slot.resident
    requires |links'| == |links| && forall k :: 0 <= k < |links| && k != x ==> links'[k].weight == links[k].weight
    ensures Flagged(slots[x := slot], links', if slot.main then small else small + [x], if slot.main then main + [x] else main)
  {
    Apart(small, main);
    Extended(if slot.main then main else small, x);
    Together(if slot.main then small else small + [x], if slot.main then main + [x] else main);
  }

  lemma FlaggedLeave(slots: seq<PolicySlot>, links: seq<Link>, links': seq<Link>, small: seq<nat>, main: seq<nat>, fromMain: bool, i: nat)
    requires Flagged(slots, links, small, main) && i < |if fromMain then main else small|
    requires |links'| == |links|
    requires var x := (if fromMain then main else small)[i];
             x < |links| && links'[x].weight == 0 && forall k :: 0 <= k < |links| && k != x ==> links'[k].weight == links[k].weight
    ensures var x := (if fromMain then main else small)[i];
            Flagged(slots[x := NoSlot], links', if fromMain then small else Without(small, i), if fromMain then Without(main, i) else main)
  {
    Apart(small, main);
    var q := if fromMain then main else small;
    WithoutMembers(q, i);
    WithoutDistinct(q, i);
    forall k | k in q && k != q[i] ensures k in Without(q, i) {
      WithoutHas(q, i, k);
    }
    Together(if fromMain then small else Without(small, i), if fromMain then Without(main, i) else main);
  }

  lemma WithoutDistinct(q: seq<nat>, i: nat)
    requires Distinct(q) && i < |q|
    ensures Distinct(Without(q, i))
  {
    forall j, k | 0 <= j < k < |Without(q, i)| ensures Without(q, i)[j] != Without(q, i)[k] {
      WithoutAt(q, i, j);
      WithoutAt(q, i, k);
    }
  }

  /** What S3-FIFO remembers of a detached victim. */
  datatype Detached = Detached(hash: u64, weight: nat, main: bool, frequency: nat)

  /** A slot joins the back of one queue. */
  function Joined(f: Fifo, index: nat, weight: nat, main: bool, frequency: nat): Fifo
    requires index < |f.frequency| && index < |f.weight|
  {
    f.(small := if main then f.small else f.small + [index],
       main := if main then f.main + [index] else f.main,
       frequency := f.frequency[index := frequency],
       weight := f.weight[index := weight])
  }

  /** A slot leaves position i of one queue. */
  function Left(f: Fifo, main: bool, i: nat): Fifo
    requires i < |if main then f.main else f.small|
  {
    var index := (if main then f.main else f.small)[i];
    f.(small := if main then f.small else Without(f.small, i),
       main := if main then Without(f.main, i) else f.main,
       frequency := if index < |f.frequency| then f.frequency[index := 0] else f.frequency,
       weight := if index < |f.weight| then f.weight[index := 0] else f.weight)
  }

  /** The stored state of S3-FIFO with the two sequences it stands for. */
  datatype S3 = S3(
    links: seq<Link>, small: Ends, main: Ends, slots: seq<PolicySlot>,
    smallItems: seq<nat>, mainItems: seq<nat>, mainCapacity: nat)
  {
    function View(): Fifo {
      Fifo(smallItems, mainItems, FrequenciesOf(slots), WeightsOf(links), mainCapacity)
    }

    /** Slot `index` is at position i of the main or the small queue. */
    predicate Holds(fromMain: bool, i: nat, index: nat) {
      i < |if fromMain then mainItems else smallItems| && (if fromMain then mainItems else smallItems)[i] == index
    }
  }

  datatype Share = Queues | Flags

  ghost function Shares(share: Share): iset<S3> {
    match share
    case Queues => iset s: S3 | QueueOk(s.links, s.small, s.smallItems) && QueueOk(s.links, s.main, s.mainItems)
    case Flags => iset s: S3 | Flagged(s.slots, s.links, s.smallItems, s.mainItems)
  }

  /** The linked queues are the two disjoint sequences that hold exactly the resident slots. */
  ghost predicate Sound(s: S3) {
    forall share {:trigger s in Shares(share)} :: s in Shares(share)
  }

  lemma SoundIs(s: S3)
    requires s in Shares(Queues) && s in Shares(Flags)
    ensures Sound(s)
  {
    forall share ensures s in Shares(share) {
      match share
      case Queues =>
      case Flags =>
    }
  }

  lemma SoundFifo(s: S3)
    requires Sound(s)
    ensures FifoOk(s.View()) && |s.links| == |s.slots| <= NIL
    ensures s.main.bytes == Total(WeightsOf(s.links), s.mainItems)
    ensures s.small.head == First(s.smallItems) && s.main.head == First(s.mainItems)
    ensures s.small.tail == Last(s.smallItems) && s.main.tail == Last(s.mainItems)
    ensures forall i :: 0 <= i < |s.smallItems| ==> s.smallItems[i] < |s.slots|
    ensures forall i :: 0 <= i < |s.mainItems| ==> s.mainItems[i] < |s.slots|
  {
    assert s in Shares(Queues) && s in Shares(Flags);
    WeightTotal(s.links, s.mainItems);
  }

  lemma SoundBounds(s: S3)
    requires Sound(s)
    ensures |s.links| == |s.slots| <= NIL
    ensures s.small.tail == NIL || s.small.tail < |s.links|
    ensures s.main.tail == NIL || s.main.tail < |s.links|
  {
    SoundFifo(s);
  }

  function Promoted(s: S3): S3
    requires s.smallItems != [] && s.smallItems[0] < |s.links| == |s.slots|
  {
    var x, link := s.smallItems[0], s.links[s.smallItems[0]];
    s.(links := Pushed(Removed(s.links, x), s.main.tail, x, link.weight),
       small := RemovedEnds(s.small, link),
       main := PushedEnds(s.main, x, link.weight),
       slots := s.slots[x := s.slots[x].(main := true)],
       smallItems := Without(s.smallItems, 0),
       mainItems := s.mainItems + [x])
  }

  function Recycled(s: S3, left: nat): S3
    requires s.mainItems != [] && s.mainItems[0] < |s.slots| && Detachable(s.links, s.mainItems[0])
  {
    var x := s.mainItems[0];
    var (links, main) := MovedBack(s.links, s.main, x);
    s.(links := links, main := main,
       slots := s.slots[x := s.slots[x].(frequency := left)],
       mainItems := Without(s.mainItems, 0) + [x])
  }

  function Admitted(s: S3, index: nat, slot: PolicySlot, weight: nat): S3
    requires index < |s.links| == |s.slots|
  {
    s.(links := Pushed(s.links, if slot.main then s.main.tail else s.small.tail, index, weight),
       small := if slot.main then s.small else PushedEnds(s.small, index, weight),
       main := if slot.main then PushedEnds(s.main, index, weight) else s.main,
       slots := s.slots[index := slot],
       smallItems := if slot.main then s.smallItems else s.smallItems + [index],
       mainItems := if slot.main then s.mainItems + [index] else s.mainItems)
  }

  function Departed(s: S3, fromMain: bool, i: nat, index: nat): S3
    requires s.Holds(fromMain, i, index) && index < |s.links| == |s.slots|
  {
    s.(links := Removed(s.links, index),
       small := if fromMain then s.small else RemovedEnds(s.small, s.links[index]),
       main := if fromMain then RemovedEnds(s.main, s.links[index]) else s.main,
       slots := s.slots[index := NoSlot],
       smallItems := if fromMain then s.smallItems else Without(s.smallItems, i),
       mainItems := if fromMain then Without(s.mainItems, i) else s.mainItems)
  }

  /** One queue changes within itself, so the other stays. */
  lemma OtherQueue(links: seq<Link>, links': seq<Link>, e: Ends, mine: seq<nat>, other: seq<nat>, extra: nat)
    requires QueueOk(links, e, other) && |links'| == |links|
    requires forall k :: 0 <= k < |links| && k !in mine && k != extra ==> links'[k] == links[k]
    requires extra !in other && forall x :: x in mine ==> x !in other
    ensures QueueOk(links', e, other)
  {
    QueueFrame(links, links', e, other);
  }

  lemma {:induction false} PromotedQueues(s: S3)
    requires Sound(s) && s.smallItems != []
    ensures Detachable(s.links, s.smallItems[0]) && s.smallItems[0] < |s.slots| == |s.links|
    ensures 0 < s.links[s.smallItems[0]].weight <= U32_MAX
    ensures s.main.tail == NIL || s.main.tail < |s.links|
    ensures Promoted(s) in Shares(Queues)
    ensures |Promoted(s).links| == |s.links|
    ensures forall k :: 0 <= k < |s.links| ==> Promoted(s).links[k].weight == s.links[k].weight
  {
    assert s in Shares(Queues) && s in Shares(Flags);
    var x := s.smallItems[0];
    Apart(s.smallItems, s.mainItems);
    RemoveQueue(s.links, s.small, s.smallItems, 0);
    RemoveFrame(s.links, s.smallItems, 0);
    WithoutMembers(s.smallItems, 0);
    var middle, weight, rest := Removed(s.links, x), s.links[x].weight, Without(s.smallItems, 0);
    OtherQueue(s.links, middle, s.main, s.smallItems, s.mainItems, x);
    PushQueue(middle, s.main, s.mainItems, x, weight);
    PushFrame(middle, s.mainItems, x, weight);
    OtherQueue(middle, Promoted(s).links, RemovedEnds(s.small, s.links[x]), s.mainItems, rest, x);
  }

  lemma PromotedFlags(s: S3, s': S3)
    requires Sound(s) && s.smallItems != [] && s.smallItems[0] < |s.slots|
    requires s'.smallItems == s.smallItems[1..] && s'.mainItems == s.mainItems + [s.smallItems[0]]
    requires s'.slots == s.slots[s.smallItems[0] := s.slots[s.smallItems[0]].(main := true)]
    requires |s'.links| == |s.links| && forall k :: 0 <= k < |s.links| ==> s'.links[k].weight == s.links[k].weight
    ensures s' in Shares(Flags)
  {
    assert s in Shares(Flags);
    FlaggedPromote(s.slots, s.links, s'.links, s.smallItems, s.mainItems);
  }

  lemma PromotedSound(s: S3)
    requires Sound(s) && s.smallItems != [] && s.smallItems[0] < |s.links| == |s.slots|
    ensures Sound(Promoted(s)) && Promoted(s).View() == Promote(s.View())
  {
    PromotedQueues(s);
    var x, s' := s.smallItems[0], Promoted(s);
    assert Without(s.smallItems, 0) == s.smallItems[1..];
    PromotedFlags(s, s');
    SoundIs(s');
    SameWeights(s.links, s'.links);
    OneFrequency(s.slots, x, s'.slots[x]);
    assert FrequenciesOf(s.slots)[x := s.slots[x].frequency] == FrequenciesOf(s.slots);
  }

  lemma {:induction false} RecycledQueues(s: S3, left: nat)
    requires Sound(s) && s.mainItems != []
    ensures Detachable(s.links, s.mainItems[0]) && s.mainItems[0] < |s.slots| == |s.links|
    ensures s.main.tail == NIL || s.main.tail < |s.links|
    ensures Recycled(s, left) in Shares(Queues)
    ensures |Recycled(s, left).links| == |s.links|
    ensures forall k :: 0 <= k < |s.links| ==> Recycled(s, left).links[k].weight == s.links[k].weight
  {
    assert s in Shares(Queues) && s in Shares(Flags);
    Apart(s.smallItems, s.mainItems);
    assert LinkedAt(s.links, s.mainItems, |s.mainItems| - 1);
    MoveQueue(s.links, s.main, s.mainItems, 0);
    OtherQueue(s.links, Recycled(s, left).links, s.small, s.mainItems, s.smallItems, s.mainItems[0]);
  }

  lemma RecycledFlags(s: S3, s': S3, left: nat)
    requires Sound(s) && s.mainItems != [] && s.mainItems[0] < |s.slots|
    requires s'.smallItems == s.smallItems && s'.mainItems == s.mainItems[1..] + [s.mainItems[0]]
    requires s'.slots == s.slots[s.mainItems[0] := s.slots[s.mainItems[0]].(frequency := left)]
    requires |s'.links| == |s.links| && forall k :: 0 <= k < |s.links| ==> s'.links[k].weight == s.links[k].weight
    ensures s' in Shares(Flags)
  {
    assert s in Shares(Flags);
    FlaggedRecycle(s.slots, s.links, s'.links, s.smallItems, s.mainItems, left);
  }

  lemma RecycledSound(s: S3, left: nat)
    requires Sound(s) && s.mainItems != [] && s.mainItems[0] < |s.slots| && Detachable(s.links, s.mainItems[0])
    ensures Sound(Recycled(s, left)) && Recycled(s, left).View() == Recycle(s.View(), left)
  {
    RecycledQueues(s, left);
    var x, s' := s.mainItems[0], Recycled(s, left);
    assert Without(s.mainItems, 0) == s.mainItems[1..];
    RecycledFlags(s, s', left);
    SoundIs(s');
    SameWeights(s.links, s'.links);
    OneFrequency(s.slots, x, s'.slots[x]);
  }

  lemma {:induction false} AdmittedQueues(s: S3, index: nat, slot: PolicySlot, weight: nat)
    requires Sound(s) && index < |s.links| == |s.slots| && !s.slots[index].resident && 0 < weight <= U32_MAX
    ensures s.small.tail == NIL || s.small.tail < |s.links|
    ensures s.main.tail == NIL || s.main.tail < |s.links|
    ensures Admitted(s, index, slot, weight) in Shares(Queues)
    ensures var links := Admitted(s, index, slot, weight).links;
            && |links| == |s.links| && links[index].weight == weight
            && forall k :: 0 <= k < |s.links| && k != index ==> links[k].weight == s.links[k].weight
  {
    assert s in Shares(Queues) && s in Shares(Flags);
    Apart(s.smallItems, s.mainItems);
    PushQueue(s.links, s.main, s.mainItems, index, weight);
    PushQueue(s.links, s.small, s.smallItems, index, weight);
    var mine, other := if slot.main then s.mainItems else s.smallItems, if slot.main then s.smallItems else s.mainItems;
    PushFrame(s.links, mine, index, weight);
    OtherQueue(s.links, Admitted(s, index, slot, weight).links, if slot.main then s.small else s.main, mine, other, index);
  }

  lemma AdmittedSound(s: S3, index: nat, slot: PolicySlot, weight: nat)
    requires Sound(s) && index < |s.links| == |s.slots| && !s.slots[index].resident && slot.resident && 0 < weight <= U32_MAX
    ensures Sound(Admitted(s, index, slot, weight))
    ensures Admitted(s, index, slot, weight).View() == Joined(s.View(), index, weight, slot.main, slot.frequency)
  {
    AdmittedQueues(s, index, slot, weight);
    var s' := Admitted(s, index, slot, weight);
    AdmittedFlags(s, s', index, slot);
    OneWeight(s.links, s'.links, index, weight);
    OneFrequency(s.slots, index, slot);
    SoundIs(s');
  }

  lemma AdmittedFlags(s: S3, s': S3, index: nat, slot: PolicySlot)
    requires Sound(s) && index < |s.slots| && !s.slots[index].resident && slot.resident && s'.slots == s.slots[index := slot]
    requires s'.smallItems == (if slot.main then s.smallItems else s.smallItems + [index])
    requires s'.mainItems == (if slot.main then s.mainItems + [index] else s.mainItems)
    requires |s'.links| == |s.links| && forall k :: 0 <= k < |s.links| && k != index ==> s'.links[k].weight == s.links[k].weight
    ensures s' in Shares(Flags)
  {
    assert s in Shares(Flags);
    FlaggedJoin(s.slots, s.links, s'.links, s.smallItems, s.mainItems, index, slot);
  }

  lemma {:induction false} DepartedQueues(s: S3, fromMain: bool, i: nat, index: nat)
    requires Sound(s) && s.Holds(fromMain, i, index)
    ensures Detachable(s.links, index) && index < |s.slots| == |s.links| && 0 < s.links[index].weight <= U32_MAX
    ensures Departed(s, fromMain, i, index) in Shares(Queues)
    ensures var links := Departed(s, fromMain, i, index).links;
            && |links| == |s.links| && links[index] == Unlinked
            && forall k :: 0 <= k < |s.links| && k != index ==> links[k].weight == s.links[k].weight
  {
    assert s in Shares(Queues) && s in Shares(Flags);
    Apart(s.smallItems, s.mainItems);
    var mine, other := if fromMain then s.mainItems else s.smallItems, if fromMain then s.smallItems else s.mainItems;
    RemoveQueue(s.links, if fromMain then s.main else s.small, mine, i);
    RemoveFrame(s.links, mine, i);
    OtherQueue(s.links, Departed(s, fromMain, i, index).links, if fromMain then s.small else s.main, mine, other, index);
  }

  lemma HeldDetachable(s: S3, fromMain: bool, i: nat, index: nat)
    requires Sound(s) && s.Holds(fromMain, i, index)
    ensures Detachable(s.links, index) && index < |s.slots| == |s.links| && 0 < s.links[index].weight <= U32_MAX
  {
    DepartedQueues(s, fromMain, i, index);
  }

  lemma DepartedSound(s: S3, fromMain: bool, i: nat, index: nat)
    requires Sound(s) && s.Holds(fromMain, i, index) && index < |s.links| == |s.slots|
    ensures Sound(Departed(s, fromMain, i, index))
    ensures Departed(s, fromMain, i, index).View() == Left(s.View(), fromMain, i)
  {
    DepartedQueues(s, fromMain, i, index);
    var s' := Departed(s, fromMain, i, index);
    DepartedFlags(s, s', fromMain, i, index);
    OneWeight(s.links, s'.links, index, 0);
    OneFrequency(s.slots, index, NoSlot);
    SoundIs(s');
  }

  lemma DepartedFlags(s: S3, s': S3, fromMain: bool, i: nat, index: nat)
    requires Sound(s) && s.Holds(fromMain, i, index) && index < |s.slots| && s'.slots == s.slots[index := NoSlot]
    requires s'.smallItems == (if fromMain then s.smallItems else Without(s.smallItems, i))
    requires s'.mainItems == (if fromMain then Without(s.mainItems, i) else s.mainItems)
    requires |s'.links| == |s.links| && index < |s.links| && s'.links[index].weight == 0
    requires forall k :: 0 <= k < |s.links| && k != index ==> s'.links[k].weight == s.links[k].weight
    ensures s' in Shares(Flags)
  {
    assert s in Shares(Flags);
    FlaggedLeave(s.slots, s.links, s'.links, s.smallItems, s.mainItems, fromMain, i);
  }

  /** One look of S3-FIFO, on the stored state. */
  lemma LookedSound(s: S3, prefer: bool)
    requires Sound(s)
    ensures CanLook(s.View(), prefer) ==>
              if LooksSmall(s.View(), prefer).0 then
                && s.smallItems != [] && Detachable(s.links, s.smallItems[0]) && s.smallItems[0] < |s.slots| == |s.links|
                && (s.main.tail == NIL || s.main.tail < |s.links|)
                && Sound(Promoted(s)) && Promoted(s).View() == Promote(s.View())
              else
                && s.mainItems != [] && Detachable(s.links, s.mainItems[0]) && s.mainItems[0] < |s.slots| == |s.links|
                && (s.main.tail == NIL || s.main.tail < |s.links|)
                && forall left :: Sound(Recycled(s, left)) && Recycled(s, left).View() == Recycle(s.View(), left)
  {
    if CanLook(s.View(), prefer) {
      if LooksSmall(s.View(), prefer).0 {
        PromotedQueues(s);
        PromotedSound(s);
      } else {
        RecycledQueues(s, 0);
        forall left ensures Sound(Recycled(s, left)) && Recycled(s, left).View() == Recycle(s.View(), left) {
          RecycledSound(s, left);
        }
      }
    }
  }

  /** No slot changes hands. */
  predicate SameHashes(slots: seq<PolicySlot>, slots': seq<PolicySlot>) {
    |slots'| == |slots| && forall k :: 0 <= k < |slots| ==> slots'[k].hash == slots[k].hash
  }

  /** The policy slot of an S3-FIFO resident. */
  function QueuedSlot(hash: u64, main: bool, frequency: nat): PolicySlot {
    PolicySlot(hash, 0, true, false, main, frequency)
  }

  /** A resident slot is in the queue its flag names. */
  lemma ResidentHeld(s: S3, index: nat) returns (i: nat)
    requires Sound(s) && index < |s.slots| && s.slots[index].resident
    ensures s.Holds(s.slots[index].main, i, index)
  {
    assert s in Shares(Flags);
    var q := if s.slots[index].main then s.mainItems else s.smallItems;
    assert index in q;
    i :| 0 <= i < |q| && q[i] == index;
  }

  /** Detaching a resident and putting it back with its old queue and frequency. */
  function Returned(s: S3, i: nat, index: nat): S3
    requires index < |s.links| == |s.slots| && s.Holds(s.slots[index].main, i, index)
  {
    var slot := s.slots[index];
    Admitted(Departed(s, slot.main, i, index), index, QueuedSlot(slot.hash, slot.main, slot.frequency), s.links[index].weight)
  }

  lemma PutBack(values: seq<nat>, k: nat)
    requires k < |values|
    ensures values[k := 0][k := values[k]] == values
  {
  }

  lemma ReturnedSound(s: S3, i: nat, index: nat)
    requires Sound(s) && index < |s.links| == |s.slots| && s.slots[index].resident && s.Holds(s.slots[index].main, i, index)
    ensures !Departed(s, s.slots[index].main, i, index).slots[index].resident
    ensures Sound(Returned(s, i, index))
    ensures Returned(s, i, index).View().weight == s.View().weight
    ensures Returned(s, i, index).View().frequency == s.View().frequency
  {
    var slot := s.slots[index];
    HeldDetachable(s, slot.main, i, index);
    DepartedSound(s, slot.main, i, index);
    var detached := Departed(s, slot.main, i, index);
    SoundBounds(detached);
    AdmittedSound(detached, index, QueuedSlot(slot.hash, slot.main, slot.frequency), s.links[index].weight);
    PutBack(WeightsOf(s.links), index);
    PutBack(FrequenciesOf(s.slots), index);
  }

  /** A victim that is detached and then restored regains its queue, its frequency and its weight; the
      policy tracks the same entries and no other slot changes. */
  lemma RestoreUndoesDetach(s: S3, i: nat, index: nat)
    requires Sound(s) && index < |s.slots| && s.slots[index].resident && s.Holds(s.slots[index].main, i, index)
    ensures index < |s.links| == |s.slots|
    ensures var slot, restored := s.slots[index], Returned(s, i, index);
            && Sound(restored)
            && restored.slots == s.slots[index := QueuedSlot(slot.hash, slot.main, slot.frequency)]
            && multiset(restored.smallItems) == multiset(s.smallItems)
            && multiset(restored.mainItems) == multiset(s.mainItems)
            && restored.View().weight == s.View().weight && restored.View().frequency == s.View().frequency
  {
    SoundFifo(s);
    var slot := s.slots[index];
    ReturnedSound(s, i, index);
    WithoutCount(if slot.main then s.mainItems else s.smallItems, i);
    assert Returned(s, i, index).slots == s.slots[index := QueuedSlot(slot.hash, slot.main, slot.frequency)];
  }

  class S3FifoState {
    const links: array<Link>
    const small: PolicyQueue
    const main: PolicyQueue
    const mainCapacity: nat
    const history: GhostQueue
    ghost var smallItems: seq<nat>
    ghost var mainItems: seq<nat>

    ghost function State(slots: array<PolicySlot>): S3
      reads this, small, main, links, slots
    {
      S3(links[..], small.View(), main.View(), slots[..], smallItems, mainItems, mainCapacity)
    }

    ghost predicate Tracks(slots: array<PolicySlot>)
      reads this, small, main, links, slots
    {
      small != main && Sound(State(slots))
    }

    constructor (capacityBytes: nat, slots: array<PolicySlot>)
      requires slots.Length <= DELETED_VALUE && forall k :: 0 <= k < slots.Length ==> !slots[k].resident
      ensures Tracks(slots) && smallItems == [] && mainItems == []
      ensures mainCapacity == SaturatingSub(capacityBytes, capacityBytes / 10)
      ensures history.Valid() && history.State().Queue() == [] && history.capacity == mainCapacity
      ensures fresh(links) && fresh(small) && fresh(main) && fresh(history)
      ensures fresh(history.links) && fresh(history.hashes) && fresh(history.directory) && fresh(history.directory.slots)
      ensures links != history.links
    {
      links := new Link[slots.Length](_ => Unlinked);
      small := new PolicyQueue();
      main := new PolicyQueue();
      var share := SaturatingSub(capacityBytes, capacityBytes / 10);
      mainCapacity := share;
      history := new GhostQueue(slots.Length, share);
      smallItems, mainItems := [], [];
      new;
      assert State(slots) in Shares(Queues) && State(slots) in Shares(Flags);
      SoundIs(State(slots));
    }

    /** The head of the small queue moves behind the main queue. */
    method PromoteHead(slots: array<PolicySlot>, index: nat)
      requires small != main && smallItems != [] && index == smallItems[0]
      requires Detachable(links[..], index) && index < slots.Length && (main.tail == NIL || main.tail < links.Length)
      requires slots.Length == links.Length
      modifies this, small, main, links, slots
      ensures State(slots) == Promoted(old(State(slots)))
    {
      ghost var before := slots[..];
      var weight := small.Remove(links, index);
      slots[index] := slots[index].(main := true);
      main.PushBack(links, index, weight);
      smallItems, mainItems := Without(smallItems, 0), mainItems + [index];
      assert slots[..] == before[index := before[index].(main := true)];
    }

    /** The head of the main queue moves behind it with frequency `left`. */
    method RecycleHead(slots: array<PolicySlot>, index: nat, left: nat)
      requires small != main && mainItems != [] && index == mainItems[0]
      requires Detachable(links[..], index) && index < slots.Length && (main.tail == NIL || main.tail < links.Length)
      modifies this, main, links, slots
      ensures State(slots) == Recycled(old(State(slots)), left)
    {
      ghost var before := slots[..];
      slots[index] := slots[index].(frequency := left);
      main.MoveToBack(links, index);
      mainItems := Without(mainItems, 0) + [index];
      assert slots[..] == before[index := before[index].(frequency := left)];
    }

    /** One look at the head of a queue: a victim, a second chance, or an empty queue. */
    method Look(slots: array<PolicySlot>, prefer: bool, reclaimable: set<nat>)
      returns (open: bool, victim: Option<nat>, prefer': bool)
      requires Tracks(slots)
      modifies this, small, main, links, slots
      ensures Tracks(slots)
      ensures open <==> CanLook(old(State(slots).View()), prefer)
      ensures !open ==> State(slots) == old(State(slots)) && victim.None?
      ensures open ==> victim == Caught(old(State(slots).View()), prefer, reclaimable)
      ensures open && victim.Some? ==> State(slots) == old(State(slots))
      ensures open && victim.None? ==> (State(slots).View(), prefer') == Looked(old(State(slots).View()), prefer)
      ensures SameHashes(old(slots[..]), slots[..])
    {
      ghost var s := State(slots);
      SoundFifo(s);
      LookedSound(s, prefer);
      var fromSmall := true;
      prefer' := prefer;
      if prefer && small.head != NIL {
        prefer' := false;
      } else {
        fromSmall := !(main.bytes > mainCapacity || small.head == NIL);
      }
      assert (fromSmall, prefer') == LooksSmall(s.View(), prefer);
      var index := if fromSmall then small.head else main.head;
      if index == NIL {
        return false, None, prefer';
      }
      open := true;
      var frequency := slots[index].frequency;
      assert frequency == At(s.View().frequency, index);
      if fromSmall {
        if frequency < S3FIFO_MOVE_TO_MAIN_THRESHOLD && index in reclaimable {
          return true, Some(index), prefer';
        }
        PromoteHead(slots, index);
      } else if frequency > 0 {
        RecycleHead(slots, index, frequency - 1);
      } else if index in reclaimable {
        return true, Some(index), prefer';
      } else {
        RecycleHead(slots, index, 0);
        prefer' := true;
      }
      victim := None;
    }

    /** Looks until a victim turns up, a queue is empty, or a bound stops the scan. */
    method SelectVictim(slots: array<PolicySlot>, remaining: nat, reclaimable: set<nat>) returns (left: nat, victim: Option<nat>)
      requires Tracks(slots)
      modifies this, small, main, links, slots
      ensures Tracks(slots)
      ensures SelectEnds(old(State(slots).View()), false, MaximumScanSteps(slots.Length), remaining, reclaimable,
                         (State(slots).View(), left, victim))
      ensures SameHashes(old(slots[..]), slots[..])
    {
      left, victim := remaining, None;
      var round, rounds := 0, MaximumScanSteps(slots.Length);
      var prefer := false;
      ghost var f := State(slots).View();
      ghost var goal := SelectGoal(f, false, rounds, remaining, reclaimable);
      while round < rounds
        invariant round <= rounds && Tracks(slots) && victim.None?
        invariant f == State(slots).View() && SelectEnds(f, prefer, rounds - round, left, reclaimable, goal)
        invariant SameHashes(old(slots[..]), slots[..])
      {
        SelectLooks(f, prefer, rounds - round, left, reclaimable, goal);
        if left == 0 {
          return;
        }
        left := left - 1;
        var open, caught, prefer' := Look(slots, prefer, reclaimable);
        if !open || caught.Some? {
          return left, caught;
        }
        f, prefer := Looked(f, prefer).0, prefer';
        round := round + 1;
      }
      SelectLooks(f, prefer, 0, left, reclaimable, goal);
    }

    method PushBack(toMain: bool, index: nat, weight: nat)
      requires small != main && index < links.Length <= NIL
      requires (small.tail == NIL || small.tail < links.Length) && (main.tail == NIL || main.tail < links.Length)
      modifies small, main, links
      ensures links[..] == Pushed(old(links[..]), if toMain then old(main.tail) else old(small.tail), index, weight)
      ensures small.View() == if toMain then old(small.View()) else PushedEnds(old(small.View()), index, weight)
      ensures main.View() == if toMain then PushedEnds(old(main.View()), index, weight) else old(main.View())
    {
      if toMain {
        main.PushBack(links, index, weight);
      } else {
        small.PushBack(links, index, weight);
      }
    }

    method RemoveFrom(fromMain: bool, index: nat) returns (weight: nat)
      requires small != main && Detachable(links[..], index)
      modifies small, main, links
      ensures links[..] == Removed(old(links[..]), index) && weight == old(links[index].weight)
      ensures small.View() == if fromMain then old(small.View()) else RemovedEnds(old(small.View()), old(links[index]))
      ensures main.View() == if fromMain then RemovedEnds(old(main.View()), old(links[index])) else old(main.View())
    {
      if fromMain {
        weight := main.Remove(links, index);
      } else {
        weight := small.Remove(links, index);
      }
    }

    /** Puts a free slot behind the queue its flag names. */
    method Push(slots: array<PolicySlot>, index: nat, slot: PolicySlot, weight: nat)
      requires Tracks(slots) && index < slots.Length && !slots[index].resident && slot.resident && 0 < weight <= U32_MAX
      modifies this, small, main, links, slots
      ensures Tracks(slots) && index < |old(links[..])| == |old(slots[..])|
      ensures State(slots) == Admitted(old(State(slots)), index, slot, weight)
    {
      ghost var s := State(slots);
      SoundBounds(s);
      AdmittedSound(s, index, slot, weight);
      ghost var goal := Admitted(s, index, slot, weight);
      slots[index] := slot;
      assert slots[..] == goal.slots;
      PushBack(slot.main, index, weight);
      assert links[..] == goal.links && main.View() == goal.main && small.View() == goal.small;
      smallItems, mainItems := goal.smallItems, goal.mainItems;
    }

    /** Admits a new entry: straight to the main queue when its eviction is remembered. */
    method Insert(slots: array<PolicySlot>, index: nat, hash: u64, weight: nat)
      requires Tracks(slots) && history.Valid() && links != history.links
      requires index < slots.Length && !slots[index].resident && 0 < weight <= U32_MAX
      modifies this, small, main, links, slots, history, history.links, history.hashes, history.directory.slots
      ensures Tracks(slots) && history.Valid() && index < |old(links[..])| == |old(slots[..])|
      ensures var (queue, hit) := TakeHint(old(history.State().Queue()), hash);
              && history.State().Queue() == queue
              && State(slots) == Admitted(old(State(slots)), index, QueuedSlot(hash, hit, 0), weight)
    {
      ghost var s := State(slots);
      var hit := history.Take(hash);
      assert State(slots) == s;
      ghost var queue := history.State();
      Push(slots, index, QueuedSlot(hash, hit, 0), weight);
      assert history.State() == queue;
    }

    /** Takes a resident out of its queue and remembers where it was. */
    method Detach(slots: array<PolicySlot>, index: nat, ghost i: nat) returns (d: Detached)
      requires Tracks(slots) && index < slots.Length && slots[index].resident
      requires State(slots).Holds(slots[index].main, i, index)
      modifies this, small, main, links, slots
      ensures Tracks(slots) && index < |old(links[..])| == |old(slots[..])|
      ensures State(slots) == Departed(old(State(slots)), old(slots[index].main), i, index)
      ensures d == old(Detached(slots[index].hash, links[index].weight, slots[index].main, slots[index].frequency))
    {
      ghost var s := State(slots);
      var slot := slots[index];
      SoundBounds(s);
      HeldDetachable(s, slot.main, i, index);
      DepartedSound(s, slot.main, i, index);
      ghost var goal := Departed(s, slot.main, i, index);
      var weight := RemoveFrom(slot.main, index);
      slots[index] := NoSlot;
      assert slots[..] == goal.slots && links[..] == goal.links && small.View() == goal.small && main.View() == goal.main;
      smallItems, mainItems := goal.smallItems, goal.mainItems;
      d := Detached(slot.hash, weight, slot.main, slot.frequency);
    }

    /** Puts a detached victim back behind the queue it came from. */
    method Restore(slots: array<PolicySlot>, index: nat, d: Detached)
      requires Tracks(slots) && index < slots.Length && !slots[index].resident && 0 < d.weight <= U32_MAX
      modifies this, small, main, links, slots
      ensures Tracks(slots) && index < |old(links[..])| == |old(slots[..])|
      ensures State(slots) == Admitted(old(State(slots)), index, QueuedSlot(d.hash, d.main, d.frequency), d.weight)
    {
      Push(slots, index, QueuedSlot(d.hash, d.main, d.frequency), d.weight);
    }

    /** Remembers a committed eviction from the small queue. */
    method CommitEviction(d: Detached)
      requires history.Valid()
      modifies history, history.links, history.hashes, history.directory.slots
      ensures history.Valid()
      ensures d.main ==> history.State().Queue() == old(history.State().Queue())
      ensures !d.main ==>
                history.State().Queue()
                == InsertHint(old(history.State().Queue()), d.hash, d.weight, history.links.Length, history.capacity,
                     Answers(old(history.directory.slots[..]), old(history.State().Queue()), d.hash, d.weight,
                             history.links.Length, history.capacity))
    {
      if !d.main {
        history.Insert(d.hash, d.weight);
      }
    }
  }
}
