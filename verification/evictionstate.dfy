/** The policy of one shard, CLOCK or S3-FIFO, behind the operations that admission uses. */
module EvictionStates {
  import opened Machine
  import opened Directory
  import opened Collect
  import opened Lists
  import opened Policies
  import opened GhostQueues
  import opened Eviction
  import opened Notes

  function MarkOf(slot: PolicySlot, fifo: bool): Mark {
    if fifo then Queued(slot.main, slot.frequency) else Visited(slot.visited)
  }

  /** The notes are about exactly the resident slots and say what the slots say. */
  ghost predicate Agrees(notes: map<nat, Note>, slots: seq<PolicySlot>, fifo: bool) {
    && (forall k :: k in notes <==> 0 <= k < |slots| && slots[k].resident)
    && (forall k :: k in notes ==>
          && notes[k].hash == slots[k].hash && notes[k].mark == MarkOf(slots[k], fifo)
          && 0 < notes[k].weight <= U32_MAX)
  }

  ghost predicate Weighs(notes: map<nat, Note>, links: seq<Link>) {
    forall k :: k in notes ==> k < |links| && links[k].weight == notes[k].weight
  }

  /** The notes after the slots' marks have changed. */
  function Refreshed(notes: map<nat, Note>, slots: seq<PolicySlot>, fifo: bool): map<nat, Note> {
    map k | k in notes :: if k < |slots| then notes[k].(mark := MarkOf(slots[k], fifo)) else notes[k]
  }

  // ----- selection -----

  /** What the two policies select from. */
  datatype Scene = ClockScene(clock: Clock) | FifoScene(queues: Fifo)

  /** Selection in this scene stops with `left` steps unused, at this victim if any, and leaves the other
      scene. */
  ghost predicate Chooses(scene: Scene, remaining: nat, reclaimable: set<nat>, scene': Scene, left: nat, victim: Option<nat>) {
    match (scene, scene')
    case (ClockScene(c), ClockScene(c')) =>
      SweepEnds(c, MaximumScanSteps(|c.residents|), remaining, reclaimable, (c', left, victim))
    case (FifoScene(f), FifoScene(f')) =>
      SelectEnds(f, false, MaximumScanSteps(|f.frequency|), remaining, reclaimable, (f', left, victim))
    case _ => false
  }

  /** What a caller needs to know of a victim. */
  predicate Chosen(notes: map<nat, Note>, reclaimable: set<nat>, victim: nat) {
    victim in notes && victim in reclaimable && Spent(notes[victim])
  }

  lemma PointersClock(slots: seq<PolicySlot>, residents: seq<nat>, hand: nat)
    requires BackPointers(slots, residents) && (residents != [] ==> hand < |residents|)
    ensures ClockOk(Clock(hand, residents, VisitedOf(slots)))
  {
  }

  /** A sweep only spends visited bits, and stops at an unvisited reclaimable resident. */
  lemma SweepEases(slots: seq<PolicySlot>, slots': seq<PolicySlot>, c: Clock, c': Clock, notes: map<nat, Note>,
                   rounds: nat, steps: nat, reclaimable: set<nat>, left: nat, victim: Option<nat>)
    requires ClockOk(c) && BackPointers(slots, c.residents) && c.visited == VisitedOf(slots) && c'.visited == VisitedOf(slots')
    requires SweepEnds(c, rounds, steps, reclaimable, (c', left, victim)) && SameButVisited(slots, slots')
    requires Agrees(notes, slots, false)
    ensures var notes' := Refreshed(notes, slots', false);
            && Agrees(notes', slots', false) && Eased(notes, notes') && left <= steps
            && (victim.Some? ==> Chosen(notes', reclaimable, victim.value))
  {
    SweepEndsIs(c, rounds, steps, reclaimable, (c', left, victim));
    SweepKeeps(c, rounds, steps, reclaimable);
    forall k | 0 <= k < |slots| ensures c'.visited[k] == slots'[k].visited && c.visited[k] == slots[k].visited {
    }
    if victim.Some? {
      var p :| 0 <= p < |c.residents| && c.residents[p] == victim.value;
    }
  }

  /** A resident of one queue. */
  lemma QueueOf(s: S3, k: nat)
    requires Eviction.Sound(s) && k < |s.slots| && s.slots[k].resident
    ensures if s.slots[k].main then k in s.mainItems && k !in s.smallItems else k in s.smallItems && k !in s.mainItems
  {
    assert s in Shares(Flags);
    Apart(s.smallItems, s.mainItems);
  }

  lemma ResidentOf(s: S3, k: nat)
    requires Eviction.Sound(s)
    ensures k in s.smallItems + s.mainItems <==> k < |s.slots| && s.slots[k].resident
  {
    assert s in Shares(Flags);
    if k in s.smallItems + s.mainItems {
      assert k in s.smallItems || k in s.mainItems;
    }
  }

  /** One resident across a selection. */
  lemma SlotEases(s: S3, s': S3, k: nat, weight: nat)
    requires Eviction.Sound(s) && Eviction.Sound(s') && Rearranged(s.View(), s'.View()) && SameHashes(s.slots, s'.slots)
    requires k < |s.slots|
    ensures s'.slots[k].resident == s.slots[k].resident && |s.links| == |s'.links| == |s.slots|
    ensures s'.links[k].weight == s.links[k].weight
    ensures s.slots[k].resident ==>
              Milder(Note(s.slots[k].hash, weight, MarkOf(s.slots[k], true)), Note(s'.slots[k].hash, weight, MarkOf(s'.slots[k], true)))
  {
    var f, f' := s.View(), s'.View();
    SoundBounds(s);
    SoundBounds(s');
    RearrangedResidents(f, f');
    ResidentOf(s, k);
    ResidentOf(s', k);
    assert f'.weight[k] == f.weight[k] && f'.frequency[k] <= f.frequency[k];
    if s.slots[k].resident {
      QueueOf(s, k);
      QueueOf(s', k);
      assert At(f'.frequency, k) == s'.slots[k].frequency && At(f.frequency, k) == s.slots[k].frequency;
    }
  }

  /** A selection only moves residents to the main queue and spends their frequencies, and stops at a
      reclaimable resident without a second chance. */
  lemma {:induction false} SelectEases(s: S3, s': S3, notes: map<nat, Note>, rounds: nat, steps: nat, reclaimable: set<nat>, left: nat, victim: Option<nat>)
    requires Eviction.Sound(s) && Eviction.Sound(s') && SameHashes(s.slots, s'.slots)
    requires SelectEnds(s.View(), false, rounds, steps, reclaimable, (s'.View(), left, victim))
    requires Agrees(notes, s.slots, true) && Weighs(notes, s.links)
    ensures var notes' := Refreshed(notes, s'.slots, true);
            && Agrees(notes', s'.slots, true) && Weighs(notes', s'.links) && Eased(notes, notes') && left <= steps
            && (victim.Some? ==> Chosen(notes', reclaimable, victim.value))
  {
    SelectEndsIs(s.View(), false, rounds, steps, reclaimable, (s'.View(), left, victim));
    SoundFifo(s);
    SelectKeeps(s.View(), false, rounds, steps, reclaimable);
    forall k | 0 <= k < |s.slots|
      ensures s'.slots[k].resident == s.slots[k].resident && |s.links| == |s'.links| == |s.slots|
      ensures s'.links[k].weight == s.links[k].weight
      ensures k in notes ==> Milder(notes[k], Refreshed(notes, s'.slots, true)[k])
    {
      SlotEases(s, s', k, if k in notes then notes[k].weight else 0);
    }
    if victim.Some? {
      VictimSpent(s.View(), false, rounds, steps, reclaimable);
      VictimSlot(s', victim.value);
    }
  }

  /** The head of a queue is a resident of that queue. */
  lemma VictimSlot(s: S3, x: nat)
    requires Eviction.Sound(s)
    requires || (s.smallItems != [] && x == s.smallItems[0] && At(s.View().frequency, x) < S3FIFO_MOVE_TO_MAIN_THRESHOLD)
             || (s.mainItems != [] && x == s.mainItems[0] && At(s.View().frequency, x) == 0)
    ensures x < |s.slots| && s.slots[x].resident
    ensures if s.slots[x].main then s.slots[x].frequency == 0 else s.slots[x].frequency < S3FIFO_MOVE_TO_MAIN_THRESHOLD
  {
    assert x in s.smallItems + s.mainItems;
    ResidentOf(s, x);
    QueueOf(s, x);
    assert At(s.View().frequency, x) == s.slots[x].frequency;
  }

  // ----- searches in vain -----

  /** A search in vain from this scene, with that many steps, leaves every note as it was. */
  predicate Quiescent(scene: Scene, steps: nat) {
    match scene
    case ClockScene(c) => ClockOk(c) && SettledHand(c, Min(MaximumScanSteps(|c.residents|), steps))
    case FifoScene(f) => SettledQueues(f, Min(MaximumScanSteps(|f.frequency|), steps))
  }

  lemma {:induction false} SweepSettled(slots: seq<PolicySlot>, slots': seq<PolicySlot>, c: Clock, c': Clock, notes: map<nat, Note>,
                                        rounds: nat, steps: nat, reclaimable: set<nat>, left: nat)
    requires ClockOk(c) && BackPointers(slots, c.residents) && c.visited == VisitedOf(slots) && c'.visited == VisitedOf(slots')
    requires SweepEnds(c, rounds, steps, reclaimable, (c', left, None)) && SameButVisited(slots, slots')
    requires Agrees(notes, slots, false)
    ensures Refreshed(notes, slots', false) == notes <==> SettledHand(c, Min(rounds, steps))
  {
    SweepUnmoved(c, rounds, steps, reclaimable, (c', left, None));
    assert forall k :: 0 <= k < |slots| ==> c'.visited[k] == slots'[k].visited && c.visited[k] == slots[k].visited;
    if Refreshed(notes, slots', false) == notes {
      forall k | 0 <= k < |slots| ensures c'.visited[k] == c.visited[k] {
        if k in notes {
          assert Refreshed(notes, slots', false)[k] == notes[k];
        } else {
          assert k !in c.residents;
          SweepElsewhere(c, rounds, steps, reclaimable, k, (c', left, None));
        }
      }
    }
  }

  /** Slot x keeps its queue and its frequency. */
  predicate SameQueue(s: S3, s': S3, x: nat) {
    && (x in s.smallItems ==> x in s'.smallItems) && (x in s.mainItems ==> x !in s'.smallItems)
    && At(s'.View().frequency, x) == At(s.View().frequency, x)
  }

  lemma {:induction false} SelectSettled(s: S3, s': S3, notes: map<nat, Note>, rounds: nat, steps: nat, reclaimable: set<nat>, left: nat)
    requires Eviction.Sound(s) && Eviction.Sound(s') && SameHashes(s.slots, s'.slots)
    requires SelectEnds(s.View(), false, rounds, steps, reclaimable, (s'.View(), left, None))
    requires Agrees(notes, s.slots, true) && Agrees(Refreshed(notes, s'.slots, true), s'.slots, true)
    ensures Refreshed(notes, s'.slots, true) == notes <==> SettledQueues(s.View(), Min(rounds, steps))
  {
    SoundFifo(s);
    SelectUnmoved(s.View(), rounds, steps, reclaimable, (s'.View(), left, None));
    var notes' := Refreshed(notes, s'.slots, true);
    if notes' == notes {
      forall x | x in s.smallItems || x in s.mainItems ensures SameQueue(s, s', x) {
        ResidentOf(s, x);
        assert x in notes && notes'[x] == notes[x];
        QueueOf(s, x);
        QueueOf(s', x);
      }
      assert Unchanged(s.View(), s'.View());
    }
    if Unchanged(s.View(), s'.View()) {
      forall x | x in notes ensures notes'[x] == notes[x] {
        QueueOf(s, x);
        QueueOf(s', x);
        assert SameQueue(s, s', x);
      }
    }
  }

  lemma {:induction false} SelectNotes(s: S3, s': S3, notes: map<nat, Note>, rounds: nat, steps: nat, reclaimable: set<nat>, left: nat, victim: Option<nat>)
    requires Eviction.Sound(s) && Eviction.Sound(s') && SameHashes(s.slots, s'.slots)
    requires SelectEnds(s.View(), false, rounds, steps, reclaimable, (s'.View(), left, victim))
    requires Agrees(notes, s.slots, true) && Weighs(notes, s.links)
    ensures var notes' := Refreshed(notes, s'.slots, true);
            && Agrees(notes', s'.slots, true) && Weighs(notes', s'.links) && Eased(notes, notes') && left <= steps
            && (victim.Some? ==> Chosen(notes', reclaimable, victim.value))
            && (victim.None? ==> (notes' == notes <==> SettledQueues(s.View(), Min(rounds, steps))))
  {
    SelectEases(s, s', notes, rounds, steps, reclaimable, left, victim);
    if victim.None? {
      SelectSettled(s, s', notes, rounds, steps, reclaimable, left);
    }
  }

  // ----- residents come and go -----

  lemma AgreesPut(notes: map<nat, Note>, slots: seq<PolicySlot>, index: nat, slot: PolicySlot, weight: nat, fifo: bool)
    requires Agrees(notes, slots, fifo) && index < |slots| && slot.resident && 0 < weight <= U32_MAX
    ensures Agrees(notes[index := Note(slot.hash, weight, MarkOf(slot, fifo))], slots[index := slot], fifo)
  {
  }

  lemma AgreesDrop(notes: map<nat, Note>, slots: seq<PolicySlot>, slots': seq<PolicySlot>, index: nat, fifo: bool)
    requires Agrees(notes, slots, fifo) && index < |slots| == |slots'| && slots'[index] == NoSlot
    requires forall k :: 0 <= k < |slots| && k != index ==> slots'[k] == slots[k].(position := slots'[k].position)
    ensures Agrees(notes - {index}, slots', fifo)
  {
  }

  /** A resident joins the back of a queue. */
  lemma {:induction false} JoinAgrees(notes: map<nat, Note>, s: S3, index: nat, slot: PolicySlot, weight: nat)
    requires Eviction.Sound(s) && index < |s.slots| && !s.slots[index].resident && slot.resident && 0 < weight <= U32_MAX
    requires Agrees(notes, s.slots, true) && Weighs(notes, s.links)
    ensures index < |s.links| == |s.slots|
    ensures var notes', s' := notes[index := Note(slot.hash, weight, MarkOf(slot, true))], Eviction.Admitted(s, index, slot, weight);
            Agrees(notes', s'.slots, true) && Weighs(notes', s'.links)
  {
    SoundBounds(s);
    AdmittedQueues(s, index, slot, weight);
    AgreesPut(notes, s.slots, index, slot, weight, true);
  }

  /** A resident leaves its queue. */
  lemma {:induction false} LeaveAgrees(notes: map<nat, Note>, s: S3, index: nat, i: nat)
    requires Eviction.Sound(s) && index < |s.slots| && s.slots[index].resident && s.Holds(s.slots[index].main, i, index)
    requires Agrees(notes, s.slots, true) && Weighs(notes, s.links)
    ensures index < |s.links| == |s.slots|
    ensures var notes', s' := notes - {index}, Departed(s, s.slots[index].main, i, index);
            Agrees(notes', s'.slots, true) && Weighs(notes', s'.links)
  {
    DepartedQueues(s, s.slots[index].main, i, index);
    AgreesDrop(notes, s.slots, s.slots[index := NoSlot], index, true);
  }

  /** Counting a hit changes one note. */
  lemma TouchAgrees(notes: map<nat, Note>, s: S3, index: nat, slot: PolicySlot)
    requires Eviction.Sound(s) && Agrees(notes, s.slots, true) && Weighs(notes, s.links) && index in notes
    requires slot == s.slots[index].(frequency := slot.frequency) && MarkOf(slot, true) == Touched(notes[index]).mark
    ensures var notes' := notes[index := Touched(notes[index])];
            Eviction.Sound(s.(slots := s.slots[index := slot])) && Agrees(notes', s.slots[index := slot], true) && Weighs(notes', s.links)
  {
    TouchedSound(s, index, slot);
    AgreesPut(notes, s.slots, index, slot, notes[index].weight, true);
  }

  /** Counting a hit leaves the queues alone. */
  lemma TouchedSound(s: S3, index: nat, slot: PolicySlot)
    requires Eviction.Sound(s) && index < |s.slots| && slot == s.slots[index].(frequency := slot.frequency)
    ensures Eviction.Sound(s.(slots := s.slots[index := slot]))
  {
    assert s in Shares(Queues) && s in Shares(Flags);
    var s' := s.(slots := s.slots[index := slot]);
    assert Flagged(s'.slots, s'.links, s'.smallItems, s'.mainItems);
    SoundIs(s');
  }

  /** What a policy remembers of evicted entries: the hints, their directory, and the two bounds. */
  datatype Recall = Recall(queue: seq<Hint>, slots: seq<Slot>, entries: nat, capacity: nat)

  /** The hints once the eviction of this resident is final: S3-FIFO remembers it if it left the small
      queue and the directory takes it. */
  ghost function Recorded(r: Recall, note: Note): seq<Hint> {
    if note.mark.Visited? || note.mark.main then r.queue
    else
      InsertHint(r.queue, note.hash, note.weight, r.entries, r.capacity,
                 Answers(r.slots, r.queue, note.hash, note.weight, r.entries, r.capacity))
  }

  /** The history after each of the listed evictions; the first `silently` of them are not recorded. */
  ghost predicate Recounts(memories: seq<Recall>, list: seq<nat>, silently: nat, notes: map<nat, Note>) {
    && |memories| == |list| + 1
    && forall n :: 0 <= n < |list| ==> Follows(memories, n, list[n], n >= silently, notes)
  }

  ghost predicate Follows(memories: seq<Recall>, n: nat, k: nat, record: bool, notes: map<nat, Note>)
    requires n + 1 < |memories|
  {
    && k in notes
    && if record then memories[n + 1].queue == Recorded(memories[n], notes[k]) else memories[n + 1] == memories[n]
  }

  lemma RecountsMore(memories: seq<Recall>, list: seq<nat>, silently: nat, notes: map<nat, Note>, k: nat, last: Recall)
    requires Recounts(memories, list, silently, notes) && k in notes
    requires if |list| >= silently then last.queue == Recorded(memories[|list|], notes[k]) else last == memories[|list|]
    ensures Recounts(memories + [last], list + [k], silently, notes)
  {
    forall n | 0 <= n < |list + [k]| ensures Follows(memories + [last], n, (list + [k])[n], n >= silently, notes) {
      if n < |list| {
        assert Follows(memories, n, list[n], n >= silently, notes);
      }
    }
  }

  datatype Policy = ClockPolicy(clock: ClockState) | FifoPolicy(fifo: S3FifoState)

  /** The objects that hold the state of a policy. */
  ghost function PartsOf(policy: Policy): set<object> {
    match policy
    case ClockPolicy(c) => {c}
    case FifoPolicy(f) => {f, f.small, f.main, f.links, f.history, f.history.links, f.history.hashes, f.history.directory.slots}
  }

  /** The policy tracks nobody and remembers nothing. */
  ghost predicate Blank(policy: Policy, slots: array<PolicySlot>)
    reads PartsOf(policy), slots
  {
    && (forall k :: 0 <= k < slots.Length ==> !slots[k].resident)
    && match policy
       case ClockPolicy(c) => c.Tracks(slots)
       case FifoPolicy(f) =>
         f.Tracks(slots) && f.history.Valid() && f.links != f.history.links && f.history.State().Queue() == []
  }

  method NewFifo(capacityBytes: nat, maximumEntries: nat) returns (state: EvictionState)
    requires maximumEntries <= DELETED_VALUE
    ensures state.Valid() && state.notes == map[] && state.History() == [] && fresh(state.Repr) && fresh(state)
    ensures state.policy.FifoPolicy? && state.slots.Length == maximumEntries
  {
    var slots := new PolicySlot[maximumEntries](_ => NoSlot);
    var fifo := new S3FifoState(capacityBytes, slots);
    state := new EvictionState(FifoPolicy(fifo), slots, {slots} + PartsOf(FifoPolicy(fifo)));
  }

  method NewClock(maximumEntries: nat) returns (state: EvictionState)
    ensures state.Valid() && state.notes == map[] && state.History() == [] && fresh(state.Repr) && fresh(state)
    ensures state.policy.ClockPolicy? && state.slots.Length == maximumEntries
  {
    var slots := new PolicySlot[maximumEntries](_ => NoSlot);
    var clock := new ClockState();
    state := new EvictionState(ClockPolicy(clock), slots, {slots} + PartsOf(ClockPolicy(clock)));
  }

  /** The policy that a shard is configured with. */
  method NewPolicy(fifo: bool, capacityBytes: nat, maximumEntries: nat) returns (state: EvictionState)
    requires maximumEntries <= DELETED_VALUE
    ensures state.Valid() && state.notes == map[] && state.History() == [] && fresh(state.Repr) && fresh(state)
    ensures state.policy.FifoPolicy? == fifo && state.slots.Length == maximumEntries
  {
    if fifo {
      state := NewFifo(capacityBytes, maximumEntries);
    } else {
      state := NewClock(maximumEntries);
    }
  }

  /** The policy of a shard with its slot metadata.  `notes` is what it stands for: the residents it
      tracks and how well each is protected. */
  class EvictionState {
    const policy: Policy
    const slots: array<PolicySlot>
    ghost const Repr: set<object>
    ghost var notes: map<nat, Note>

    /** Everything the policy is stored in. */
    ghost predicate Owned() {
      {this, slots} <= Repr && PartsOf(policy) <= Repr
    }

    ghost predicate Consistent()
      reads this, Repr
    {
      && Owned() && Agrees(notes, slots[..], policy.FifoPolicy?)
      && match policy
         case ClockPolicy(c) => c.Tracks(slots)
         case FifoPolicy(f) =>
           f.Tracks(slots) && f.history.Valid() && f.links != f.history.links && Weighs(notes, f.links[..])
    }

    ghost predicate Holds(veil: Veil)
      reads this, Repr
    {
      match veil
      case Veil => Consistent()
    }

    /** The invariant.  Proofs open it by mentioning it. */
    ghost predicate Valid()
      reads this, Repr
    {
      forall veil {:trigger Holds(veil)} :: Holds(veil)
    }

    lemma ValidIs()
      ensures Valid() <==> Consistent()
    {
      assert Holds(Veil) <==> Consistent();
      forall veil ensures Holds(veil) <==> Holds(Veil) {
        match veil
        case Veil =>
      }
    }

    ghost function Scenery(): Scene
      reads this, Repr
    {
      if !Owned() then ClockScene(Clock(0, [], []))
      else
        match policy
        case ClockPolicy(c) => ClockScene(c.View(slots))
        case FifoPolicy(f) => FifoScene(f.State(slots).View())
    }

    /** The scene of a CLOCK policy shows the notes. */
    lemma ClockNotes()
      requires Valid() && policy.ClockPolicy?
      ensures forall k :: k in notes ==> notes[k].mark.Visited?
      ensures Scenery().ClockScene? && ClockOk(Scenery().clock)
      ensures forall k :: k in Scenery().clock.residents <==> k in notes
      ensures forall k :: k in notes ==> k < |Scenery().clock.visited| && Scenery().clock.visited[k] == notes[k].mark.visited
    {
      ValidIs();
      var c := policy.clock;
      PointersClock(slots[..], c.residents, c.hand);
      forall k ensures k in c.residents <==> k in notes {
        if k in notes {
          assert c.residents[slots[k].position] == k;
        }
      }
    }

    /** The remembered evictions. */
    ghost function History(): seq<Hint>
      reads this, Repr
    {
      if policy.FifoPolicy? && Owned() then policy.fifo.history.State().Queue() else []
    }

    /** The history with the directory that finds its hints. */
    ghost function Recalled(): Recall
      reads this, Repr
    {
      if policy.FifoPolicy? && Owned() then
        var h := policy.fifo.history;
        Recall(h.State().Queue(), h.directory.slots[..], h.links.Length, h.capacity)
      else Recall([], [], 0, 0)
    }

    /** The note belongs to this kind of policy. */
    predicate Suits(note: Note) {
      note.mark.Queued? == policy.FifoPolicy?
    }

    constructor (policy: Policy, slots: array<PolicySlot>, ghost parts: set<object>)
      requires slots in parts && PartsOf(policy) <= parts && Blank(policy, slots)
      ensures Valid() && notes == map[] && History() == [] && this.policy == policy && this.slots == slots && Repr == {this} + parts
    {
      this.policy, this.slots := policy, slots;
      notes := map[];
      Repr := {this} + parts;
      new;
      ValidIs();
    }

    /** How a new entry enters: CLOCK gives it no free chance, S3-FIFO puts it into the main queue if its
        eviction is remembered. */
    ghost function Entrance(hash: u64): Mark
      reads this, Repr
    {
      if policy.ClockPolicy? then Visited(false) else Queued(TakeHint(History(), hash).1, 0)
    }

    method Insert(index: nat, hash: u64, weight: nat)
      requires Valid() && index < slots.Length && index !in notes && 0 < weight <= U32_MAX
      modifies Repr
      ensures Valid() && notes == old(notes)[index := Note(hash, weight, old(Entrance(hash)))]
      ensures policy.FifoPolicy? ==> History() == TakeHint(old(History()), hash).0
    {
      ValidIs();
      match policy {
        case ClockPolicy(c) => InsertClock(c, index, hash, weight, false);
        case FifoPolicy(f) => InsertFifo(f, index, hash, weight);
      }
      ValidIs();
    }

    method InsertClock(c: ClockState, index: nat, hash: u64, weight: nat, visited: bool)
      requires Consistent() && policy == ClockPolicy(c) && index < slots.Length && index !in notes && 0 < weight <= U32_MAX
      modifies Repr
      ensures Consistent() && notes == old(notes)[index := Note(hash, weight, Visited(visited))]
    {
      ghost var before := slots[..];
      c.Insert(slots, index, hash, visited);
      AgreesPut(notes, before, index, slots[index], weight, false);
      notes := notes[index := Note(hash, weight, Visited(visited))];
    }

    method InsertFifo(f: S3FifoState, index: nat, hash: u64, weight: nat)
      requires Consistent() && policy == FifoPolicy(f) && index < slots.Length && index !in notes && 0 < weight <= U32_MAX
      modifies Repr
      ensures Consistent()
      ensures var (queue, hit) := TakeHint(old(History()), hash);
              History() == queue && notes == old(notes)[index := Note(hash, weight, Queued(hit, 0))]
    {
      ghost var s, hit := f.State(slots), TakeHint(History(), hash).1;
      JoinAgrees(notes, s, index, QueuedSlot(hash, hit, 0), weight);
      f.Insert(slots, index, hash, weight);
      notes := notes[index := Note(hash, weight, Queued(hit, 0))];
    }

    /** Puts a detached resident back behind the queue it came from; CLOCK marks it visited. */
    method Restore(index: nat, note: Note)
      requires Valid() && index < slots.Length && index !in notes && Suits(note) && 0 < note.weight <= U32_MAX
      modifies Repr
      ensures Valid() && notes == old(notes)[index := Notes.Returned(note)] && History() == old(History())
    {
      ValidIs();
      match policy {
        case ClockPolicy(c) => InsertClock(c, index, note.hash, note.weight, true);
        case FifoPolicy(f) => RestoreFifo(f, index, note);
      }
      ValidIs();
    }

    method RestoreFifo(f: S3FifoState, index: nat, note: Note)
      requires Consistent() && policy == FifoPolicy(f) && index < slots.Length && index !in notes && Suits(note)
      requires 0 < note.weight <= U32_MAX
      modifies Repr
      ensures Consistent() && notes == old(notes)[index := note] && History() == old(History())
    {
      ghost var s := f.State(slots);
      var d := Detached(note.hash, note.weight, note.mark.main, note.mark.frequency);
      JoinAgrees(notes, s, index, QueuedSlot(d.hash, d.main, d.frequency), d.weight);
      f.Restore(slots, index, d);
      notes := notes[index := note];
    }

    /** Takes a resident away from the policy and remembers what it knew.  `weight` is its charge. */
    method Detach(index: nat, weight: nat) returns (note: Note)
      requires Valid() && index in notes && weight == notes[index].weight
      modifies Repr
      ensures Valid() && note == old(notes[index]) && notes == old(notes) - {index} && History() == old(History())
      ensures Suits(note)
    {
      ValidIs();
      match policy {
        case ClockPolicy(c) => note := DetachClock(c, index, weight);
        case FifoPolicy(f) => note := DetachFifo(f, index);
      }
      ValidIs();
    }

    method DetachClock(c: ClockState, index: nat, weight: nat) returns (note: Note)
      requires Consistent() && policy == ClockPolicy(c) && index in notes && weight == notes[index].weight
      modifies Repr
      ensures Consistent() && note == old(notes[index]) && notes == old(notes) - {index} && note.mark.Visited?
    {
      ghost var before := slots[..];
      note := Note(slots[index].hash, weight, Visited(slots[index].visited));
      c.Remove(slots, index);
      AgreesDrop(notes, before, slots[..], index, false);
      notes := notes - {index};
    }

    method DetachFifo(f: S3FifoState, index: nat) returns (note: Note)
      requires Consistent() && policy == FifoPolicy(f) && index in notes
      modifies Repr
      ensures Consistent() && note == old(notes[index]) && notes == old(notes) - {index} && History() == old(History())
      ensures note.mark.Queued?
    {
      ghost var s := f.State(slots);
      ghost var i := ResidentHeld(s, index);
      LeaveAgrees(notes, s, index, i);
      var d := f.Detach(slots, index, i);
      note := Note(d.hash, d.weight, Queued(d.main, d.frequency));
      notes := notes - {index};
    }

    /** Counts a hit. */
    method RecordHit(index: nat)
      requires Valid() && index in notes
      modifies Repr
      ensures Valid() && notes == old(notes)[index := Touched(old(notes[index]))] && History() == old(History())
    {
      ValidIs();
      match policy {
        case ClockPolicy(c) => HitClock(c, index);
        case FifoPolicy(f) => HitFifo(f, index);
      }
      ValidIs();
    }

    method HitClock(c: ClockState, index: nat)
      requires Consistent() && policy == ClockPolicy(c) && index in notes
      modifies Repr
      ensures Consistent() && notes == old(notes)[index := old(notes[index]).(mark := Visited(true))]
    {
      ghost var before := slots[..];
      slots[index] := slots[index].(visited := true);
      assert slots[..] == before[index := slots[index]];
      AgreesPut(notes, before, index, slots[index], notes[index].weight, false);
      notes := notes[index := notes[index].(mark := Visited(true))];
    }

    method HitFifo(f: S3FifoState, index: nat)
      requires Consistent() && policy == FifoPolicy(f) && index in notes
      modifies Repr
      ensures Consistent() && notes == old(notes)[index := Touched(old(notes[index]))] && History() == old(History())
    {
      ghost var s, before := f.State(slots), slots[..];
      var frequency := slots[index].frequency;
      if frequency < S3FIFO_MAX_FREQUENCY {
        frequency := frequency + 1;
      }
      ghost var slot := s.slots[index].(frequency := frequency);
      TouchAgrees(notes, s, index, slot);
      slots[index] := slots[index].(frequency := frequency);
      assert slots[..] == before[index := slot];
      assert f.State(slots) == s.(slots := before[index := slot]);
      notes := notes[index := Touched(notes[index])];
    }

    /** Looks for a reclaimable resident without a second chance, within the steps that remain. */
    method SelectVictim(remaining: nat, reclaimable: set<nat>) returns (left: nat, victim: Option<nat>)
      requires Valid()
      modifies Repr
      ensures Valid() && Eased(old(notes), notes) && History() == old(History()) && left <= remaining
      ensures Chooses(old(Scenery()), remaining, reclaimable, Scenery(), left, victim)
      ensures victim.Some? ==> Chosen(notes, reclaimable, victim.value)
      ensures victim.None? ==> (notes == old(notes) <==> Quiescent(old(Scenery()), remaining))
    {
      ValidIs();
      match policy {
        case ClockPolicy(c) => left, victim := SweepVictim(c, remaining, reclaimable);
        case FifoPolicy(f) => left, victim := QueueVictim(f, remaining, reclaimable);
      }
      ValidIs();
    }

    method SweepVictim(c: ClockState, remaining: nat, reclaimable: set<nat>) returns (left: nat, victim: Option<nat>)
      requires Consistent() && policy == ClockPolicy(c)
      modifies Repr
      ensures Consistent() && Eased(old(notes), notes) && left <= remaining
      ensures Chooses(old(Scenery()), remaining, reclaimable, Scenery(), left, victim)
      ensures victim.Some? ==> Chosen(notes, reclaimable, victim.value)
      ensures victim.None? ==> (notes == old(notes) <==> Quiescent(old(Scenery()), remaining))
    {
      ghost var before, scene := slots[..], c.View(slots);
      PointersClock(before, c.residents, c.hand);
      left, victim := c.SelectVictim(slots, remaining, reclaimable);
      SweepEases(before, slots[..], scene, c.View(slots), notes, MaximumScanSteps(|c.residents|), remaining, reclaimable, left, victim);
      if victim.None? {
        SweepSettled(before, slots[..], scene, c.View(slots), notes, MaximumScanSteps(|c.residents|), remaining, reclaimable, left);
      }
      notes := Refreshed(notes, slots[..], false);
    }

    method QueueVictim(f: S3FifoState, remaining: nat, reclaimable: set<nat>) returns (left: nat, victim: Option<nat>)
      requires Consistent() && policy == FifoPolicy(f)
      modifies Repr
      ensures Consistent() && Eased(old(notes), notes) && History() == old(History()) && left <= remaining
      ensures Chooses(old(Scenery()), remaining, reclaimable, Scenery(), left, victim)
      ensures victim.Some? ==> Chosen(notes, reclaimable, victim.value)
      ensures victim.None? ==> (notes == old(notes) <==> Quiescent(old(Scenery()), remaining))
    {
      ghost var s := f.State(slots);
      left, victim := f.SelectVictim(slots, remaining, reclaimable);
      SelectNotes(s, f.State(slots), notes, MaximumScanSteps(slots.Length), remaining, reclaimable, left, victim);
      notes := Refreshed(notes, slots[..], true);
    }

    /** The history once the eviction of a detached resident is final. */
    ghost function Remembering(note: Note): seq<Hint>
      reads this, Repr
    {
      Recorded(Recalled(), note)
    }

    /** Makes the eviction of a detached resident final: S3-FIFO remembers it if it left the small queue. */
    method CommitEviction(note: Note)
      requires Valid() && Suits(note)
      modifies Repr
      ensures Valid() && notes == old(notes) && History() == old(Remembering(note))
    {
      ValidIs();
      match policy {
        case ClockPolicy(_) =>
        case FifoPolicy(f) =>
          f.CommitEviction(Detached(note.hash, note.weight, note.mark.main, note.mark.frequency));
      }
      ValidIs();
    }
  }
}
