/** The L1 shard with its arrays: lookup within bounded chains, eviction, transactional admission and
    publication, proved against the map the shard stands for. */
module Memory {
  import opened Machine
  import opened Collect
  import opened Directory
  import opened Lists
  import opened Tables
  import opened Charges
  import opened Shards
  import opened Admission
  import opened Clearings
  import opened Notes
  import opened EvictionStates
  import Policies
  import Sums

  /** The chain of a fingerprint as a cursor walks it. */
  lemma ChainWalk(t: Table, fp: u32, i: nat)
    requires Tables.Sound(t) && fp in t.chains && i < |t.chains[fp]|
    ensures fp in t.heads && 0 < |t.chains[fp]| <= MAX_SAME_HASH_ENTRIES && t.heads[fp] == t.chains[fp][0]
    ensures |t.slots| == |t.hashes| <= DELETED_VALUE
    ensures Resident(t, t.chains[fp][i])
    ensures var next := t.slots[t.chains[fp][i]].value.next;
            if i + 1 == |t.chains[fp]| then next == NIL else next == t.chains[fp][i + 1] < |t.slots|
  {
    assert t in Tabled(Linked) && t in Tabled(Shaped);
    assert ChainOk(t, fp) && LinkAt(t, fp, t.chains[fp], i);
    assert i + 1 < |t.chains[fp]| ==> LinkAt(t, fp, t.chains[fp], i + 1);
  }

  lemma HeadsAreChains(t: Table, fp: u32)
    requires Tables.Sound(t)
    ensures fp in t.heads <==> fp in t.chains
    ensures fp in t.chains ==> |t.chains[fp]| > 0
  {
    assert t in Tabled(Linked);
    assert fp in t.chains ==> ChainOk(t, fp);
  }

  predicate Misses(t: Table, k: nat, hash: u64, key: seq<nat>) {
    !(Resident(t, k) && IdAt(t, k) == (hash, key))
  }

  lemma TableOf(sh: Shard)
    requires Good(sh)
    ensures Tables.Sound(sh.table)
  {
    assert sh in Lawful(Law.Residents);
  }

  /** The first n members of a chain do not have the key. */
  predicate MissesUpTo(t: Table, c: seq<nat>, n: nat, hash: u64, key: seq<nat>)
    requires n <= |c|
  {
    forall i :: 0 <= i < n ==> Misses(t, c[i], hash, key)
  }

  lemma MissNext(t: Table, c: seq<nat>, n: nat, hash: u64, key: seq<nat>)
    requires n < |c| && MissesUpTo(t, c, n, hash, key) && Misses(t, c[n], hash, key)
    ensures MissesUpTo(t, c, n + 1, hash, key)
  {
  }

  /** A key that no member of its chain has is not cached. */
  lemma NotCached(t: Table, hash: u64, key: seq<nat>)
    requires Tables.Sound(t)
    requires Fingerprint(hash) in t.chains ==>
               MissesUpTo(t, t.chains[Fingerprint(hash)], |t.chains[Fingerprint(hash)]|, hash, key)
    ensures (hash, key) !in Contents(t)
  {
    if (hash, key) in Contents(t) {
      var k := Tables.SlotOf(t, (hash, key));
      var i := InChain(t, k);
    }
  }

  class MemoryShard {
    const slots: array<Option<Entry>>
    const hashes: array<u64>
    const directory: FixedPrehashedMap
    const eviction: EvictionState
    var free: seq<nat>
    var residentBytes: nat
    var detached: map<nat, Note>
    var ledger: Ledger
    ghost var chains: map<u32, seq<nat>>

    ghost function Residents(): Table
      reads this`chains, slots, hashes, directory.slots
    {
      Table(slots[..], hashes[..], directory.Model(), chains)
    }

    ghost function Listed(): Listing
      reads this`chains, slots, hashes, directory.slots
    {
      Listing(Residents(), directory.slots[..])
    }

    ghost function State(): Shard
      reads this, slots, hashes, directory.slots, eviction
    {
      Shard(Residents(), free, residentBytes, eviction.notes, detached, ledger)
    }

    ghost function Footprint(): set<object> {
      {this, slots, hashes, directory.slots} + eviction.Repr
    }

    /** The policy is consistent, has one slot per entry, and shares no state with the rest. */
    ghost predicate Policed()
      reads this`detached, eviction, eviction.Repr
    {
      && this !in eviction.Repr && slots !in eviction.Repr && hashes !in eviction.Repr && directory.slots !in eviction.Repr
      && eviction.slots.Length == slots.Length && eviction.Valid()
      && forall k :: k in detached ==> eviction.Suits(detached[k])
    }

    /** The invariant, also while an admission is under way. */
    ghost predicate Working()
      reads this, slots, hashes, directory.slots, eviction
    {
      directory.Valid() && Good(State())
    }

    ghost predicate Valid()
      reads Footprint(), eviction
    {
      && directory.Valid() && Policed() && Committing(State(), {}, {}) && detached == map[] && ledger.hand.None?
    }

    constructor (capacity: nat, maximumEntries: nat, fifo: bool)
      requires maximumEntries <= DELETED_VALUE
      ensures Valid() && Contents(Residents()) == map[] && ledger == Ledger(capacity, 0, [], None)
      ensures |free| == maximumEntries && forall i :: 0 <= i < maximumEntries ==> free[i] == i
      ensures |directory.slots[..]| == 2 * maximumEntries && forall i :: 0 <= i < 2 * maximumEntries ==> directory.slots[..][i] == DefaultSlot
      ensures fresh(Footprint()) && chains == map[] && eviction.policy.FifoPolicy? == fifo
    {
      slots := new Option<Entry>[maximumEntries](_ => None);
      hashes := new u64[maximumEntries](_ => 0);
      directory := new FixedPrehashedMap(maximumEntries);
      var policy := NewPolicy(fifo, capacity, maximumEntries);
      eviction := policy;
      free := seq(maximumEntries, i => i);
      residentBytes, detached := 0, map[];
      ledger := Ledger(capacity, 0, [], None);
      chains := map[];
      new;
      ghost var sh := State();
      assert sh == Shard(Table(slots[..], hashes[..], map[], map[]), free, 0, map[], map[], ledger);
      EmptyGood(sh);
      TidyCommitting(sh);
    }

    /** Finds the slot of a key within the eight steps its chain may have. */
    method Find(hash: u64, key: seq<nat>) returns (found: Option<nat>)
      requires Working()
      ensures found.Some? <==> (hash, key) in Contents(Residents())
      ensures found.Some? ==> Resident(Residents(), found.value) && IdAt(Residents(), found.value) == (hash, key)
    {
      ghost var t, fp := Residents(), Fingerprint(hash);
      TableOf(State());
      HeadsAreChains(t, fp);
      var head := directory.Get(hash);
      if head.None? {
        NotCached(t, hash, key);
        return None;
      }
      ghost var c := t.chains[fp];
      ChainWalk(t, fp, 0);
      var cursor: nat := head.value;
      for step := 0 to MAX_SAME_HASH_ENTRIES
        invariant step < |c| && cursor == c[step] && cursor < slots.Length
        invariant MissesUpTo(t, c, step, hash, key)
      {
        ChainWalk(t, fp, step);
        var entry := slots[cursor].value;
        if hashes[cursor] == hash && entry.item.key == key {
          ContentsAt(t, cursor);
          return Some(cursor);
        }
        MissNext(t, c, step, hash, key);
        if entry.next == NIL {
          assert step + 1 == |c|;
          NotCached(t, hash, key);
          return None;
        }
        cursor := entry.next;
      }
      assert false;
    }

    /** Whether a new entry of this hash would make its chain longer than eight. */
    method HashChainIsFull(hash: u64) returns (full: bool)
      requires Working()
      ensures full <==> Fingerprint(hash) in chains && |chains[Fingerprint(hash)]| == MAX_SAME_HASH_ENTRIES
    {
      ghost var t, fp := Residents(), Fingerprint(hash);
      TableOf(State());
      HeadsAreChains(t, fp);
      var head := directory.Get(hash);
      if head.None? {
        return false;
      }
      ghost var c := t.chains[fp];
      ChainWalk(t, fp, 0);
      var cursor: nat := head.value;
      for depth := 0 to MAX_SAME_HASH_ENTRIES
        invariant depth < |c| && cursor == c[depth] && cursor < slots.Length
      {
        ChainWalk(t, fp, depth);
        var entry := slots[cursor].value;
        if entry.next == NIL {
          return depth + 1 == MAX_SAME_HASH_ENTRIES;
        }
        cursor := entry.next;
      }
      assert false;
    }

    /** Takes an entry out of its slot and its chain. */
    method Unchain(index: nat, hash: u64, predecessor: Option<nat>, ghost i: nat) returns (entry: Entry)
      requires directory.Valid() && HasLink(Residents(), Fingerprint(hash), i) && chains[Fingerprint(hash)][i] == index
      requires Fingerprint(hash) in directory.Model()
      requires predecessor == if i == 0 then None else Some(chains[Fingerprint(hash)][i - 1])
      modifies this`chains, slots, hashes, directory.slots
      ensures directory.Valid() && Residents() == Removing(old(Residents()), Fingerprint(hash), i)
      ensures old(slots[index]) == Some(entry)
      ensures Spares(old(directory.slots[..]), directory.slots[..])
      ensures directory.slots[..] == Relisted(old(directory.slots[..]), Fingerprint(hash), old(chains)[Fingerprint(hash)], i)
    {
      ghost var t, fp := Residents(), Fingerprint(hash);
      ghost var goal := Removing(t, fp, i);
      entry := slots[index].value;
      Bypass(hash, entry.next, predecessor);
      assert directory.Model() == goal.heads;
      ghost var bridged := slots[..];
      slots[index] := None;
      assert slots[..] == bridged[index := None];
      hashes[index] := 0;
      assert hashes[..] == goal.hashes;
      chains := goal.chains;
    }

    /** Unlinks a detached entry from its chain and frees its slot; its allocation, with a transferred
        charge disarmed, passes to the caller. */
    method RemoveSlotAfterPolicy(index: nat, hash: u64, transfer: bool, ghost i: nat) returns (cell: nat)
      requires Working() && CanEvict(State(), Fingerprint(hash), i) && chains[Fingerprint(hash)][i] == index
      requires transfer == ledger.cells[slots[index].value.cell].owed
      modifies this, slots, hashes, directory.slots
      ensures Working() && State() == Evicted(old(State()), Fingerprint(hash), i)
      ensures cell == old(slots[index].value.cell)
      ensures Spares(old(directory.slots[..]), directory.slots[..])
      ensures directory.slots[..] == Relisted(old(directory.slots[..]), Fingerprint(hash), old(chains)[Fingerprint(hash)], i)
    {
      ghost var sh, fp := State(), Fingerprint(hash);
      EvictedGood(sh, fp, i);
      EvictedLedger(sh, fp, i);
      HeadsAreChains(sh.table, fp);
      var predecessor := FindPredecessor(index, hash, i);
      cell := Depart(index, hash, predecessor, transfer, i);
    }

    method Depart(index: nat, hash: u64, predecessor: Option<nat>, transfer: bool, ghost i: nat) returns (cell: nat)
      requires directory.Valid() && HasLink(Residents(), Fingerprint(hash), i) && chains[Fingerprint(hash)][i] == index
      requires Fingerprint(hash) in directory.Model()
      requires predecessor == if i == 0 then None else Some(chains[Fingerprint(hash)][i - 1])
      requires var c := slots[index].value.cell;
               c < |ledger.cells| && ledger.cells[c].resident && !ledger.cells[c].local && transfer == ledger.cells[c].owed
      modifies this, slots, hashes, directory.slots
      ensures directory.Valid() && State() == Evicted(old(State()), Fingerprint(hash), i)
      ensures cell == old(slots[index].value.cell)
      ensures Spares(old(directory.slots[..]), directory.slots[..])
      ensures directory.slots[..] == Relisted(old(directory.slots[..]), Fingerprint(hash), old(chains)[Fingerprint(hash)], i)
    {
      ghost var sh, goal := State(), Evicted(State(), Fingerprint(hash), i);
      var entry := Unchain(index, hash, predecessor, i);
      ghost var table := Residents();
      assert table == goal.table;
      cell := entry.cell;
      Vacate(index, entry, transfer);
      assert Residents() == table;
      assert State() == sh.(table := table, free := [index] + sh.free, residentBytes := goal.residentBytes,
                            detached := sh.detached - {index}, ledger := goal.ledger);
    }

    /** Books the departure of an entry: its charge, its bytes and its slot. */
    method Vacate(index: nat, entry: Entry, transfer: bool)
      requires entry.cell < |ledger.cells| && ledger.cells[entry.cell].resident && !ledger.cells[entry.cell].local
      requires transfer == ledger.cells[entry.cell].owed
      modifies this`ledger, this`residentBytes, this`free, this`detached
      ensures ledger == Took(old(ledger), entry.cell) && free == [index] + old(free) && detached == old(detached) - {index}
      ensures residentBytes == SaturatingSub(old(residentBytes), EntryBytes(entry.item))
    {
      ghost var before, cell := ledger, ledger.cells[entry.cell];
      if transfer {
        ledger := Charges.Do(ledger, Disarm(entry.cell));
      }
      ledger := Charges.Do(ledger, Take(entry.cell));
      assert ledger.cells == before.cells[entry.cell := cell.(armed := cell.armed && !cell.owed, owed := false, resident := false, local := true)];
      residentBytes := SaturatingSub(residentBytes, EntryBytes(entry.item));
      free := [index] + free;
      detached := detached - {index};
    }

    /** Lets the predecessor, or the directory, point past a removed entry. */
    method Bypass(hash: u64, next: nat, predecessor: Option<nat>)
      requires directory.Valid() && Fingerprint(hash) in directory.Model() && (next == NIL || next < DELETED_VALUE)
      requires predecessor.Some? ==> predecessor.value < slots.Length && slots[predecessor.value].Some?
      modifies slots, directory.slots
      ensures directory.Valid() && Spares(old(directory.slots[..]), directory.slots[..])
      ensures directory.slots[..] ==
              if predecessor.Some? then old(directory.slots[..])
              else if next == NIL then Forgetting(old(directory.slots[..]), Fingerprint(hash))
              else old(directory.slots[..])[Directory.SlotOf(old(directory.slots[..]), Fingerprint(hash)) := Slot(Fingerprint(hash), next)]
      ensures directory.Model() ==
              if predecessor.Some? then old(directory.Model())
              else if next == NIL then old(directory.Model()) - {Fingerprint(hash)}
              else old(directory.Model())[Fingerprint(hash) := next]
      ensures slots[..] ==
              if predecessor.Some? then
                old(slots[..])[predecessor.value := Some(old(slots[predecessor.value].value).(next := next))]
              else old(slots[..])
    {
      if predecessor.Some? {
        slots[predecessor.value] := Some(slots[predecessor.value].value.(next := next));
      } else if next == NIL {
        ghost var listed := directory.slots[..];
        var removed := directory.Remove(hash);
        ForgetsOne(listed, directory.slots[..], Fingerprint(hash), removed);
      } else {
        ghost var listed := directory.slots[..];
        var replaced := directory.Insert(hash, next);
        RewritesOne(listed, directory.slots[..], Fingerprint(hash), next);
      }
      SparesIs(old(directory.slots[..]), directory.slots[..]);
    }

    /** The slot before `index` in its chain, if it is not the head. */
    method FindPredecessor(index: nat, hash: u64, ghost i: nat) returns (predecessor: Option<nat>)
      requires directory.Valid() && Tables.Sound(Residents()) && Fingerprint(hash) in chains
      requires i < |chains[Fingerprint(hash)]| && chains[Fingerprint(hash)][i] == index
      ensures predecessor == if i == 0 then None else Some(chains[Fingerprint(hash)][i - 1])
    {
      ghost var t, fp := Residents(), Fingerprint(hash);
      HeadsAreChains(t, fp);
      var head := directory.Get(hash);
      ghost var c := t.chains[fp];
      ChainWalk(t, fp, 0);
      predecessor := None;
      var cursor: nat := head.value;
      for step := 0 to MAX_SAME_HASH_ENTRIES
        invariant step < |c| && step <= i && cursor == c[step] && cursor < slots.Length
        invariant predecessor == if step == 0 then None else Some(c[step - 1])
      {
        ChainWalk(t, fp, step);
        if cursor == index {
          SamePlace(t, fp, step, i);
          return;
        }
        predecessor := Some(cursor);
        cursor := slots[cursor].value.next;
      }
      assert false;
    }

    // ----- admission -----

    predicate Occupied(index: nat)
      reads slots
    {
      index < slots.Length && slots[index].Some?
    }

    function Occupants(): set<nat>
      reads slots
    {
      set k | 0 <= k < slots.Length && Occupied(k)
    }

    predicate Exclusive(index: nat)
      reads this`ledger, slots
    {
      && index < slots.Length && slots[index].Some? && slots[index].value.cell < |ledger.cells|
      && ledger.cells[slots[index].value.cell].handles == 0
    }

    /** The residents that would release their charge. */
    function Reclaimable(): set<nat>
      reads this`ledger, slots
    {
      set k | 0 <= k < slots.Length && Exclusive(k)
    }

    /** Takes a resident away from the policy; the admission keeps what the policy knew. */
    method DetachForAdmission(index: nat)
      requires Policed() && Good(State()) && index in eviction.notes
      modifies this`detached, eviction.Repr
      ensures Policed() && State() == Detach(old(State()), index) && eviction.History() == old(eviction.History())
    {
      ghost var sh := State();
      TrackedResident(sh, index);
      var note := eviction.Detach(index, EntryBytes(slots[index].value.item));
      detached := detached[index := note];
      assert Residents() == sh.table;
    }

    /** Detaches victims until enough bytes would be released, the eviction limit or the step budget is
        reached, or the policy has no victim.  `first` is the entry being replaced, if any, which is
        already detached.  No victim is taken once there are enough bytes. */
    method GatherVictims(required: nat, replacementBytes: nat, first: seq<nat>, ghost sh: Shard)
      returns (victims: seq<nat>, released: nat, ghost end: Ending)
      requires Policed() && Good(sh) && Gathered(sh, first) && Parted(sh, first, State())
      modifies this`detached, eviction.Repr
      ensures Policed() && Harvest(sh, first, victims, released, old(detached), State())
      ensures |victims| <= MAX_EVICTIONS_PER_INSERT && eviction.History() == old(eviction.History())
      ensures Needed(sh.tracked, victims, replacementBytes + released, Shortage(ledger, required))
      ensures replacementBytes + released < Shortage(ledger, required) ==>
                |victims| == MAX_EVICTIONS_PER_INSERT || end.GaveUp(Reclaimable())
      ensures victims == [] && replacementBytes < Shortage(ledger, required) ==> Stirs(old(eviction.Scenery()), old(eviction.notes), eviction.notes)
    {
      victims, released := [], 0;
      var remaining := Policies.MAX_POLICY_SCAN_STEPS;
      end := Ending(eviction.Scenery(), remaining, remaining);
      HarvestNone(sh, first, State());
      while replacementBytes + released < Shortage(ledger, required)
            && |victims| < MAX_EVICTIONS_PER_INSERT && remaining > 0
        invariant |victims| <= MAX_EVICTIONS_PER_INSERT && Policed() && eviction.History() == old(eviction.History())
        invariant Harvest(sh, first, victims, released, old(detached), State())
        invariant victims == [] ==>
                    remaining == Policies.MAX_POLICY_SCAN_STEPS && released == 0
                    && eviction.notes == old(eviction.notes) && eviction.Scenery() == old(eviction.Scenery())
        invariant Needed(sh.tracked, victims, replacementBytes + released, Shortage(ledger, required)) && end.left == remaining
        decreases MAX_EVICTIONS_PER_INSERT - |victims|
      {
        end := Ending(eviction.Scenery(), remaining, remaining);
        var left, candidate, weight := GatherOne(remaining, sh, first, victims, released, old(detached));
        end := end.(left := left);
        remaining := left;
        if candidate.None? {
          break;
        }
        victims, released := victims + [candidate.value], released + weight;
      }
    }

    /** Selects and detaches the exclusively owned victim that the policy finds, if it finds one; it joins
        the harvest. */
    method GatherOne(remaining: nat, ghost sh: Shard, ghost first: seq<nat>, ghost victims: seq<nat>, ghost released: nat, ghost before: map<nat, Note>)
      returns (left: nat, candidate: Option<nat>, weight: nat)
      requires Policed() && Good(sh) && Harvest(sh, first, victims, released, before, State())
      modifies this`detached, eviction.Repr
      ensures Policed() && eviction.History() == old(eviction.History()) && left <= remaining
      ensures Picks(old(eviction.Scenery()), remaining, Reclaimable(), left, candidate)
      ensures candidate.None? ==> Harvest(sh, first, victims, released, before, State())
      ensures candidate.None? ==> (eviction.notes == old(eviction.notes) <==> Quiescent(old(eviction.Scenery()), remaining))
      ensures candidate.Some? ==> Harvest(sh, first, victims + [candidate.value], released + weight, before, State())
      ensures candidate.Some? ==> weight == NoteWeight(sh.tracked, candidate.value)
    {
      left, candidate := SelectExclusive(remaining, sh, first, victims, released, before);
      weight := 0;
      if candidate.Some? {
        weight := DetachVictim(candidate.value, sh, first, victims, released, before);
      }
    }

    /** One selection among the residents that would release their charge. */
    method SelectExclusive(remaining: nat, ghost sh: Shard, ghost first: seq<nat>, ghost victims: seq<nat>, ghost released: nat, ghost before: map<nat, Note>)
      returns (left: nat, candidate: Option<nat>)
      requires Policed() && Harvest(sh, first, victims, released, before, State())
      modifies eviction.Repr
      ensures Policed() && eviction.History() == old(eviction.History()) && left <= remaining
      ensures Picks(old(eviction.Scenery()), remaining, Reclaimable(), left, candidate)
      ensures Harvest(sh, first, victims, released, before, State())
      ensures candidate.Some? ==> candidate.value in eviction.notes && Exclusive(candidate.value) && Spent(eviction.notes[candidate.value])
      ensures candidate.None? ==> (eviction.notes == old(eviction.notes) <==> Quiescent(old(eviction.Scenery()), remaining))
    {
      ghost var was := State();
      left, candidate := eviction.SelectVictim(remaining, Reclaimable());
      assert Picks(old(eviction.Scenery()), remaining, Reclaimable(), left, candidate);
      assert Residents() == was.table;
      assert State() == was.(tracked := eviction.notes);
      HarvestEased(sh, first, victims, released, before, was, eviction.notes);
    }

    /** The chosen victim joins those that are detached. */
    method DetachVictim(k: nat, ghost sh: Shard, ghost first: seq<nat>, ghost victims: seq<nat>, ghost released: nat, ghost before: map<nat, Note>)
      returns (weight: nat)
      requires Policed() && Good(sh) && Harvest(sh, first, victims, released, before, State())
      requires k in eviction.notes && Exclusive(k) && Spent(eviction.notes[k])
      modifies this`detached, eviction.Repr
      ensures Policed() && eviction.History() == old(eviction.History()) && weight == NoteWeight(sh.tracked, k)
      ensures Harvest(sh, first, victims + [k], released + weight, before, State())
    {
      ghost var was := State();
      HarvestMore(sh, first, victims, released, before, was, k);
      weight := EntryBytes(slots[k].value.item);
      DetachForAdmission(k);
    }

    /** Gives every victim back to the policy, last one first. */
    method RestoreVictims(victims: seq<nat>, ghost sh: Shard)
      requires Policed() && Good(sh) && sh.detached == map[] && Gathered(sh, victims) && Parted(sh, victims, State())
      modifies this`detached, eviction.Repr
      ensures Policed() && Good(State()) && Undone(sh, State(), old(detached)) && eviction.History() == old(eviction.History())
      ensures victims == [] ==> eviction.notes == old(eviction.notes)
    {
      ghost var apart := State();
      BeginRestoring(sh, victims, apart);
      var n := |victims|;
      assert victims[..n] == victims;
      while n > 0
        invariant 0 <= n <= |victims| && Policed() && Restoring(apart, victims[..n], State())
        invariant eviction.History() == old(eviction.History()) && (n == |victims| ==> eviction.notes == old(eviction.notes))
      {
        RestoreOne(victims[..n], apart);
        n := n - 1;
        assert victims[..n + 1][..n] == victims[..n];
      }
      assert victims[..0] == [];
      RestoreUndoes(sh, victims, apart, State());
    }

    method RestoreOne(left: seq<nat>, ghost apart: Shard)
      requires Policed() && left != [] && Restoring(apart, left, State())
      modifies this`detached, eviction.Repr
      ensures Policed() && Restoring(apart, left[..|left| - 1], State()) && eviction.History() == old(eviction.History())
    {
      ghost var before := State();
      LastVictim(apart, left, before);
      RestoreStep(apart, left, before);
      var k := left[|left| - 1];
      eviction.Restore(k, detached[k]);
      detached := detached - {k};
      assert Residents() == before.table;
      assert State() == GivenBack(before, k);
    }

    /** Commits one detached victim; the caller receives its allocation.  The policy remembers the
        eviction if asked to. */
    method CommitDetached(index: nat, record: bool, ghost list: set<nat>, ghost locals: set<nat>) returns (cell: nat)
      requires directory.Valid() && Policed() && Committing(State(), list, locals) && index in list
      modifies Footprint()
      ensures directory.Valid() && Policed() && Committing(State(), list - {index}, locals + {cell}) && cell !in locals
      ensures Silent(old(State()), list, locals) ==> Silent(State(), list - {index}, locals + {cell})
      ensures Shrunk(old(State()), State(), {index})
      ensures eviction.notes == old(eviction.notes) && detached == old(detached) - {index} && free == [index] + old(free)
      ensures ledger.used == old(ledger.used) && ledger.hand == old(ledger.hand) && ledger.capacity == old(ledger.capacity)
      ensures Spares(old(directory.slots[..]), directory.slots[..])
      ensures Clears(old(Listed()), [index], Listed())
      ensures index in old(detached)
      ensures if record then eviction.History() == old(eviction.Remembering(detached[index])) else eviction.Recalled() == old(eviction.Recalled())
    {
      assert Ready(State(), index);
      var note := detached[index];
      ghost var recalled, remembering := eviction.Recalled(), eviction.Remembering(note);
      cell := CommitSlot(index, list, locals);
      assert Policed() && eviction.Recalled() == recalled && eviction.Remembering(note) == remembering;
      if record {
        ghost var sh := State();
        eviction.CommitEviction(note);
        assert Residents() == sh.table;
        assert State() == sh;
      }
    }

    method CommitSlot(index: nat, ghost list: set<nat>, ghost locals: set<nat>) returns (cell: nat)
      requires directory.Valid() && Committing(State(), list, locals) && index in list
      modifies this, slots, hashes, directory.slots
      ensures directory.Valid() && Committing(State(), list - {index}, locals + {cell}) && cell !in locals
      ensures Silent(old(State()), list, locals) ==> Silent(State(), list - {index}, locals + {cell})
      ensures Shrunk(old(State()), State(), {index})
      ensures detached == old(detached) - {index} && free == [index] + old(free)
      ensures ledger.used == old(ledger.used) && ledger.hand == old(ledger.hand) && ledger.capacity == old(ledger.capacity)
      ensures Spares(old(directory.slots[..]), directory.slots[..])
      ensures Clears(old(Listed()), [index], Listed())
    {
      ghost var sh := State();
      assert Ready(sh, index);
      ghost var i := Evictable(sh, index);
      ghost var fp := Fingerprint(hashes[index]);
      EvictedShrunk(sh, fp, i);
      CommitKeeps(sh, fp, i, list, locals);
      if Silent(sh, list, locals) {
        SilentCommit(sh, fp, i, list, locals);
      }
      CommitCell(sh, index);
      assert forall c :: c in locals ==> Loose(sh.ledger.cells, c);
      ghost var listing := Listed();
      TableOf(sh);
      cell := RemoveSlotAfterPolicy(index, detached[index].hash, ledger.cells[slots[index].value.cell].owed, i);
      ClearsOne(listing, index, i, Listed());
    }

    /** Chooses between the allocation kept so far and a new one, and drops the other. */
    method Keep(kept: Option<nat>, cell: nat, required: nat, ghost list: set<nat>) returns (recycled: Option<nat>)
      requires Committing(State(), list, Locals(kept) + {cell}) && Silent(State(), list, Locals(kept) + {cell}) && kept != Some(cell)
      modifies this`ledger
      ensures recycled.Some? && Committing(State(), list, Locals(recycled)) && Silent(State(), list, Locals(recycled))
      ensures ledger.used == old(ledger.used) && ledger.hand == old(ledger.hand) && ledger.capacity == old(ledger.capacity)
    {
      if kept.None? {
        assert {} + {cell} == {cell};
        return Some(cell);
      }
      ghost var locals := {kept.value} + {cell};
      assert Loose(ledger.cells, kept.value) && Harmless(ledger.cells, kept.value) && Harmless(ledger.cells, cell);
      if ledger.cells[kept.value].bytes != required || ledger.cells[kept.value].handles != 0 {
        DropKeeps(State(), kept.value, list, locals);
        assert locals - {kept.value} == {cell};
        ledger := Charges.Do(ledger, DropLocal(kept.value));
        return Some(cell);
      }
      DropKeeps(State(), cell, list, locals);
      assert locals - {cell} == {kept.value};
      ledger := Charges.Do(ledger, DropLocal(cell));
      recycled := kept;
    }

    /** Evicts every entry of the list.  One allocation is kept for reuse, preferably an exclusive one
        of exactly the required size; the others are dropped, which releases no charge.  The policy does
        not remember the first `silently` of them. */
    method CommitAll(list: seq<nat>, silently: nat, required: nat) returns (recycled: Option<nat>, ghost memories: seq<Recall>)
      requires directory.Valid() && Policed() && Distinct(list) && Committing(State(), SetOf(list), {}) && Silent(State(), SetOf(list), {})
      modifies Footprint()
      ensures directory.Valid() && Policed() && Committing(State(), {}, Locals(recycled)) && Silent(State(), {}, Locals(recycled))
      ensures Shrunk(old(State()), State(), SetOf(list))
      ensures eviction.notes == old(eviction.notes) && detached == old(detached) - SetOf(list)
      ensures ledger.used == old(ledger.used) && ledger.hand == old(ledger.hand) && ledger.capacity == old(ledger.capacity)
      ensures Spares(old(directory.slots[..]), directory.slots[..]) && Clears(old(Listed()), list, Listed())
      ensures Recounts(memories, list, silently, old(detached))
      ensures memories[0] == old(eviction.Recalled()) && memories[|list|] == eviction.Recalled()
    {
      recycled := None;
      ghost var sh := State();
      memories := [eviction.Recalled()];
      ShrunkSelf(sh);
      SparesIs(directory.slots[..], directory.slots[..]);
      ClearsNone(Listed(), Listed());
      assert list[0..] == list && list[..0] == [] && SetOf(list[..0]) == {};
      for n := 0 to |list|
        invariant directory.Valid() && Policed() && Committing(State(), SetOf(list[n..]), Locals(recycled))
        invariant Silent(State(), SetOf(list[n..]), Locals(recycled)) && Shrunk(sh, State(), SetOf(list[..n]))
        invariant eviction.notes == sh.tracked && detached == sh.detached - SetOf(list[..n])
        invariant ledger.used == sh.ledger.used && ledger.hand == sh.ledger.hand && ledger.capacity == sh.ledger.capacity
        invariant Spares(old(directory.slots[..]), directory.slots[..]) && Clears(old(Listed()), list[..n], Listed())
        invariant Recounts(memories, list[..n], silently, sh.detached)
        invariant memories[0] == old(eviction.Recalled()) && memories[n] == eviction.Recalled()
      {
        ghost var listed := directory.slots[..];
        recycled := CommitNext(list, n, n >= silently, recycled, required, sh, old(Listed()));
        SparesTwice(old(directory.slots[..]), listed, directory.slots[..]);
        ListStep(list, n);
        RecountsMore(memories, list[..n], silently, sh.detached, list[n], eviction.Recalled());
        memories := memories + [eviction.Recalled()];
      }
      assert list[..|list|] == list && SetOf(list[|list|..]) == {};
    }

    /** The next entry of the list leaves the shard. */
    method CommitNext(list: seq<nat>, n: nat, record: bool, kept: Option<nat>, required: nat, ghost sh: Shard, ghost l: Listing)
      returns (recycled: Option<nat>)
      requires directory.Valid() && Policed() && Distinct(list) && n < |list| && Clears(l, list[..n], Listed()) && Shrunk(sh, State(), SetOf(list[..n]))
      requires Committing(State(), SetOf(list[n..]), Locals(kept)) && Silent(State(), SetOf(list[n..]), Locals(kept))
      requires detached == sh.detached - SetOf(list[..n])
      modifies Footprint()
      ensures directory.Valid() && Policed() && Shrunk(sh, State(), SetOf(list[..n + 1]))
      ensures Committing(State(), SetOf(list[n + 1..]), Locals(recycled)) && Silent(State(), SetOf(list[n + 1..]), Locals(recycled))
      ensures eviction.notes == old(eviction.notes) && detached == sh.detached - SetOf(list[..n + 1])
      ensures ledger.used == old(ledger.used) && ledger.hand == old(ledger.hand) && ledger.capacity == old(ledger.capacity)
      ensures Spares(old(directory.slots[..]), directory.slots[..]) && Clears(l, list[..n + 1], Listed())
      ensures list[n] in sh.detached
      ensures if record then eviction.History() == Recorded(old(eviction.Recalled()), sh.detached[list[n]]) else eviction.Recalled() == old(eviction.Recalled())
    {
      var index := list[n];
      ListStep(list, n);
      MinusTwice(sh.detached, SetOf(list[..n]), index);
      ghost var before, listing := State(), Listed();
      var cell := CommitDetached(index, record, SetOf(list[n..]), Locals(kept));
      ShrunkAgain(sh, before, State(), SetOf(list[..n]), index);
      ClearsMore(l, list[..n], listing, index, Listed());
      ghost var evicted := State();
      recycled := Keep(kept, cell, required, SetOf(list[n + 1..]));
      ShrunkSame(sh, evicted, sh, State(), SetOf(list[..n + 1]));
    }

    /** Takes one tracked resident out of the shard without touching its charge. */
    method TakeSlot(index: nat, record: bool) returns (cell: nat)
      requires directory.Valid() && Policed() && Committing(State(), {}, {}) && detached == map[] && index in eviction.notes
      modifies Footprint()
      ensures directory.Valid() && Policed() && Committing(State(), {}, {cell})
      ensures Shrunk(old(State()), State(), {index})
      ensures eviction.notes == old(eviction.notes) - {index} && detached == map[] && free == [index] + old(free)
      ensures ledger.used == old(ledger.used) && ledger.hand == old(ledger.hand) && ledger.capacity == old(ledger.capacity)
      ensures Spares(old(directory.slots[..]), directory.slots[..])
      ensures Clears(old(Listed()), [index], Listed())
    {
      ghost var sh := State();
      DetachCommitting(sh, index);
      DetachForAdmission(index);
      ghost var apart := State();
      cell := CommitDetached(index, record, {index}, {});
      assert {index} - {index} == {} && {} + {cell} == {cell};
      ShrunkSame(apart, State(), sh, State(), {index});
    }

    /** Admission while bytes are available: at most one slot is vacated. */
    method ChargeWithRoom(required: nat, replacement: Option<nat>) returns (r: ChargeResult)
      requires Valid() && ledger.used + required <= ledger.capacity
      requires replacement.Some? ==> replacement.value in eviction.notes
      modifies Footprint()
      ensures directory.Valid() && Policed()
      ensures r.Rejected? ==> replacement.None? && directory.slots[..] == old(directory.slots[..])
      ensures r.Rejected? ==> Good(State()) && Undone(old(State()), State(), map[]) && eviction.History() == old(eviction.History())
      ensures r.Rejected? ==> Stirs(old(eviction.Scenery()), old(eviction.notes), eviction.notes)
      ensures r.Charged? ==> Admitted(old(State()), State(), required, replacement, r) && |r.evicted| <= 1
      ensures r.Charged? ==> ledger.used == old(ledger.used) + required && (replacement.Some? ==> r.evicted == [])
      ensures r.Charged? && replacement.None? && r.evicted == [] ==> free != []
      ensures Spares(old(directory.slots[..]), directory.slots[..])
      ensures r.Charged? ==> Clears(old(Listed()), Replaced(replacement) + r.evicted, Listed())
      ensures replacement.None? && old(free) != [] ==> r == Charged([], None) && free == old(free)
    {
      ghost var sh := State();
      SparesIs(directory.slots[..], directory.slots[..]);
      TakeCharge(required);
      ghost var charged := State();
      if replacement.None? && free == [] {
        r := ChargeWithSlotEviction(required, sh);
        return;
      }
      if replacement.Some? {
        EasedSelf(sh.tracked);
        OnlyReplaced(replacement);
        r := MakeRoom(replacement.value, false, required, replacement, [], sh);
        return;
      }
      PlainlyAdmitted(sh, charged, required);
      ClearsNone(Listed(), Listed());
      r := Charged([], None);
    }

    /** A charged candidate takes the slot of whichever resident the policy selects, held or not. */
    method ChargeWithSlotEviction(required: nat, ghost sh: Shard) returns (r: ChargeResult)
      requires directory.Valid() && Policed() && Good(sh) && sh.detached == map[]
      requires Charges.Enabled(sh.ledger, TryCharge(required)) && State() == sh.(ledger := Charges.Do(sh.ledger, TryCharge(required)))
      requires Committing(State(), {}, {})
      modifies Footprint()
      ensures directory.Valid() && Policed()
      ensures r.Rejected? ==> directory.slots[..] == old(directory.slots[..])
      ensures r.Rejected? ==> Good(State()) && Undone(sh, State(), map[]) && eviction.History() == old(eviction.History())
      ensures r.Rejected? ==> Stirs(old(eviction.Scenery()), old(eviction.notes), eviction.notes)
      ensures r.Charged? ==> Admitted(sh, State(), required, None, r) && |r.evicted| <= 1
      ensures r.Charged? ==> ledger.used == old(ledger.used) && r.evicted != [] && Clears(old(Listed()), Replaced(None) + r.evicted, Listed())
      ensures Spares(old(directory.slots[..]), directory.slots[..])
    {
      ghost var charged := State();
      SparesIs(directory.slots[..], directory.slots[..]);
      var victim := SelectAny(charged);
      if victim.None? {
        ReturnCharge(required, sh);
        return Rejected;
      }
      r := MakeRoom(victim.value, true, required, None, [victim.value], sh);
    }

    /** Books the charge of a candidate that fits. */
    method TakeCharge(required: nat)
      requires Committing(State(), {}, {}) && ledger.hand.None? && ledger.used + required <= ledger.capacity
      modifies this`ledger
      ensures Charges.Enabled(old(ledger), TryCharge(required)) && ledger == Charges.Do(old(ledger), TryCharge(required))
      ensures Committing(State(), {}, {})
    {
      HandCommitting(State(), {}, {}, TryCharge(required));
      ledger := Charges.Do(ledger, TryCharge(required));
    }

    /** Gives the charge of a candidate back when no slot could be found. */
    method ReturnCharge(required: nat, ghost sh: Shard)
      requires Good(sh) && Charges.Enabled(sh.ledger, TryCharge(required)) && Eased(sh.tracked, eviction.notes)
      requires State() == sh.(tracked := eviction.notes, ledger := Charges.Do(sh.ledger, TryCharge(required)))
      modifies this`ledger
      ensures Good(State()) && Undone(sh, State(), map[])
    {
      ledger := Charges.Do(ledger, DropHand);
      EasedUndone(sh, eviction.notes);
      assert State() == sh.(tracked := eviction.notes);
    }

    /** One entry, replaced or evicted, leaves for a charged candidate. */
    method MakeRoom(index: nat, record: bool, required: nat, replacement: Option<nat>, evicted: seq<nat>, ghost sh: Shard)
      returns (r: ChargeResult)
      requires directory.Valid() && Policed() && Committing(State(), {}, {}) && detached == map[] && index in eviction.notes
      requires Residents() == sh.table && Eased(sh.tracked, eviction.notes) && Replaced(replacement) + evicted == [index]
      requires ledger.hand == Some(required) && ledger.capacity == sh.ledger.capacity
      modifies Footprint()
      ensures directory.Valid() && Policed() && r.Charged? && r.evicted == evicted && ledger.used == old(ledger.used)
      ensures Admitted(sh, State(), required, replacement, r)
      ensures Clears(old(Listed()), [index], Listed()) && Spares(old(directory.slots[..]), directory.slots[..])
    {
      ghost var before := State();
      var cell := TakeSlot(index, record);
      r := Charged(evicted, Some(cell));
      GoneOne(replacement, evicted, index);
      OneGone(sh, before, State(), index, required, replacement, r);
    }

    /** A victim that need not be exclusively owned. */
    method SelectAny(ghost sh: Shard) returns (victim: Option<nat>)
      requires Policed() && State() == sh && Committing(sh, {}, {})
      modifies eviction.Repr
      ensures Policed() && Eased(sh.tracked, eviction.notes) && eviction.History() == old(eviction.History())
      ensures State() == sh.(tracked := eviction.notes) && Committing(State(), {}, {})
      ensures victim.Some? ==> victim.value in eviction.notes && Spent(eviction.notes[victim.value])
      ensures victim.None? ==> Stirs(old(eviction.Scenery()), old(eviction.notes), eviction.notes)
      ensures exists left :: Picks(old(eviction.Scenery()), Policies.MAX_POLICY_SCAN_STEPS, Occupants(), left, victim)
    {
      var left;
      left, victim := eviction.SelectVictim(Policies.MAX_POLICY_SCAN_STEPS, Occupants());
      assert Picks(old(eviction.Scenery()), Policies.MAX_POLICY_SCAN_STEPS, Occupants(), left, victim);
      assert Residents() == sh.table;
      EasedCommitting(sh, eviction.notes);
    }

    /** The allocations of the given residents. */
    method CellsFor(list: seq<nat>) returns (cells: seq<nat>)
      requires forall i :: 0 <= i < |list| ==> Resident(Residents(), list[i])
      ensures cells == CellsOf(Residents(), list)
    {
      cells := [];
      for n := 0 to |list|
        invariant cells == CellsOf(Residents(), list[..n])
      {
        assert Resident(Residents(), list[n]);
        cells := cells + [slots[list[n]].value.cell];
        assert list[..n + 1] == list[..n] + [list[n]];
      }
      assert list[..|list|] == list;
    }

    /** Takes the entry being replaced, if any, away from the policy. */
    method DetachReplacement(replacement: Option<nat>, ghost sh: Shard)
      requires Policed() && State() == sh && Good(sh) && sh.detached == map[]
      requires replacement.Some? ==> replacement.value in eviction.notes
      modifies this`detached, eviction.Repr
      ensures Policed() && Gathered(sh, Replaced(replacement)) && Parted(sh, Replaced(replacement), State())
      ensures eviction.History() == old(eviction.History())
      ensures replacement.Some? ==> replacement.value in detached && detached[replacement.value] == old(eviction.notes[replacement.value])
      ensures replacement.None? ==> eviction.notes == old(eviction.notes) && eviction.Scenery() == old(eviction.Scenery())
    {
      UntouchedParted(sh);
      if replacement.Some? {
        var k := replacement.value;
        GatherStep(sh, [], sh, k);
        assert [] + [k] == Replaced(replacement);
        DetachForAdmission(k);
      }
    }

    /** Moves the charges of the exclusively owned entries to the candidate. */
    method TransferAll(replacement: Option<nat>, victims: seq<nat>, own: bool, required: nat, ghost bytes: nat, ghost released: nat, ghost sh: Shard)
      requires Committing(sh, {}, {}) && sh.ledger.hand.None? && Gathered(sh, Replaced(replacement) + victims)
      requires Parted(sh, Replaced(replacement) + victims, State())
      requires Weights(sh.tracked, Replaced(replacement) + victims) == Weights(sh.tracked, Replaced(replacement)) + released
      requires forall i :: 0 <= i < |victims| ==> ReleasesCharge(sh, victims[i])
      requires own <==> replacement.Some? && ReleasesCharge(sh, replacement.value)
      requires bytes == if own && replacement.value in sh.tracked then sh.tracked[replacement.value].weight else 0
      requires sh.ledger.used + required <= sh.ledger.capacity + bytes + released
      modifies this`ledger
      ensures Committing(State(), SetOf(Replaced(replacement) + victims), {}) && Silent(State(), SetOf(Replaced(replacement) + victims), {})
      ensures ledger.used + bytes + released == old(ledger.used) + required
      ensures ledger.hand == Some(required) && ledger.capacity == old(ledger.capacity)
    {
      var list := Transferred(replacement, own, victims);
      TransferList(sh, replacement, victims, own);
      TransferWeights(sh, replacement, victims, own, released, bytes);
      PartedGood(sh, Replaced(replacement) + victims, State());
      TransferReady(sh, Replaced(replacement) + victims, State(), list, required);
      forall i | 0 <= i < |list| ensures Resident(Residents(), list[i]) {
        assert ReleasesCharge(sh, list[i]);
      }
      var cells := CellsFor(list);
      ledger := Charges.Do(ledger, Transfer(cells, required));
    }

    /** Admission under byte pressure: enough exclusively owned residents hand their charges to the
        candidate in one transfer, or all of them go back to the policy. */
    method ChargeByTransfer(required: nat, replacement: Option<nat>, lost: bool) returns (r: ChargeResult, ghost pulled: map<nat, Note>)
      requires Valid() && (replacement.Some? ==> replacement.value in eviction.notes)
      modifies Footprint()
      ensures directory.Valid() && Policed()
      ensures r.Rejected? ==> directory.slots[..] == old(directory.slots[..]) && eviction.History() == old(eviction.History())
      ensures r.Rejected? ==> Good(State()) && Undone(old(State()), State(), pulled) && Lent(old(State()), replacement, pulled)
      ensures r.Rejected? && pulled == map[] && Shortage(old(ledger), required) > 0 ==>
                Stirs(old(eviction.Scenery()), old(eviction.notes), eviction.notes)
      ensures r.Charged? ==> Admitted(old(State()), State(), required, replacement, r)
      ensures r.Charged? ==> forall i :: 0 <= i < |r.evicted| ==> ReleasesCharge(old(State()), r.evicted[i])
      ensures r.Charged? ==> Frugal(old(State()), replacement, required, r.evicted)
      ensures r.Charged? ==> Clears(old(Listed()), Replaced(replacement) + r.evicted, Listed())
      ensures Spares(old(directory.slots[..]), directory.slots[..])
    {
      ghost var sh, before := State(), directory.slots[..];
      SparesIs(before, before);
      var own, bytes, victims, released := PrepareTransfer(required, replacement, sh);
      pulled := detached;
      if lost || bytes + released < Shortage(ledger, required) {
        RestoreVictims(Replaced(replacement) + victims, sh);
        return Rejected, pulled;
      }
      PaidFor(sh, replacement, required, victims, own, bytes, released);
      r := FinishTransfer(replacement, victims, own, required, bytes, released, sh);
    }

    /** Detaches the entry being replaced and as many victims as it takes. */
    method PrepareTransfer(required: nat, replacement: Option<nat>, ghost sh: Shard)
      returns (own: bool, bytes: nat, victims: seq<nat>, released: nat)
      requires Policed() && State() == sh && Good(sh) && sh.detached == map[]
      requires replacement.Some? ==> replacement.value in eviction.notes
      modifies this`detached, eviction.Repr
      ensures Policed() && ledger == sh.ledger && eviction.History() == old(eviction.History())
      ensures Parted(sh, Replaced(replacement) + victims, State()) && Gathered(sh, Replaced(replacement) + victims)
      ensures |victims| <= MAX_EVICTIONS_PER_INSERT && forall i :: 0 <= i < |victims| ==> ReleasesCharge(sh, victims[i])
      ensures Weights(sh.tracked, Replaced(replacement) + victims) == Weights(sh.tracked, Replaced(replacement)) + released
      ensures own <==> replacement.Some? && ReleasesCharge(sh, replacement.value)
      ensures bytes == if own then NoteWeight(sh.tracked, replacement.value) else 0
      ensures Needed(sh.tracked, victims, bytes + released, Shortage(sh.ledger, required)) && Lent(sh, replacement, detached)
      ensures detached == map[] ==> replacement.None? && victims == []
      ensures detached == map[] && Shortage(sh.ledger, required) > 0 ==> Stirs(old(eviction.Scenery()), old(eviction.notes), eviction.notes)
    {
      own := replacement.Some? && Exclusive(replacement.value);
      bytes := if own then EntryBytes(slots[replacement.value].value.item) else 0;
      if replacement.Some? {
        TrackedResident(sh, replacement.value);
      }
      DetachReplacement(replacement, sh);
      PartedGood(sh, Replaced(replacement), State());
      ghost var end;
      ghost var before := detached;
      victims, released, end := GatherVictims(required, bytes, Replaced(replacement), sh);
      HarvestIs(sh, Replaced(replacement), victims, released, before, State());
      PartedGood(sh, Replaced(replacement) + victims, State());
      LentBack(sh, replacement, victims, detached);
      assert forall k :: k in Replaced(replacement) + victims ==> k in detached;
      assert victims != [] ==> victims[0] in Replaced(replacement) + victims;
    }

    /** The transfer succeeds and its entries leave the shard. */
    method FinishTransfer(replacement: Option<nat>, victims: seq<nat>, own: bool, required: nat, ghost bytes: nat, ghost released: nat, ghost sh: Shard)
      returns (r: ChargeResult)
      requires directory.Valid() && Policed() && Committing(sh, {}, {}) && sh.ledger.hand.None? && sh.detached == map[]
      requires Gathered(sh, Replaced(replacement) + victims) && |victims| <= MAX_EVICTIONS_PER_INSERT
      requires Parted(sh, Replaced(replacement) + victims, State()) && ledger == sh.ledger
      requires Weights(sh.tracked, Replaced(replacement) + victims) == Weights(sh.tracked, Replaced(replacement)) + released
      requires forall i :: 0 <= i < |victims| ==> ReleasesCharge(sh, victims[i])
      requires own <==> replacement.Some? && ReleasesCharge(sh, replacement.value)
      requires bytes == if own && replacement.value in sh.tracked then sh.tracked[replacement.value].weight else 0
      requires sh.ledger.used + required <= sh.ledger.capacity + bytes + released
      modifies Footprint()
      ensures directory.Valid() && Policed() && r.Charged? && r.evicted == victims && Admitted(sh, State(), required, replacement, r)
      ensures Silent(State(), {}, Locals(r.recycled)) && ledger.used + bytes + released == sh.ledger.used + required
      ensures Spares(old(directory.slots[..]), directory.slots[..])
      ensures Clears(old(Listed()), Replaced(replacement) + victims, Listed())
    {
      ghost var now := State();
      TransferAll(replacement, victims, own, required, bytes, released, sh);
      ghost var moved := State();
      var recycled, _ := CommitAll(Replaced(replacement) + victims, |Replaced(replacement)|, required);
      r := Charged(victims, recycled);
      TransferAdmitted(sh, now, moved, State(), required, replacement, r);
    }

    /** Charges a candidate, evicting at most sixteen residents.  A rejection leaves table, directory, free
        list, bytes, ledger and history alone, and the policy tracks the same residents: `pulled` are
        those that had been detached, each back as it was then.  Under byte pressure every victim is
        exclusively owned, and none of them is one too many.  `contended` and `lost` say whether the bounded exchange loops on the budget
        gave up. */
    method ChargeWithEviction(required: nat, replacement: Option<nat>, contended: bool, lost: bool)
      returns (r: ChargeResult, ghost pulled: map<nat, Note>)
      requires Valid() && (replacement.Some? ==> replacement.value in eviction.notes)
      modifies Footprint()
      ensures directory.Valid() && Policed()
      ensures r.Rejected? ==> directory.slots[..] == old(directory.slots[..]) && eviction.History() == old(eviction.History())
      ensures r.Rejected? ==> Good(State()) && Undone(old(State()), State(), pulled) && Lent(old(State()), replacement, pulled)
      ensures r.Rejected? && pulled == map[] ==>
                if contended || required > ledger.capacity then eviction.notes == old(eviction.notes)
                else Stirs(old(eviction.Scenery()), old(eviction.notes), eviction.notes)
      ensures r.Charged? ==> Admitted(old(State()), State(), required, replacement, r)
      ensures r.Charged? && old(ledger.used) + required > ledger.capacity ==>
                (forall i :: 0 <= i < |r.evicted| ==> ReleasesCharge(old(State()), r.evicted[i]))
                && Frugal(old(State()), replacement, required, r.evicted)
      ensures Spares(old(directory.slots[..]), directory.slots[..])
      ensures r.Charged? ==> Clears(old(Listed()), Replaced(replacement) + r.evicted, Listed()) && free != []
      ensures old(ledger.used) + required <= ledger.capacity && !contended && replacement.Some? ==> r.Charged? && r.evicted == []
      ensures old(ledger.used) + required <= ledger.capacity && !contended && replacement.None? && old(free) != [] ==>
                r == Charged([], None) && ledger.used == old(ledger.used) + required && free == old(free)
    {
      SparesIs(directory.slots[..], directory.slots[..]);
      pulled := map[];
      UsedFits(State());
      if required > ledger.capacity || contended {
        NothingUndone(State());
        return Rejected, pulled;
      }
      ghost var sh := State();
      if ledger.used + required <= ledger.capacity {
        r := ChargeWithRoom(required, replacement);
      } else {
        r, pulled := ChargeByTransfer(required, replacement, lost);
      }
      if r.Charged? {
        RoomMade(sh, State(), replacement, required, r);
      }
    }

    /** Builds the candidate's value in the recycled buffer if nobody else holds it and it has exactly
        the right size, and in a new allocation otherwise. */
    method MakeValue(hash: u64, item: Item, recycled: Option<nat>, ghost note: Note) returns (cell: nat, ghost sh: Shard)
      requires Committing(State(), {}, Locals(recycled)) && ledger.hand == Some(EntryBytes(item)) && free != []
      requires free[0] < slots.Length == hashes.Length <= DELETED_VALUE && CanInsert(Residents(), free[0], hash, item)
      requires note.hash == hash && note.weight == EntryBytes(item) <= MAX_L1_ENTRY_BYTES
      modifies this`ledger
      ensures sh == old(State()).(ledger := sh.ledger) && CanPlace(sh, hash, item, cell, ledger, note)
      ensures ledger.hand.None? && Tidy(ledger) && ledger.capacity == old(ledger.capacity)
      ensures recycled.None? ==> ledger.used == old(ledger.used)
      ensures cell == (if recycled.Some? && Reusable(old(ledger.cells), recycled.value, item) then recycled.value else |old(ledger.cells)|)
    {
      sh := State();
      if recycled.Some? {
        assert Loose(ledger.cells, recycled.value);
        var spare := ledger.cells[recycled.value];
        if spare.handles == 0 && |spare.item.key| + |spare.item.data| == |item.key| + |item.data| {
          cell := recycled.value;
          PlaceRecycled(sh, hash, item, note, cell);
          ledger := Charges.Do(ledger, Recycle(cell, item));
          return;
        }
        DropKeeps(sh, recycled.value, {}, {recycled.value});
        assert {recycled.value} - {recycled.value} == {};
        ledger := Charges.Do(ledger, DropLocal(recycled.value));
        sh := State();
      }
      cell := |ledger.cells|;
      PlaceNew(sh, hash, item, note);
      ledger := Charges.Do(ledger, NewValue(item));
    }

    /** Links an entry into its slot at the head of its chain, if the directory accepts it. */
    method Link(index: nat, hash: u64, item: Item, cell: nat) returns (linked: bool)
      requires directory.Valid() && Tables.Sound(Residents()) && index < slots.Length == hashes.Length <= DELETED_VALUE
      modifies this`chains, slots, hashes, directory.slots
      ensures linked <==> CanUpsert(old(directory.slots[..]), Fingerprint(hash))
      ensures linked ==> directory.Valid() && Residents() == Inserting(old(Residents()), index, hash, item, cell)
      ensures linked ==> Enlists(old(directory.slots[..]), Fingerprint(hash), index, directory.slots[..])
    {
      ghost var t, fp := Residents(), Fingerprint(hash);
      HeadsAreChains(t, fp);
      if fp in t.chains {
        ChainWalk(t, fp, 0);
      }
      ghost var goal := Inserting(t, index, hash, item, cell);
      var previous := directory.Insert(hash, index);
      if previous.None? {
        return false;
      }
      slots[index] := Some(Entry(item, cell, if previous.value.Some? then previous.value.value else NIL));
      hashes[index] := hash;
      assert slots[..] == goal.slots && hashes[..] == goal.hashes;
      chains := goal.chains;
      linked := true;
    }

    /** Gives the candidate the first free slot, at the head of its chain.  None when the directory
        refuses its fingerprint, where the source panics. */
    method Place(hash: u64, item: Item, recycled: Option<nat>) returns (placed: Option<nat>)
      requires directory.Valid() && Policed() && detached == map[] && EntryBytes(item) <= MAX_L1_ENTRY_BYTES
      requires Committing(State(), {}, Locals(recycled)) && ledger.hand == Some(EntryBytes(item)) && free != []
      requires free[0] < slots.Length == hashes.Length <= DELETED_VALUE && CanInsert(Residents(), free[0], hash, item)
      modifies Footprint()
      ensures placed.None? <==> !CanUpsert(old(directory.slots[..]), Fingerprint(hash))
      ensures placed.Some? ==> Valid() && Contents(Residents()) == old(Contents(Residents()))[(hash, item.key) := item]
      ensures placed.Some? ==> placed.value == old(free[0]) && Joins(old(State()), State(), hash, placed.value)
      ensures placed.Some? ==> Enlists(old(directory.slots[..]), Fingerprint(hash), placed.value, directory.slots[..])
      ensures placed.Some? && recycled.None? ==> ledger.used == old(ledger.used)
    {
      ghost var note := Note(hash, EntryBytes(item), eviction.Entrance(hash));
      FreeUntracked(State());
      var index := free[0];
      var cell, sh := MakeValue(hash, item, recycled, note);
      var linked := Occupy(hash, item, cell, sh, note);
      placed := if linked then Some(index) else None;
    }

    /** Seats the candidate, whose value is `cell`. */
    method Occupy(hash: u64, item: Item, cell: nat, ghost sh: Shard, ghost note: Note) returns (linked: bool)
      requires directory.Valid() && Policed() && detached == map[] && State() == sh.(ledger := ledger)
      requires CanPlace(sh, hash, item, cell, ledger, note) && Tidy(ledger) && ledger.hand.None? && sh.free[0] !in sh.tracked
      requires note == Note(hash, EntryBytes(item), eviction.Entrance(hash))
      modifies Footprint()
      ensures linked <==> CanUpsert(old(directory.slots[..]), Fingerprint(hash))
      ensures linked ==> Valid() && Contents(Residents()) == Contents(sh.table)[(hash, item.key) := item]
      ensures linked ==> ledger == old(ledger) && Joins(sh.(ledger := ledger), State(), hash, sh.free[0])
      ensures linked ==> Enlists(old(directory.slots[..]), Fingerprint(hash), sh.free[0], directory.slots[..])
    {
      PlacedWell(sh, hash, item, cell, ledger, note);
      linked := Seat(hash, item, cell, Placed(sh, hash, item, cell, ledger, note));
    }

    /** The new resident takes the first free slot in table, directory and policy. */
    method Seat(hash: u64, item: Item, cell: nat, ghost goal: Shard) returns (linked: bool)
      requires directory.Valid() && Policed() && Tables.Sound(Residents()) && EntryBytes(item) <= MAX_L1_ENTRY_BYTES
      requires free != [] && free[0] < slots.Length == hashes.Length <= DELETED_VALUE && free[0] !in eviction.notes
      requires goal.table == Inserting(Residents(), free[0], hash, item, cell) && goal.free == free[1..]
      requires goal.residentBytes == residentBytes + EntryBytes(item) && goal.detached == detached && goal.ledger == ledger
      requires goal.tracked == eviction.notes[free[0] := Note(hash, EntryBytes(item), eviction.Entrance(hash))]
      modifies Footprint()
      ensures linked <==> CanUpsert(old(directory.slots[..]), Fingerprint(hash))
      ensures linked ==> directory.Valid() && Policed() && State() == goal
      ensures linked ==> Enlists(old(directory.slots[..]), Fingerprint(hash), old(free[0]), directory.slots[..])
    {
      var index := free[0];
      ghost var mark := eviction.Entrance(hash);
      linked := Link(index, hash, item, cell);
      if linked {
        assert eviction.Entrance(hash) == mark;
        Register(index, hash, item, goal);
      }
    }

    /** Books the new resident with the free list, the byte count and the policy. */
    method Register(index: nat, hash: u64, item: Item, ghost goal: Shard)
      requires free != [] && Policed() && index < slots.Length && index !in eviction.notes && EntryBytes(item) <= MAX_L1_ENTRY_BYTES
      requires goal.table == Residents() && goal.free == free[1..] && goal.residentBytes == residentBytes + EntryBytes(item)
      requires goal.detached == detached && goal.ledger == ledger
      requires goal.tracked == eviction.notes[index := Note(hash, EntryBytes(item), eviction.Entrance(hash))]
      modifies this`free, this`residentBytes, eviction.Repr
      ensures Policed() && State() == goal
    {
      free := free[1..];
      residentBytes := residentBytes + EntryBytes(item);
      eviction.Insert(index, hash, EntryBytes(item));
      FieldByField(State(), goal);
    }

    /** Abandons a charged admission: the charge in hand and the recycled buffer are dropped. */
    method GiveUp(recycled: Option<nat>)
      requires directory.Valid() && Policed() && detached == map[] && Committing(State(), {}, Locals(recycled)) && ledger.hand.Some?
      modifies this`ledger
      ensures Valid()
    {
      HandCommitting(State(), {}, Locals(recycled), DropHand);
      ledger := Charges.Do(ledger, DropHand);
      if recycled.Some? {
        DropKeeps(State(), recycled.value, {}, Locals(recycled));
        assert Locals(recycled) - {recycled.value} == {};
        ledger := Charges.Do(ledger, DropLocal(recycled.value));
      }
    }

    /** What the source checks before it touches anything. */
    method Preflight(hash: u64, replacement: Option<nat>) returns (ok: bool)
      requires Working()
      ensures ok <==> Passes(State(), directory.slots[..], hash, replacement)
    {
      var full := HashChainIsFull(hash);
      if replacement.None? && full {
        return false;
      }
      var slot := directory.FindUpsertSlot(Fingerprint(hash));
      ok := slot.Some?;
    }

    /** Inserts or replaces one entry.  The shard caches the new item and loses at most sixteen other
        keys; a refused insertion only lets the policy move on, except that evictions stand when the
        buffer cannot be allocated.  It poisons the shard exactly if the directory, once the replaced and
        the evicted entries have left, has no place for the fingerprint; then the whole probe window was
        live.  A replacement of the only entry with its fingerprint, with bytes to spare, poisons it
        exactly if the directory is locked for that fingerprint. */
    method Insert(hash: u64, item: Item, replacement: Option<nat>, contended: bool, lost: bool, exhausted: bool)
      returns (outcome: InsertOutcome, ghost pulled: map<nat, Note>)
      requires Valid() && Candidate(State(), hash, item, replacement) && EntryBytes(item) <= MAX_L1_ENTRY_BYTES
      modifies Footprint()
      ensures outcome == Bypassed ==> Valid() && directory.slots[..] == old(directory.slots[..]) && eviction.History() == old(eviction.History())
      ensures outcome == Bypassed ==> Undone(old(State()), State(), pulled) && Lent(old(State()), replacement, pulled)
      ensures outcome == Bypassed && pulled == map[] ==>
                if !Passes(old(State()), old(directory.slots[..]), hash, replacement) || contended || EntryBytes(item) > ledger.capacity then eviction.notes == old(eviction.notes)
                else Stirs(old(eviction.Scenery()), old(eviction.notes), eviction.notes)
      ensures !outcome.Bypassed? && old(ledger.used) + EntryBytes(item) > old(ledger.capacity) ==>
                (forall i :: 0 <= i < |outcome.evicted| ==> ReleasesCharge(old(State()), outcome.evicted[i]))
                && Frugal(old(State()), replacement, EntryBytes(item), outcome.evicted)
      ensures outcome.Dropped? ==> Valid() && Contents(Residents()) == Survivors(old(State()), outcome.evicted, replacement)
      ensures outcome.Cached? ==>
                Valid() && Contents(Residents()) == Survivors(old(State()), outcome.evicted, replacement)[(hash, item.key) := item]
      ensures !outcome.Bypassed? ==> Gathered(old(State()), outcome.evicted) && |outcome.evicted| <= MAX_EVICTIONS_PER_INSERT
      ensures Passes(old(State()), old(directory.slots[..]), hash, replacement) && !contended && old(ledger.used) + EntryBytes(item) <= old(ledger.capacity) && (replacement.Some? || old(free) != []) ==>
                !outcome.Bypassed? && outcome.evicted == []
      ensures outcome.Dropped? ==> exhausted
      ensures outcome.Cached? ==> Admits(old(Listed()), Replaced(replacement) + outcome.evicted, Fingerprint(hash))
      ensures outcome.Poisoned? ==> !Admits(old(Listed()), Replaced(replacement) + outcome.evicted, Fingerprint(hash))
      ensures outcome.Poisoned? ==> WindowFull(old(directory.slots[..]), Fingerprint(hash))
      ensures replacement.Some? && Lone(old(State()), replacement.value) && !contended && !exhausted
              && old(ledger.used) + EntryBytes(item) <= old(ledger.capacity) ==>
                (outcome.Poisoned? <==> Locked(old(directory.slots[..]), Fingerprint(hash)))
      ensures replacement.None? && Fingerprint(hash) !in old(chains) && CanUpsert(old(directory.slots[..]), Fingerprint(hash))
              && old(free) != [] && !contended && !exhausted && old(ledger.used) + EntryBytes(item) <= old(ledger.capacity) ==>
                && outcome == Cached(old(free[0]), []) && Joins(old(State()), State(), hash, outcome.slot)
                && Enlists(old(directory.slots[..]), Fingerprint(hash), outcome.slot, directory.slots[..])
                && ledger.used == old(ledger.used) + EntryBytes(item)
    {
      ghost var sh := State();
      pulled := map[];
      var ok := Preflight(hash, replacement);
      if !ok {
        NothingUndone(sh);
        if replacement.Some? && Lone(sh, replacement.value) {
          LoneListed(sh, replacement.value, directory.slots[..]);
        }
        return Bypassed, pulled;
      }
      outcome, pulled := Admit(hash, item, replacement, contended, lost, exhausted);
    }

    /** Charges the candidate and gives it a slot. */
    method Admit(hash: u64, item: Item, replacement: Option<nat>, contended: bool, lost: bool, exhausted: bool)
      returns (outcome: InsertOutcome, ghost pulled: map<nat, Note>)
      requires Valid() && Candidate(State(), hash, item, replacement) && EntryBytes(item) <= MAX_L1_ENTRY_BYTES
      requires replacement.None? ==> !(Fingerprint(hash) in chains && |chains[Fingerprint(hash)]| == MAX_SAME_HASH_ENTRIES)
      modifies Footprint()
      ensures outcome == Bypassed ==> Valid() && directory.slots[..] == old(directory.slots[..]) && eviction.History() == old(eviction.History())
      ensures outcome == Bypassed ==> Undone(old(State()), State(), pulled) && Lent(old(State()), replacement, pulled)
      ensures outcome == Bypassed && pulled == map[] ==>
                if contended || EntryBytes(item) > ledger.capacity then eviction.notes == old(eviction.notes)
                else Stirs(old(eviction.Scenery()), old(eviction.notes), eviction.notes)
      ensures !outcome.Bypassed? && old(ledger.used) + EntryBytes(item) > old(ledger.capacity) ==>
                (forall i :: 0 <= i < |outcome.evicted| ==> ReleasesCharge(old(State()), outcome.evicted[i]))
                && Frugal(old(State()), replacement, EntryBytes(item), outcome.evicted)
      ensures outcome.Dropped? ==> Valid() && Contents(Residents()) == Survivors(old(State()), outcome.evicted, replacement)
      ensures outcome.Cached? ==>
                Valid() && Contents(Residents()) == Survivors(old(State()), outcome.evicted, replacement)[(hash, item.key) := item]
      ensures !outcome.Bypassed? ==> Gathered(old(State()), outcome.evicted) && |outcome.evicted| <= MAX_EVICTIONS_PER_INSERT
      ensures !contended && old(ledger.used) + EntryBytes(item) <= old(ledger.capacity) && (replacement.Some? || old(free) != []) ==>
                !outcome.Bypassed? && outcome.evicted == []
      ensures outcome.Dropped? ==> exhausted
      ensures outcome.Cached? ==> Admits(old(Listed()), Replaced(replacement) + outcome.evicted, Fingerprint(hash))
      ensures outcome.Poisoned? ==> !Admits(old(Listed()), Replaced(replacement) + outcome.evicted, Fingerprint(hash))
      ensures outcome.Poisoned? ==> WindowFull(old(directory.slots[..]), Fingerprint(hash))
      ensures replacement.Some? && Lone(old(State()), replacement.value) && !contended && !exhausted
              && old(ledger.used) + EntryBytes(item) <= old(ledger.capacity) ==>
                (outcome.Poisoned? <==> Locked(old(directory.slots[..]), Fingerprint(hash)))
      ensures replacement.None? && CanUpsert(old(directory.slots[..]), Fingerprint(hash))
              && old(free) != [] && !contended && !exhausted && old(ledger.used) + EntryBytes(item) <= old(ledger.capacity) ==>
                && outcome == Cached(old(free[0]), []) && Joins(old(State()), State(), hash, outcome.slot)
                && Enlists(old(directory.slots[..]), Fingerprint(hash), outcome.slot, directory.slots[..])
                && ledger.used == old(ledger.used) + EntryBytes(item)
    {
      ghost var sh, listed := State(), Listed();
      CandidateTracked(sh, hash, item, replacement);
      TableOf(sh);
      var r;
      r, pulled := ChargeWithEviction(EntryBytes(item), replacement, contended, lost);
      if r.Rejected? {
        UndoneCommitting(sh, State(), pulled);
        return Bypassed, pulled;
      }
      SettledBefore(listed, Listed(), replacement, r, Fingerprint(hash));
      outcome := Settle(hash, item, replacement, exhausted, r, sh, listed);
    }

    /** The charged candidate takes a free slot. */
    method Settle(hash: u64, item: Item, replacement: Option<nat>, exhausted: bool, r: ChargeResult, ghost sh: Shard, ghost listed: Listing)
      returns (outcome: InsertOutcome)
      requires r.Charged? && directory.Valid() && Policed() && Good(sh) && EntryBytes(item) <= MAX_L1_ENTRY_BYTES
      requires Candidate(sh, hash, item, replacement) && Admitted(sh, State(), EntryBytes(item), replacement, r)
      requires replacement.None? ==>
                 !(Fingerprint(hash) in sh.table.chains && |sh.table.chains[Fingerprint(hash)]| == MAX_SAME_HASH_ENTRIES)
      requires Spares(listed.slots, directory.slots[..]) && Inv(listed.slots) && ModelOf(listed.slots) == sh.table.heads
      requires listed.table == sh.table && Clears(listed, Replaced(replacement) + r.evicted, Listed()) && free != []
      modifies Footprint()
      ensures !outcome.Bypassed? && outcome.evicted == r.evicted && (outcome.Dropped? ==> exhausted)
      ensures outcome.Dropped? ==> Valid() && Contents(Residents()) == Survivors(sh, outcome.evicted, replacement)
      ensures outcome.Cached? ==> Valid() && Contents(Residents()) == Survivors(sh, outcome.evicted, replacement)[(hash, item.key) := item]
      ensures outcome.Cached? ==> Admits(listed, Replaced(replacement) + r.evicted, Fingerprint(hash))
      ensures outcome.Poisoned? ==> !Admits(listed, Replaced(replacement) + r.evicted, Fingerprint(hash))
      ensures outcome.Poisoned? ==> WindowFull(listed.slots, Fingerprint(hash))
      ensures outcome.Cached? ==> outcome.slot == old(free[0]) && Joins(old(State()), State(), hash, outcome.slot)
      ensures outcome.Cached? ==> Enlists(old(directory.slots[..]), Fingerprint(hash), outcome.slot, directory.slots[..])
      ensures outcome.Cached? && r.recycled.None? ==> ledger.used == old(ledger.used)
      ensures outcome.Dropped? <==> exhausted
    {
      if exhausted {
        GiveUp(r.recycled);
        return Dropped(r.evicted);
      }
      CandidateRoom(sh, State(), hash, item, replacement, r);
      ghost var thinned := directory.slots[..];
      AdmitsIs(listed, Replaced(replacement) + r.evicted, Listed(), Fingerprint(hash));
      var placed := Place(hash, item, r.recycled);
      if placed.None? {
        if !WindowFull(listed.slots, Fingerprint(hash)) {
          SparePreflight(listed.slots, thinned, Fingerprint(hash));
        }
        return Poisoned(r.evicted);
      }
      outcome := Cached(placed.value, r.evicted);
    }

    /** Drops one resident. */
    method RemoveSlot(index: nat)
      requires Valid() && Resident(Residents(), index)
      modifies Footprint()
      ensures Valid() && Contents(Residents()) == old(Contents(Residents())) - {old(IdAt(Residents(), index))}
    {
      ghost var sh := State();
      ResidentTracked(sh, index);
      var cell := TakeSlot(index, false);
      ShrunkOne(sh, State(), index);
      DropKeeps(State(), cell, {}, {cell});
      assert {cell} - {cell} == {};
      ledger := Charges.Do(ledger, DropLocal(cell));
    }

    /** Publishes a value unless the cached one is at least as new.  `kept` says whether the key is cached
        with this or a newer sequence number afterwards. */
    method Publish(hash: u64, item: Item, o: Oracle) returns (kept: bool, poisoned: bool)
      requires Valid()
      modifies Footprint()
      ensures poisoned ==> !kept && WindowFull(old(directory.slots[..]), Fingerprint(hash)) && EntryBytes(item) <= MAX_L1_ENTRY_BYTES
      ensures !poisoned ==> Valid() && Publishes(old(Contents(Residents())), (hash, item.key), item, kept, Contents(Residents()))
      ensures Welcome(old(State()), old(directory.slots[..]), hash, item, o) ==> kept && !poisoned
    {
      ghost var m, sh := Contents(Residents()), State();
      var existing := Find(hash, item.key);
      if existing.Some? {
        TableOf(sh);
        ContentsAt(sh.table, existing.value);
        if slots[existing.value].value.item.seqno >= item.seqno {
          return true, false;
        }
      }
      if EntryBytes(item) > MAX_L1_ENTRY_BYTES {
        if existing.Some? {
          RemoveSlot(existing.value);
        }
        return false, false;
      }
      kept, poisoned := Store(hash, item, existing, o);
    }

    /** Inserts a value that is newer than the cached one, if there is one. */
    method Store(hash: u64, item: Item, existing: Option<nat>, o: Oracle) returns (kept: bool, poisoned: bool)
      requires Valid() && Candidate(State(), hash, item, existing) && EntryBytes(item) <= MAX_L1_ENTRY_BYTES
      requires var m, id := Contents(Residents()), (hash, item.key); id in m ==> m[id].seqno < item.seqno
      modifies Footprint()
      ensures poisoned ==> !kept && WindowFull(old(directory.slots[..]), Fingerprint(hash)) && EntryBytes(item) <= MAX_L1_ENTRY_BYTES
      ensures !poisoned ==> Valid() && Publishes(old(Contents(Residents())), (hash, item.key), item, kept, Contents(Residents()))
      ensures Welcome(old(State()), old(directory.slots[..]), hash, item, o) ==> kept && !poisoned
    {
      ghost var sh := State();
      WelcomePasses(sh, Listed(), hash, item, existing, o);
      var outcome, _ := Insert(hash, item, existing, o.contended, o.lost, o.exhausted);
      kept, poisoned := outcome.Cached?, outcome.Poisoned?;
      if outcome.Cached? || outcome.Dropped? {
        SurvivorsPublish(sh, hash, item, existing, outcome.evicted);
      }
    }

    /** Removes a key unless the cached value is newer. */
    method Delete(hash: u64, key: seq<nat>, seqno: nat)
      requires Valid()
      modifies Footprint()
      ensures Valid()
      ensures var m, id := old(Contents(Residents())), (hash, key);
              Contents(Residents()) == if id in m && m[id].seqno <= seqno then m - {id} else m
    {
      ghost var m, sh := Contents(Residents()), State();
      var found := Find(hash, key);
      if found.None? {
        return;
      }
      TableOf(sh);
      ContentsAt(sh.table, found.value);
      if slots[found.value].value.item.seqno > seqno {
        return;
      }
      RemoveSlot(found.value);
    }

    /** A hit returns the cached item, hands the caller a reference to its allocation and touches its
        policy note; a miss changes nothing. */
    method Lookup(hash: u64, key: seq<nat>) returns (found: Option<Item>)
      requires Valid()
      modifies this`ledger, eviction.Repr
      ensures Valid() && Residents() == old(Residents())
      ensures var m, id := Contents(Residents()), (hash, key); found == if id in m then Some(m[id]) else None
      ensures found.None? ==> State() == old(State())
      ensures found.Some? ==> exists k :: Resident(Residents(), k) && IdAt(Residents(), k) == (hash, key) && IsHit(old(State()), k, State())
    {
      ghost var sh := State();
      var slot := Find(hash, key);
      if slot.None? {
        return None;
      }
      TableOf(sh);
      ContentsAt(sh.table, slot.value);
      found := Some(slots[slot.value].value.item);
      Touch(slot.value);
    }

    /** Counts a hit with the policy and with the allocation. */
    method Touch(k: nat)
      requires Valid() && Resident(Residents(), k)
      modifies this`ledger, eviction.Repr
      ensures Valid() && IsHit(old(State()), k, State()) && Residents() == old(Residents())
    {
      ghost var sh := State();
      HitKeeps(sh, k);
      eviction.RecordHit(k);
      assert Residents() == sh.table;
      ledger := Charges.Do(ledger, Hit(slots[k].value.cell));
      assert State() == sh.(tracked := sh.tracked[k := Touched(sh.tracked[k])], ledger := ledger);
    }

    /** Offers a value read from the lower tier.  The caller receives what is cached afterwards, which is
        never older than the offer. */
    method Promote(hash: u64, item: Item, o: Oracle) returns (found: Option<Item>, poisoned: bool)
      requires Valid()
      modifies Footprint()
      ensures poisoned ==> found.None? && WindowFull(old(directory.slots[..]), Fingerprint(hash)) && EntryBytes(item) <= MAX_L1_ENTRY_BYTES
      ensures !poisoned ==> Valid()
      ensures !poisoned ==> Promotes(old(Contents(Residents())), (hash, item.key), item, found, Contents(Residents()))
      ensures found.Some? ==> Holds(State(), (hash, item.key))
      ensures Welcome(old(State()), old(directory.slots[..]), hash, item, o) ==> found == Some(item)
    {
      ghost var m, sh := Contents(Residents()), State();
      if EntryBytes(item) > MAX_L1_ENTRY_BYTES {
        return None, false;
      }
      var existing := Find(hash, item.key);
      if existing.Some? {
        TableOf(sh);
        ContentsAt(sh.table, existing.value);
        if slots[existing.value].value.item.seqno >= item.seqno {
          found := Lookup(hash, item.key);
          return found, false;
        }
      }
      var kept;
      kept, poisoned := Store(hash, item, existing, o);
      found := None;
      if kept {
        Retain(hash, item.key);
        found := Some(item);
      }
    }

    /** A caller drops one of its handles to an allocation; the last owner to go releases the charge. */
    method Release(cell: nat)
      requires Valid()
      modifies this`ledger
      ensures Valid() && Residents() == old(Residents())
      ensures ledger == if Charges.Enabled(old(ledger), DropHandle(cell)) then Charges.Do(old(ledger), DropHandle(cell)) else old(ledger)
    {
      if cell < |ledger.cells| && ledger.cells[cell].handles > 0 {
        CallerKeeps(State(), DropHandle(cell));
        ledger := Charges.Do(ledger, DropHandle(cell));
      }
    }

    /** A caller clones a handle it has. */
    method Share(cell: nat)
      requires Valid()
      modifies this`ledger
      ensures Valid() && Residents() == old(Residents())
      ensures ledger == if Charges.Enabled(old(ledger), CloneHandle(cell)) then Charges.Do(old(ledger), CloneHandle(cell)) else old(ledger)
    {
      if cell < |ledger.cells| && ledger.cells[cell].handles > 0 {
        CallerKeeps(State(), CloneHandle(cell));
        ledger := Charges.Do(ledger, CloneHandle(cell));
      }
    }

    /** Hands the caller a reference to a cached allocation. */
    method Retain(hash: u64, key: seq<nat>)
      requires Valid() && (hash, key) in Contents(Residents())
      modifies this`ledger
      ensures Valid() && Residents() == old(Residents()) && Holds(State(), (hash, key))
    {
      ghost var sh := State();
      var slot := Find(hash, key);
      HoldKeeps(sh, slot.value);
      ledger := Charges.Do(ledger, Hit(slots[slot.value].value.cell));
    }
  }

  /** The bytes that a charge lacks. */
  function Shortage(ledger: Ledger, required: nat): nat {
    SaturatingSub(required, SaturatingSub(ledger.capacity, ledger.used))
  }

  /** Nobody else holds the buffer, and it has exactly the right size. */
  predicate Reusable(cells: seq<Cell>, c: nat, item: Item) {
    c < |cells| && cells[c].handles == 0 && |cells[c].item.key| + |cells[c].item.data| == |item.key| + |item.data|
  }

  /** The preflight: the directory takes the fingerprint, and a new entry does not overfill its chain. */
  ghost predicate Passes(sh: Shard, s: seq<Slot>, hash: u64, replacement: Option<nat>) {
    var fp := Fingerprint(hash);
    CanUpsert(s, fp) && (replacement.None? ==> !(fp in sh.table.chains && |sh.table.chains[fp]| == MAX_SAME_HASH_ENTRIES))
  }

  /** What one search in vain with a whole step budget does to the notes. */
  ghost predicate Stirs(scene: Scene, before: map<nat, Note>, after: map<nat, Note>) {
    after == before <==> Quiescent(scene, Policies.MAX_POLICY_SCAN_STEPS)
  }

  /** The policy's selection from this scene. */
  ghost predicate Picks(scene: Scene, remaining: nat, reclaimable: set<nat>, left: nat, victim: Option<nat>) {
    exists scene' :: Chooses(scene, remaining, reclaimable, scene', left, victim)
  }

  /** The last selection of an admission: where it started and how many steps it had and left. */
  datatype Ending = Ending(scene: Scene, steps: nat, left: nat) {
    /** The step budget is used up, or the policy found nobody. */
    ghost predicate GaveUp(reclaimable: set<nat>) {
      left == 0 || (steps > 0 && Picks(scene, steps, reclaimable, left, None))
    }
  }

  /** Without its last victim the admission had not enough bytes. */
  ghost predicate Needed(notes: map<nat, Note>, victims: seq<nat>, bytes: nat, shortage: nat) {
    victims != [] ==> bytes < shortage + NoteWeight(notes, victims[|victims| - 1])
  }

  /** The evicted entries and the replaced one pay for the charge, and none of them was one too many. */
  ghost predicate Frugal(sh: Shard, replacement: Option<nat>, required: nat, evicted: seq<nat>) {
    var own := if replacement.Some? && ReleasesCharge(sh, replacement.value) then NoteWeight(sh.tracked, replacement.value) else 0;
    var bytes := own + Weights(sh.tracked, evicted);
    Shortage(sh.ledger, required) <= bytes && Needed(sh.tracked, evicted, bytes, Shortage(sh.ledger, required))
  }

  lemma {:induction false} PaidFor(sh: Shard, replacement: Option<nat>, required: nat, victims: seq<nat>, own: bool, bytes: nat, released: nat)
    requires Good(sh) && Weights(sh.tracked, Replaced(replacement) + victims) == Weights(sh.tracked, Replaced(replacement)) + released
    requires own <==> replacement.Some? && ReleasesCharge(sh, replacement.value)
    requires bytes == if own then NoteWeight(sh.tracked, replacement.value) else 0
    requires Needed(sh.tracked, victims, bytes + released, Shortage(sh.ledger, required)) && Shortage(sh.ledger, required) <= bytes + released
    ensures Frugal(sh, replacement, required, victims)
    ensures sh.ledger.used + required <= sh.ledger.capacity + bytes + released
  {
    FirstWeight(sh, Replaced(replacement), victims, released);
    UsedFits(sh);
  }

  /** What the budget loops and the allocator decide during one publication. */
  datatype Oracle = Oracle(contended: bool, lost: bool, exhausted: bool)

  /** A publication changes no other key than by evicting it, and never replaces a value that is at
      least as new.  A newer value that is too large displaces the older one and nothing else; an older
      value survives a newer one that fits only where nothing at all changed. */
  ghost predicate Publishes(m: map<Id, Item>, id: Id, item: Item, kept: bool, m': map<Id, Item>) {
    && (forall x :: x in m' && x != id ==> x in m && m'[x] == m[x])
    && (id in m' ==> m'[id] == item || (id in m && m'[id] == m[id]))
    && (id in m && m[id].seqno >= item.seqno ==> m' == m)
    && (kept <==> id in m' && m'[id].seqno >= item.seqno)
    && (EntryBytes(item) > MAX_L1_ENTRY_BYTES && (id in m ==> m[id].seqno < item.seqno) ==> m' == m - {id})
    && (id in m && id in m' && m[id].seqno < item.seqno && m'[id] == m[id] ==> m' == m)
  }

  /** Where a publication is certain to be cached: the value fits, bytes are available, the exchange loops
      and the allocator succeed, and either an older value of the key gives up its slot while the probe
      window has room, or a new key passes the preflight and finds a free slot. */
  ghost predicate Welcome(sh: Shard, s: seq<Slot>, hash: u64, item: Item, o: Oracle) {
    && EntryBytes(item) <= MAX_L1_ENTRY_BYTES && sh.ledger.used + EntryBytes(item) <= sh.ledger.capacity
    && !o.contended && !o.exhausted
    && var m, id := Contents(sh.table), (hash, item.key);
    if id in m then m[id].seqno < item.seqno && !WindowFull(s, Fingerprint(hash))
    else Passes(sh, s, hash, None) && sh.free != []
  }

  lemma {:induction false} WelcomePasses(sh: Shard, l: Listing, hash: u64, item: Item, existing: Option<nat>, o: Oracle)
    requires Good(sh) && Candidate(sh, hash, item, existing) && l.table == sh.table && Inv(l.slots) && ModelOf(l.slots) == sh.table.heads
    ensures Welcome(sh, l.slots, hash, item, o) ==> Passes(sh, l.slots, hash, existing)
    ensures Welcome(sh, l.slots, hash, item, o) && existing.None? ==> sh.free != [] && Admits(l, Replaced(existing) + [], Fingerprint(hash))
  {
    TableOf(sh);
    if existing.Some? {
      ContentsAt(sh.table, existing.value);
      var i := InChain(sh.table, existing.value);
      HeadsAreChains(sh.table, Fingerprint(hash));
    }
    OnlyReplaced(existing);
    ClearsNone(l, l);
    AdmitsIs(l, [], l, Fingerprint(hash));
  }

  /** An insertion that evicts, with or without a new value in the end, is such a publication. */
  lemma SurvivorsPublish(sh: Shard, hash: u64, item: Item, replacement: Option<nat>, evicted: seq<nat>)
    requires Good(sh) && Candidate(sh, hash, item, replacement) && EntryBytes(item) <= MAX_L1_ENTRY_BYTES
    requires var m, id := Contents(sh.table), (hash, item.key); id in m ==> m[id].seqno < item.seqno
    ensures var m, id, left := Contents(sh.table), (hash, item.key), Survivors(sh, evicted, replacement);
            Publishes(m, id, item, true, left[id := item]) && Publishes(m, id, item, false, left)
  {
    if replacement.Some? {
      assert replacement.value in Gone(evicted, replacement);
      assert IdAt(sh.table, replacement.value) in IdsOf(sh.table, Gone(evicted, replacement));
    }
  }

  /** A caller has a handle to the cached value of this key. */
  predicate Holds(sh: Shard, id: Id) {
    exists k :: 0 <= k < |sh.table.slots| && Resident(sh.table, k) && IdAt(sh.table, k) == id
                && CellAt(sh.table, k) < |sh.ledger.cells| && sh.ledger.cells[CellAt(sh.table, k)].handles > 0
  }

  /** A promotion is a publication of a value that fits; its answer is what is cached in the end. */
  ghost predicate Promotes(m: map<Id, Item>, id: Id, item: Item, found: Option<Item>, m': map<Id, Item>) {
    && (EntryBytes(item) > MAX_L1_ENTRY_BYTES ==> found.None? && m' == m)
    && (EntryBytes(item) <= MAX_L1_ENTRY_BYTES ==> Publishes(m, id, item, found.Some?, m'))
    && (found.Some? ==> id in m' && m'[id] == found.value && found.value.seqno >= item.seqno)
  }

  /** Callers come and go without touching the shard. */
  lemma CallerKeeps(sh: Shard, a: Charges.Action)
    requires Committing(sh, {}, {}) && sh.ledger.hand.None? && Charges.Enabled(sh.ledger, a) && (a.DropHandle? || a.CloneHandle?)
    ensures Committing(sh.(ledger := Charges.Do(sh.ledger, a)), {}, {}) && Charges.Do(sh.ledger, a).hand.None?
  {
    LedgerStep(sh, a);
    TidyCommitting(sh.(ledger := Charges.Do(sh.ledger, a)));
  }

  lemma HoldKeeps(sh: Shard, k: nat)
    requires Committing(sh, {}, {}) && sh.ledger.hand.None? && Resident(sh.table, k)
    ensures CellAt(sh.table, k) < |sh.ledger.cells| && Charges.Enabled(sh.ledger, Hit(CellAt(sh.table, k)))
    ensures Committing(sh.(ledger := Charges.Do(sh.ledger, Hit(CellAt(sh.table, k)))), {}, {})
  {
    CommitCell(sh, k);
    LedgerStep(sh, Hit(CellAt(sh.table, k)));
    TidyCommitting(sh.(ledger := Charges.Do(sh.ledger, Hit(CellAt(sh.table, k)))));
  }

  /** A hit on slot k changes the policy's note of k and adds a handle to its allocation. */
  ghost predicate IsHit(a: Shard, k: nat, b: Shard) {
    && k in a.tracked && Resident(a.table, k) && Charges.Enabled(a.ledger, Hit(CellAt(a.table, k)))
    && b == a.(tracked := a.tracked[k := Touched(a.tracked[k])], ledger := Charges.Do(a.ledger, Hit(CellAt(a.table, k))))
  }

  /** A hit touches the policy note and adds a caller to the allocation. */
  lemma HitKeeps(sh: Shard, k: nat)
    requires Committing(sh, {}, {}) && sh.detached == map[] && sh.ledger.hand.None? && Resident(sh.table, k)
    ensures k in sh.tracked && CellAt(sh.table, k) < |sh.ledger.cells| && Charges.Enabled(sh.ledger, Hit(CellAt(sh.table, k)))
    ensures var note := Touched(sh.tracked[k]);
            Committing(sh.(tracked := sh.tracked[k := note], ledger := Charges.Do(sh.ledger, Hit(CellAt(sh.table, k)))), {}, {})
  {
    assert sh in Lawful(Law.PolicyNotes);
    CommitCell(sh, k);
    var note := Touched(sh.tracked[k]);
    var noted := sh.(tracked := sh.tracked[k := note]);
    forall j | j in noted.tracked ensures NoteFits(sh.table, j, noted.tracked[j]) {
      assert NoteFits(sh.table, j, sh.tracked[j]);
    }
    NotesMove(sh, noted.tracked, sh.detached);
    LedgerStep(noted, Hit(CellAt(sh.table, k)));
    TidyCommitting(noted.(ledger := Charges.Do(sh.ledger, Hit(CellAt(sh.table, k)))));
  }

  /** The number of slots that a shard gets for a requested entry count. */
  function ClampedEntries(entries: nat): nat {
    Min(entries, Policies.MAX_POLICY_SLOT_INDEX + 1)
  }

  /** The clamp lets one entry too many through: with 2^32 - 1 entries the last slot index is the
      directory's tombstone value.  In the fresh directory of that shard, and wherever else it is accepted,
      a fingerprint written with that index is absent afterwards. */
  lemma ClampAdmitsTombstone(fp: u32)
    ensures ClampedEntries(0x1_0000_0000) == 0xFFFF_FFFF == DELETED_VALUE + 1
    ensures var s := seq(2 * ClampedEntries(0x1_0000_0000), i requires 0 <= i < 2 * ClampedEntries(0x1_0000_0000) => DefaultSlot);
            && |s| > 0 && Inv(s) && Accepts(s, fp, Home(fp, |s|))
            && fp !in ModelOf(s[Home(fp, |s|) := Slot(fp, DELETED_VALUE)])
    ensures forall s: seq<Slot>, i: nat :: i < |s| && Inv(s) && Accepts(s, fp, i) ==> fp !in ModelOf(s[i := Slot(fp, DELETED_VALUE)])
  {
    var n := 2 * ClampedEntries(0x1_0000_0000);
    var s := seq(n, i requires 0 <= i < n => DefaultSlot);
    FreshAccepts(s, fp);
    forall t: seq<Slot>, i: nat | i < |t| && Inv(t) && Accepts(t, fp, i) ensures fp !in ModelOf(t[i := Slot(fp, DELETED_VALUE)]) {
      StoredExactly(t, i, fp, DELETED_VALUE);
    }
  }

  /** What stays cached when the evicted and the replaced entries go. */
  ghost function Survivors(sh: Shard, evicted: seq<nat>, replacement: Option<nat>): map<Id, Item> {
    Contents(sh.table) - IdsOf(sh.table, Gone(evicted, replacement))
  }

  lemma AllSurvive(sh: Shard)
    ensures Survivors(sh, [], None) == Contents(sh.table)
  {
    assert Gone([], None) == {};
    assert IdsOf(sh.table, {}) == {};
  }

  datatype InsertOutcome = Cached(slot: nat, evicted: seq<nat>) | Dropped(evicted: seq<nat>) | Bypassed | Poisoned(evicted: seq<nat>)

  /** The entry to be replaced is the cached one of the same key, and there is none otherwise. */
  ghost predicate Candidate(sh: Shard, hash: u64, item: Item, replacement: Option<nat>) {
    if replacement.Some? then Resident(sh.table, replacement.value) && IdAt(sh.table, replacement.value) == (hash, item.key)
    else (hash, item.key) !in Contents(sh.table)
  }

  lemma ResidentTracked(sh: Shard, k: nat)
    requires Good(sh) && sh.detached == map[] && Resident(sh.table, k)
    ensures k in sh.tracked
  {
    assert sh in Lawful(Law.PolicyNotes);
  }

  /** Between admissions the policy tracks exactly the occupied slots, each with its hash and charge. */
  lemma TrackedExactly(sh: Shard, k: nat)
    requires Good(sh) && sh.detached == map[]
    ensures k in sh.tracked <==> Resident(sh.table, k)
    ensures k in sh.tracked ==> sh.tracked[k].hash == sh.table.hashes[k] && sh.tracked[k].weight == EntryBytes(sh.table.slots[k].value.item)
  {
    assert sh in Lawful(Law.PolicyNotes);
    assert k in sh.tracked ==> NoteFits(sh.table, k, sh.tracked[k]);
  }

  lemma ShrunkOne(a: Shard, b: Shard, k: nat)
    requires Shrunk(a, b, {k}) && Resident(a.table, k)
    ensures Contents(b.table) == Contents(a.table) - {IdAt(a.table, k)}
  {
    assert IdsOf(a.table, {k}) == {IdAt(a.table, k)};
  }

  lemma CandidateTracked(sh: Shard, hash: u64, item: Item, replacement: Option<nat>)
    requires Good(sh) && sh.detached == map[] && Candidate(sh, hash, item, replacement)
    ensures replacement.Some? ==> replacement.value in sh.tracked
  {
    if replacement.Some? {
      ResidentTracked(sh, replacement.value);
    }
  }

  lemma CandidateRoom(sh: Shard, end: Shard, hash: u64, item: Item, replacement: Option<nat>, r: ChargeResult)
    requires r.Charged? && Good(sh) && Candidate(sh, hash, item, replacement) && Admitted(sh, end, EntryBytes(item), replacement, r)
    requires end.free != []
    requires replacement.None? ==> !(Fingerprint(hash) in sh.table.chains && |sh.table.chains[Fingerprint(hash)]| == MAX_SAME_HASH_ENTRIES)
    ensures end.free[0] < |end.table.slots| == |end.table.hashes| <= DELETED_VALUE && CanInsert(end.table, end.free[0], hash, item)
  {
    TableOf(sh);
    ChainCard(sh.table, Fingerprint(hash));
    AdmittedRoom(sh, end, hash, item, EntryBytes(item), replacement, r);
  }

  lemma OneMore(first: seq<nat>, victims: seq<nat>, k: nat)
    ensures (first + victims) + [k] == first + (victims + [k])
  {
  }

  /** The victims so far: gathered, detached, weighed and spent. */
  ghost predicate Harvested(sh: Shard, first: seq<nat>, victims: seq<nat>, released: nat, before: map<nat, Note>, now: Shard) {
    && Gathered(sh, first + victims) && Parted(sh, first + victims, now)
    && Weights(sh.tracked, first + victims) == Weights(sh.tracked, first) + released
    && now.detached in Hauls(sh, victims, before)
  }

  ghost function Harvests(veil: Veil, sh: Shard, first: seq<nat>, victims: seq<nat>, released: nat, before: map<nat, Note>): iset<Shard> {
    match veil
    case Veil => iset now: Shard | Harvested(sh, first, victims, released, before, now)
  }

  /** The same as a clause that proofs open by mentioning it. */
  ghost predicate Harvest(sh: Shard, first: seq<nat>, victims: seq<nat>, released: nat, before: map<nat, Note>, now: Shard) {
    forall veil {:trigger now in Harvests(veil, sh, first, victims, released, before)} ::
      now in Harvests(veil, sh, first, victims, released, before)
  }

  lemma {:induction false} HarvestIs(sh: Shard, first: seq<nat>, victims: seq<nat>, released: nat, before: map<nat, Note>, now: Shard)
    ensures Harvest(sh, first, victims, released, before, now) <==> Harvested(sh, first, victims, released, before, now)
  {
    assert now in Harvests(Veil, sh, first, victims, released, before) <==> Harvested(sh, first, victims, released, before, now);
    forall veil
      ensures now in Harvests(veil, sh, first, victims, released, before) <==> now in Harvests(Veil, sh, first, victims, released, before)
    {
      match veil
      case Veil =>
    }
  }

  lemma {:induction false} HarvestNone(sh: Shard, first: seq<nat>, now: Shard)
    requires Gathered(sh, first) && Parted(sh, first, now)
    ensures Harvest(sh, first, [], 0, now.detached, now)
  {
    assert first + [] == first;
    HarvestIs(sh, first, [], 0, now.detached, now);
  }

  /** Another selection. */
  lemma {:induction false} HarvestEased(sh: Shard, first: seq<nat>, victims: seq<nat>, released: nat, before: map<nat, Note>, was: Shard, tracked: map<nat, Note>)
    requires Harvest(sh, first, victims, released, before, was) && Eased(was.tracked, tracked)
    ensures Harvest(sh, first, victims, released, before, was.(tracked := tracked))
  {
    HarvestIs(sh, first, victims, released, before, was);
    PartedEased(sh, first + victims, was, tracked);
    HarvestIs(sh, first, victims, released, before, was.(tracked := tracked));
  }

  /** One more victim. */
  lemma {:induction false} HarvestMore(sh: Shard, first: seq<nat>, victims: seq<nat>, released: nat, before: map<nat, Note>, was: Shard, k: nat)
    requires Good(sh) && Harvest(sh, first, victims, released, before, was)
    requires k in was.tracked && Spent(was.tracked[k]) && (Resident(was.table, k) ==> ReleasesCharge(was, k))
    ensures Good(was) && Resident(was.table, k) && EntryBytes(was.table.slots[k].value.item) == NoteWeight(sh.tracked, k)
    ensures Harvest(sh, first, victims + [k], released + NoteWeight(sh.tracked, k), before, Detach(was, k))
  {
    HarvestIs(sh, first, victims, released, before, was);
    PartedFrame(sh, first + victims, was);
    PartedApart(sh, first + victims, was, k);
    GatherStep(sh, first + victims, was, k);
    HaulMore(sh, victims, before, was.detached, k, was.tracked[k]);
    OneMore(first, victims, k);
    HarvestIs(sh, first, victims + [k], released + NoteWeight(sh.tracked, k), before, Detach(was, k));
  }

  /** Spent, exclusively owned victims have joined the entries that had been detached before. */
  ghost function Hauls(sh: Shard, victims: seq<nat>, before: map<nat, Note>): iset<map<nat, Note>> {
    iset pulled: map<nat, Note> | Hauled(sh, victims, before, pulled)
  }

  ghost predicate Hauled(sh: Shard, victims: seq<nat>, before: map<nat, Note>, pulled: map<nat, Note>) {
    && (forall i :: 0 <= i < |victims| ==> ReleasesCharge(sh, victims[i]))
    && (forall i :: 0 <= i < |victims| ==> victims[i] in pulled && Spent(pulled[victims[i]]))
    && (forall k :: k in before ==> k in pulled && pulled[k] == before[k])
  }

  lemma HaulMore(sh: Shard, victims: seq<nat>, before: map<nat, Note>, pulled: map<nat, Note>, k: nat, note: Note)
    requires pulled in Hauls(sh, victims, before) && k !in pulled && ReleasesCharge(sh, k) && Spent(note)
    ensures pulled[k := note] in Hauls(sh, victims + [k], before)
  {
  }

  /** Slot k leaves the free list for the head of its chain. */
  predicate Joins(a: Shard, b: Shard, hash: u64, k: nat) {
    && a.free != [] && k == a.free[0] && b.free == a.free[1..] && b.ledger.capacity == a.ledger.capacity
    && var fp := Fingerprint(hash);
    b.table.chains == a.table.chains[fp := [k] + (if fp in a.table.chains then a.table.chains[fp] else [])]
  }

  /** The directory names slot k for fingerprint fp, in a place that accepts it. */
  ghost predicate Enlists(s: seq<Slot>, fp: u32, k: nat, t: seq<Slot>) {
    k < DELETED_VALUE && exists i: nat :: i < |s| && Accepts(s, fp, i) && t == s[i := Slot(fp, k)]
  }

  /** Entry k is the only one with its fingerprint. */
  predicate Lone(sh: Shard, k: nat) {
    && Resident(sh.table, k)
    && var fp := Fingerprint(sh.table.hashes[k]); fp in sh.table.chains && |sh.table.chains[fp]| == 1
  }

  lemma LoneListed(sh: Shard, k: nat, s: seq<Slot>)
    requires Good(sh) && Lone(sh, k) && Inv(s) && ModelOf(s) == sh.table.heads
    ensures Fingerprint(sh.table.hashes[k]) in Fingerprints(s)
  {
    TableOf(sh);
    HeadsAreChains(sh.table, Fingerprint(sh.table.hashes[k]));
  }

  /** Replacing a lone entry with bytes to spare is refused by the directory exactly if it is locked; an
      admission that evicts nobody leaves the directory alone. */
  lemma {:induction false} SettledBefore(l: Listing, now: Listing, replacement: Option<nat>, r: ChargeResult, fp: u32)
    requires r.Charged? && Clears(l, Replaced(replacement) + r.evicted, now) && Tables.Sound(l.table) && Inv(l.slots)
    requires ModelOf(l.slots) == l.table.heads
    ensures replacement.None? && r.evicted == [] ==> now == l
    ensures replacement.Some? && r.evicted == [] && Resident(l.table, replacement.value) && Fingerprint(l.table.hashes[replacement.value]) == fp
            && fp in l.table.chains && |l.table.chains[fp]| == 1 ==>
              (Admits(l, Replaced(replacement) + r.evicted, fp) <==> !Locked(l.slots, fp))
  {
    AdmitsIs(l, Replaced(replacement) + r.evicted, now, fp);
    if r.evicted == [] {
      assert Replaced(replacement) + r.evicted == Replaced(replacement);
      ClearsNone(l, now);
      if replacement.Some? && Resident(l.table, replacement.value) && Fingerprint(l.table.hashes[replacement.value]) == fp
         && fp in l.table.chains && |l.table.chains[fp]| == 1 {
        ClearsLone(l, replacement.value, now);
        HeadsAreChains(l.table, fp);
        LockedExact(l.slots, fp);
      }
    }
  }

  /** A charged admission always leaves a free slot. */
  lemma RoomMade(a: Shard, b: Shard, replacement: Option<nat>, required: nat, r: ChargeResult)
    requires r.Charged? && Good(a) && Admitted(a, b, required, replacement, r)
    requires a.ledger.used + required > a.ledger.capacity ==> Frugal(a, replacement, required, r.evicted)
    requires a.ledger.used + required <= a.ledger.capacity && replacement.None? && r.evicted == [] ==> b.free != []
    ensures b.free != []
  {
    UsedFits(a);
    if replacement.Some? {
      VacatedFree(a, b, Gone(r.evicted, replacement), replacement.value);
    } else if r.evicted != [] {
      assert r.evicted[0] in Gone(r.evicted, replacement);
      VacatedFree(a, b, Gone(r.evicted, replacement), r.evicted[0]);
    }
  }

  lemma FieldByField(a: Shard, b: Shard)
    requires a.table == b.table && a.free == b.free && a.residentBytes == b.residentBytes
    requires a.tracked == b.tracked && a.detached == b.detached && a.ledger == b.ledger
    ensures a == b
  {
  }

  lemma PlacedWell(sh: Shard, hash: u64, item: Item, cell: nat, ledger: Ledger, note: Note)
    requires CanPlace(sh, hash, item, cell, ledger, note) && Tidy(ledger)
    ensures var goal := Placed(sh, hash, item, cell, ledger, note);
            Committing(goal, {}, {}) && Contents(goal.table) == Contents(sh.table)[(hash, item.key) := item] && Joins(sh.(ledger := ledger), goal, hash, sh.free[0])
    ensures Tables.Sound(sh.table)
  {
    PlacedGood(sh, hash, item, cell, ledger, note);
    TidyCommitting(Placed(sh, hash, item, cell, ledger, note));
    PlacedContents(sh, hash, item, cell, ledger, note);
    TableOf(sh);
  }

  /** A slot that was vacated is on the free list. */
  lemma VacatedFree(a: Shard, b: Shard, gone: set<nat>, k: nat)
    requires Good(b) && Shrunk(a, b, gone) && k in gone
    ensures b.free != []
  {
    assert b in Lawful(Law.FreeSlots);
    assert Resident(a.table, k) && !Resident(b.table, k);
  }

  lemma FreeUntracked(sh: Shard)
    requires Good(sh) && sh.free != []
    ensures sh.free[0] !in sh.tracked
  {
    assert sh in Lawful(Law.FreeSlots) && sh in Lawful(Law.PolicyNotes);
    assert forall k :: k in sh.tracked ==> NoteFits(sh.table, k, sh.tracked[k]);
  }

  lemma EasedLess(a: map<nat, Note>, b: map<nat, Note>, gone: set<nat>)
    requires Eased(a, b)
    ensures Eased(a - gone, b - gone)
  {
  }

  /** One entry makes room for a charged candidate. */
  lemma OneGone(sh: Shard, before: Shard, end: Shard, k: nat, required: nat, replacement: Option<nat>, r: ChargeResult)
    requires r.Charged? && r.recycled.Some? && Gone(r.evicted, replacement) == {k} && Gathered(sh, r.evicted) && |r.evicted| <= 1
    requires Committing(end, {}, {r.recycled.value}) && end.detached == map[] && Shrunk(before, end, {k})
    requires before.table == sh.table && Eased(sh.tracked, before.tracked) && end.tracked == before.tracked - {k}
    requires end.ledger.hand == Some(required) && end.ledger.capacity == sh.ledger.capacity
    ensures Admitted(sh, end, required, replacement, r)
  {
    ShrunkSame(before, end, sh, end, {k});
    EasedLess(sh.tracked, before.tracked, {k});
  }

  lemma OnlyReplaced(replacement: Option<nat>)
    ensures Replaced(replacement) + [] == Replaced(replacement)
  {
  }

  /** Nobody has to leave. */
  lemma PlainlyAdmitted(sh: Shard, charged: Shard, required: nat)
    requires Committing(charged, {}, {}) && charged == sh.(ledger := charged.ledger) && sh.detached == map[]
    requires charged.ledger.hand == Some(required) && charged.ledger.capacity == sh.ledger.capacity
    ensures Admitted(sh, charged, required, None, Charged([], None)) && Replaced(None) + [] == []
  {
    ShrunkSelf(sh);
    ShrunkSame(sh, sh, sh, charged, {});
    assert Gone([], None) == {};
    EasedSelf(sh.tracked);
    EasedLess(sh.tracked, sh.tracked, {});
  }

  lemma GoneOne(replacement: Option<nat>, evicted: seq<nat>, k: nat)
    requires Replaced(replacement) + evicted == [k]
    ensures Gone(evicted, replacement) == {k} && |evicted| <= 1 && forall i :: 0 <= i < |evicted| ==> evicted[i] == k
  {
    assert |Replaced(replacement) + evicted| == 1 && (Replaced(replacement) + evicted)[0] == k;
  }

  lemma EasedCommitting(sh: Shard, notes: map<nat, Note>)
    requires Committing(sh, {}, {}) && Eased(sh.tracked, notes)
    ensures Committing(sh.(tracked := notes), {}, {})
  {
    EasedUndone(sh, notes);
    UndoneCommitting(sh, sh.(tracked := notes), map[]);
  }

  lemma LentBack(sh: Shard, replacement: Option<nat>, victims: seq<nat>, pulled: map<nat, Note>)
    requires forall k :: k in pulled <==> k in Replaced(replacement) + victims
    requires replacement.Some? && replacement.value in pulled && replacement.value in sh.tracked ==>
               pulled[replacement.value] == sh.tracked[replacement.value]
    requires forall i :: 0 <= i < |victims| ==> ReleasesCharge(sh, victims[i]) && victims[i] in pulled && Spent(pulled[victims[i]])
    ensures Lent(sh, replacement, pulled)
  {
    forall k | k in pulled && k in sh.tracked && replacement != Some(k) ensures ReleasesCharge(sh, k) && Spent(pulled[k]) {
      assert k in victims;
      var i :| 0 <= i < |victims| && victims[i] == k;
    }
  }

  lemma ListStep(list: seq<nat>, n: nat)
    requires Distinct(list) && n < |list|
    ensures list[n] in SetOf(list[n..])
    ensures SetOf(list[n..]) - {list[n]} == SetOf(list[n + 1..])
    ensures SetOf(list[..n]) + {list[n]} == SetOf(list[..n + 1]) && list[..n + 1] == list[..n] + [list[n]] && list[n] !in list[..n]
  {
    assert list[n..] == [list[n]] + list[n + 1..];
    assert list[..n + 1] == list[..n] + [list[n]];
    var rest := list[n + 1..];
    forall j | 0 <= j < |rest| ensures rest[j] != list[n] {
      assert rest[j] == list[n + 1 + j];
    }
  }

  lemma SamePlace(t: Table, fp: u32, i: nat, j: nat)
    requires Tables.Sound(t) && fp in t.chains && i < |t.chains[fp]| && j < |t.chains[fp]|
    requires t.chains[fp][i] == t.chains[fp][j]
    ensures i == j
  {
    assert t in Tabled(Linked);
    assert ChainOk(t, fp);
  }

  /** The allocation of an entry about to be evicted. */
  lemma EvictedLedger(sh: Shard, fp: u32, i: nat)
    requires CanEvict(sh, fp, i)
    ensures var c, l := sh.table.slots[sh.table.chains[fp][i]].value.cell, sh.ledger;
            l.cells[c].resident && !l.cells[c].local
  {
    CommitCell(sh, sh.table.chains[fp][i]);
  }

  lemma EmptyGood(sh: Shard)
    requires |sh.table.slots| == |sh.table.hashes| <= DELETED_VALUE && sh.table.heads == map[] && sh.table.chains == map[]
    requires forall k :: 0 <= k < |sh.table.slots| ==> sh.table.slots[k] == None
    requires sh.free == seq(|sh.table.slots|, i => i) && sh.residentBytes == 0
    requires sh.tracked == map[] && sh.detached == map[] && sh.ledger == Ledger(sh.ledger.capacity, 0, [], None)
    ensures Good(sh) && Contents(sh.table) == map[]
  {
    assert sh.table in Tabled(Shaped) && sh.table in Tabled(Linked) && sh.table in Tabled(Covered) && sh.table in Tabled(Distinguished);
    Whole(sh.table);
    assert sh in Lawful(Residents) && sh in Lawful(PolicyNotes) && sh in Lawful(Cells) && sh in Lawful(Budget);
    forall k | 0 <= k < |sh.table.slots| ensures k in sh.free {
      assert sh.free[k] == k;
    }
    assert sh in Lawful(FreeSlots);
    NothingResident(sh.table.slots);
    AllLaws(sh);
  }

  lemma {:induction false} NothingResident(slots: seq<Option<Entry>>)
    requires forall k :: 0 <= k < |slots| ==> slots[k] == None
    ensures Sums.Sum(slots, SlotBytes) == 0
  {
    Sums.SumZero(slots, SlotBytes);
  }
}
