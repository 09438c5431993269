/** A rejected admission that leaves its mark: the only resident of a CLOCK shard is visited and held, so the
    search for a victim clears its bit in vain. */
module Rejections {
  import opened Machine
  import opened Collect
  import opened Directory
  import opened Tables
  import opened Charges
  import opened Policies
  import opened Notes
  import opened EvictionStates
  import opened Shards
  import opened Admission
  import opened Memory

  /** The shard caches one entry of sixty-five bytes, in slot 0. */
  ghost predicate Single(sh: Shard, slots: seq<Slot>, hash: u64) {
    && Committing(sh, {}, {}) && sh.detached == map[] && Inv(slots) && |slots| == 4 && ModelOf(slots) == sh.table.heads
    && sh.table.chains == map[Fingerprint(hash) := [0]] && Contents(sh.table).Keys == {(hash, [0])}
    && sh.ledger.capacity == 128 && sh.ledger.used == 65
  }

  /** A caller holds it, and the policy has seen that. */
  ghost predicate Guarded(sh: Shard) {
    0 in sh.tracked && sh.tracked[0].mark == Visited(true) && !ReleasesCharge(sh, 0)
  }

  lemma OnlySlot(sh: Shard, slots: seq<Slot>, hash: u64, k: nat)
    requires Single(sh, slots, hash)
    ensures Resident(sh.table, k) <==> k == 0
    ensures k in sh.tracked <==> k == 0
  {
    TableOf(sh);
    assert 0 in sh.table.chains[Fingerprint(hash)];
    ChainMember(sh.table, Fingerprint(hash), 0);
    TrackedExactly(sh, k);
    if Resident(sh.table, k) {
      var i := InChain(sh.table, k);
    }
  }

  lemma SingleSpace(sh: Shard, slots: seq<Slot>, hash: u64, other: u64)
    requires Single(sh, slots, hash)
    ensures Passes(sh, slots, other, None) && (other, [1]) !in Contents(sh.table)
  {
    TableOf(sh);
    forall fp ensures fp in ModelOf(slots) <==> fp in {Fingerprint(hash)} {
      HeadsAreChains(sh.table, fp);
    }
    assert ModelOf(slots).Keys == {Fingerprint(hash)};
    SmallAccepts(slots, Fingerprint(other));
  }

  /** Nothing can pay for another entry of sixty-five bytes. */
  lemma NobodyPays(sh: Shard, slots: seq<Slot>, hash: u64, evicted: seq<nat>)
    requires Single(sh, slots, hash) && Guarded(sh) && Gathered(sh, evicted)
    requires forall i :: 0 <= i < |evicted| ==> ReleasesCharge(sh, evicted[i])
    ensures !Frugal(sh, None, 65, evicted)
  {
    if evicted != [] {
      OnlySlot(sh, slots, hash, evicted[0]);
    }
    assert evicted == [];
  }

  lemma NobodyLent(sh: Shard, slots: seq<Slot>, hash: u64, end: Shard, pulled: map<nat, Note>)
    requires Single(sh, slots, hash) && Guarded(sh) && Undone(sh, end, pulled) && Lent(sh, None, pulled)
    ensures pulled == map[]
  {
    forall k | k in pulled ensures false {
      OnlySlot(sh, slots, hash, k);
    }
  }

  /** The hand would pass the visited resident. */
  lemma NotQuiescent(c: Clock)
    requires ClockOk(c) && (forall k :: k in c.residents <==> k == 0) && 0 < |c.visited| && c.visited[0]
    ensures !Quiescent(ClockScene(c), MAX_POLICY_SCAN_STEPS)
  {
    assert 0 in c.residents;
    assert c.residents[0] in c.residents && c.residents[|c.residents| - 1] in c.residents;
    assert |c.residents| == 1 && Ahead(c, 0) == 0;
  }

  lemma SingleBorn(a: Shard, b: Shard, s: seq<Slot>, t: seq<Slot>, hash: u64)
    requires a.table.chains == map[] && Joins(a, b, hash, 0) && Enlists(s, Fingerprint(hash), 0, t) && |s| == 4
    requires Contents(a.table) == map[] && Contents(b.table) == map[(hash, [0]) := Item([0], [], 0)]
    requires Committing(b, {}, {}) && b.detached == map[] && Inv(t) && ModelOf(t) == b.table.heads
    requires a.ledger.capacity == 128 && b.ledger.used == 65
    ensures Single(b, t, hash)
  {
    assert [0] + [] == [0];
    assert Contents(b.table).Keys == {(hash, [0])};
  }

  method OneEntry(hash: u64) returns (shard: MemoryShard)
    ensures fresh(shard.Footprint()) && shard.Valid() && shard.eviction.policy.ClockPolicy?
    ensures Single(shard.State(), shard.directory.slots[..], hash)
  {
    shard := new MemoryShard(128, 2, false);
    ghost var sh, empty := shard.State(), shard.directory.slots[..];
    FreshAccepts(empty, Fingerprint(hash));
    AddFirst(shard, hash);
    SingleBorn(sh, shard.State(), empty, shard.directory.slots[..], hash);
  }

  method AddFirst(shard: MemoryShard, hash: u64)
    requires shard.Valid() && shard.chains == map[] && CanUpsert(shard.directory.slots[..], Fingerprint(hash))
    requires shard.free != [] && shard.free[0] == 0 && shard.ledger.used == 0 && shard.ledger.capacity == 128
    requires Contents(shard.Residents()) == map[]
    modifies shard.Footprint()
    ensures shard.Valid() && Joins(old(shard.State()), shard.State(), hash, 0)
    ensures Enlists(old(shard.directory.slots[..]), Fingerprint(hash), 0, shard.directory.slots[..])
    ensures shard.ledger.used == 65 && Contents(shard.Residents()) == map[(hash, [0]) := Item([0], [], 0)]
  {
    AllSurvive(shard.State());
    var outcome, _ := shard.Insert(hash, Item([0], [], 0), None, false, false, false);
  }

  /** After a hit the caller holds the entry, and its bit is set. */
  lemma SingleHit(sh: Shard, slots: seq<Slot>, hash: u64, end: Shard, k: nat)
    requires Single(sh, slots, hash) && 0 in sh.tracked && sh.tracked[0].mark.Visited? && Resident(sh.table, k) && IsHit(sh, k, end)
    requires Committing(end, {}, {})
    ensures Single(end, slots, hash) && Guarded(end)
  {
    OnlySlot(sh, slots, hash, k);
  }

  method HoldOne(hash: u64) returns (shard: MemoryShard)
    ensures fresh(shard.Footprint()) && shard.Valid() && shard.eviction.policy.ClockPolicy?
    ensures Single(shard.State(), shard.directory.slots[..], hash) && Guarded(shard.State())
  {
    shard := OneEntry(hash);
    Hold(shard, hash);
  }

  method Hold(shard: MemoryShard, hash: u64)
    requires shard.Valid() && shard.eviction.policy.ClockPolicy? && Single(shard.State(), shard.directory.slots[..], hash)
    modifies shard.Footprint()
    ensures shard.Valid() && Single(shard.State(), shard.directory.slots[..], hash) && Guarded(shard.State())
  {
    ghost var sh, slots := shard.State(), shard.directory.slots[..];
    shard.eviction.ClockNotes();
    OnlySlot(sh, slots, hash, 0);
    var found := shard.Lookup(hash, [0]);
    ghost var k: nat :| Resident(sh.table, k) && IsHit(sh, k, shard.State());
    SingleHit(sh, slots, hash, shard.State(), k);
  }

  /** Admitting a second entry is rejected, and the first one has lost its second chance. */
  method PassedBy(hash: u64, other: u64) returns (shard: MemoryShard, outcome: InsertOutcome, ghost before: Shard)
    ensures outcome.Bypassed? && Single(before, shard.directory.slots[..], hash) && Guarded(before)
    ensures shard.State() == before.(tracked := before.tracked[0 := before.tracked[0].(mark := Visited(false))])
  {
    shard := HoldOne(hash);
    before := shard.State();
    ghost var slots := shard.directory.slots[..];
    SingleSpace(before, slots, hash, other);
    shard.eviction.ClockNotes();
    ghost var scene := shard.eviction.Scenery();
    forall k ensures k in scene.clock.residents <==> k == 0 {
      OnlySlot(before, slots, hash, k);
    }
    NotQuiescent(scene.clock);
    ghost var pulled;
    outcome, pulled := shard.Insert(other, Item([1], [], 1), None, false, false, false);
    if !outcome.Bypassed? {
      NobodyPays(before, slots, hash, outcome.evicted);
    } else {
      NobodyLent(before, slots, hash, shard.State(), pulled);
      OnlyMark(before, slots, hash, shard.State());
    }
  }

  /** The only note that can differ is the resident's, and only by its visited bit. */
  lemma OnlyMark(sh: Shard, slots: seq<Slot>, hash: u64, end: Shard)
    requires Single(sh, slots, hash) && Guarded(sh) && Undone(sh, end, map[]) && end.tracked != sh.tracked
    ensures end == sh.(tracked := sh.tracked[0 := sh.tracked[0].(mark := Visited(false))])
  {
    forall k ensures k in end.tracked <==> k == 0 {
      OnlySlot(sh, slots, hash, k);
    }
    OnlySlot(sh, slots, hash, 0);
    forall k ensures k in sh.tracked <==> k == 0 {
      OnlySlot(sh, slots, hash, k);
    }
    assert end.tracked[0] == sh.tracked[0] ==> end.tracked == sh.tracked;
    assert Milder(sh.tracked[0], end.tracked[0]);
    assert end.tracked == sh.tracked[0 := sh.tracked[0].(mark := Visited(false))];
  }
}
