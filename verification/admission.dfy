/** Admission to an L1 shard: which victims may be gathered, what restoring them undoes, and what
    committing them removes. */
module Admission {
  import opened Machine
  import opened Collect
  import opened Directory
  import opened Lists
  import opened Tables
  import opened Charges
  import opened Shards
  import opened Notes

  // ----- evicting -----

  /** Slot k stays resident with the same entry and allocation. */
  predicate Stays(a: Shard, b: Shard, k: nat) {
    && (Resident(b.table, k) <==> Resident(a.table, k))
    && (Resident(a.table, k) ==>
          && IdAt(b.table, k) == IdAt(a.table, k)
          && b.table.slots[k].value.item == a.table.slots[k].value.item
          && b.table.slots[k].value.cell == a.table.slots[k].value.cell)
  }

  ghost function IdsOf(t: Table, gone: set<nat>): set<Id> {
    set k | k in gone && Resident(t, k) :: IdAt(t, k)
  }

  /** Shard b is shard a without the slots in `gone`. */
  ghost predicate Shrunk(a: Shard, b: Shard, gone: set<nat>) {
    && |b.table.slots| == |a.table.slots| && |b.table.hashes| == |a.table.hashes|
    && (forall k :: k in gone ==> Resident(a.table, k) && !Resident(b.table, k))
    && (forall k :: 0 <= k < |a.table.slots| && k !in gone ==> Stays(a, b, k))
    && Contents(b.table) == Contents(a.table) - IdsOf(a.table, gone)
  }

  lemma ShrunkSelf(sh: Shard)
    ensures Shrunk(sh, sh, {})
  {
    assert IdsOf(sh.table, {}) == {};
    assert Contents(sh.table) - {} == Contents(sh.table);
  }

  /** A detached entry has a place in its chain and can be evicted. */
  lemma Evictable(sh: Shard, k: nat) returns (i: nat)
    requires Good(sh) && k in sh.detached
    ensures Resident(sh.table, k)
    ensures var fp := Fingerprint(sh.table.hashes[k]);
            CanEvict(sh, fp, i) && sh.table.chains[fp][i] == k && sh.detached[k].hash == sh.table.hashes[k]
  {
    assert sh in Lawful(Residents) && sh in Lawful(PolicyNotes) && sh in Lawful(Cells);
    assert NoteFits(sh.table, k, sh.detached[k]);
    i := InChain(sh.table, k);
    Removable(sh.table, Fingerprint(sh.table.hashes[k]), i);
    assert CellFits(sh.ledger.cells, sh.table.slots[k].value);
  }

  lemma EvictedStays(sh: Shard, fp: u32, i: nat, j: nat)
    requires CanEvict(sh, fp, i) && j != sh.table.chains[fp][i] && j < |sh.table.slots|
    ensures Stays(sh, Evicted(sh, fp, i), j)
  {
    RemovedElsewhere(sh.table, fp, i);
  }

  lemma EvictedShrunk(sh: Shard, fp: u32, i: nat)
    requires CanEvict(sh, fp, i)
    ensures Shrunk(sh, Evicted(sh, fp, i), {sh.table.chains[fp][i]})
  {
    var k, sh' := sh.table.chains[fp][i], Evicted(sh, fp, i);
    RemovedElsewhere(sh.table, fp, i);
    EvictedContents(sh, fp, i);
    assert IdsOf(sh.table, {k}) == {IdAt(sh.table, k)};
    forall j | 0 <= j < |sh.table.slots| && j !in {k} ensures Stays(sh, sh', j) {
      EvictedStays(sh, fp, i, j);
    }
  }

  lemma MinusTwice<K, V>(m: map<K, V>, x: set<K>, y: K)
    ensures m - x - {y} == m - (x + {y})
  {
  }

  lemma IdsMore(a: Shard, b: Shard, gone: set<nat>, k: nat)
    requires Stays(a, b, k) && Resident(b.table, k)
    ensures IdsOf(b.table, {k}) == {IdAt(a.table, k)}
    ensures IdsOf(a.table, gone + {k}) == IdsOf(a.table, gone) + {IdAt(a.table, k)}
  {
  }

  lemma StaysTwice(a: Shard, b: Shard, c: Shard, k: nat)
    requires Stays(a, b, k) && Stays(b, c, k)
    ensures Stays(a, c, k)
  {
  }

  lemma ShrunkAgain(a: Shard, b: Shard, c: Shard, gone: set<nat>, k: nat)
    requires Shrunk(a, b, gone) && Shrunk(b, c, {k})
    ensures Shrunk(a, c, gone + {k}) && k !in gone
  {
    assert k in {k};
    IdsMore(a, b, gone, k);
    MinusTwice(Contents(a.table), IdsOf(a.table, gone), IdAt(a.table, k));
    forall j | 0 <= j < |a.table.slots| && j !in gone + {k} ensures Stays(a, c, j) {
      StaysTwice(a, b, c, j);
    }
  }

  /** Policy notes and ledger steps do not change what is resident. */
  lemma ShrunkSame(a: Shard, b: Shard, a': Shard, b': Shard, gone: set<nat>)
    requires Shrunk(a, b, gone) && a'.table == a.table && b'.table == b.table
    ensures Shrunk(a', b', gone)
  {
    forall k | 0 <= k < |a.table.slots| && k !in gone ensures Stays(a', b', k) {
      assert Stays(a, b, k);
    }
  }

  // ----- ledger facts during an admission -----

  /** The allocation of resident k. */
  function CellAt(t: Table, k: nat): nat
    requires Resident(t, k)
  {
    t.slots[k].value.cell
  }

  /** Nobody but the slot can see the value. */
  predicate ReleasesCharge(sh: Shard, k: nat) {
    Resident(sh.table, k) && CellAt(sh.table, k) < |sh.ledger.cells| && sh.ledger.cells[CellAt(sh.table, k)].handles == 0
  }

  /** Dropping a reference to this allocation releases no charge. */
  predicate Harmless(cells: seq<Cell>, c: nat) {
    c < |cells| && (!cells[c].armed || cells[c].handles > 0)
  }

  function NoteWeight(notes: map<nat, Note>, k: nat): nat {
    if k in notes then notes[k].weight else 0
  }

  /** Total charge of the noted residents. */
  function Weights(notes: map<nat, Note>, victims: seq<nat>): nat {
    if victims == [] then 0
    else Weights(notes, victims[..|victims| - 1]) + NoteWeight(notes, victims[|victims| - 1])
  }

  lemma {:induction false} WeightsPush(notes: map<nat, Note>, victims: seq<nat>, k: nat)
    ensures Weights(notes, victims + [k]) == Weights(notes, victims) + (if k in notes then notes[k].weight else 0)
  {
    assert (victims + [k])[..|victims|] == victims;
  }

  /** The victims so far are distinct residents that the policy tracked at the start. */
  predicate Gathered(sh: Shard, victims: seq<nat>) {
    Distinct(victims) && forall i :: 0 <= i < |victims| ==> victims[i] in sh.tracked
  }

  /** Shard `now` is sh with the victims detached, after selections that eased the other notes, and
      those of the victims before they were detached. */
  ghost predicate Pulled(sh: Shard, victims: seq<nat>, now: Shard) {
    && Good(now) && now == sh.(tracked := now.tracked, detached := now.detached)
    && Divided(sh.tracked, victims, now.tracked, now.detached)
  }

  ghost predicate Divided(notes: map<nat, Note>, victims: seq<nat>, tracked: map<nat, Note>, detached: map<nat, Note>) {
    && (forall k :: k in tracked <==> k in notes && k !in victims)
    && (forall k :: k in detached <==> k in victims)
    && (forall k :: k in tracked && k in notes ==> Milder(notes[k], tracked[k]))
    && (forall k :: k in detached && k in notes ==> Milder(notes[k], detached[k]))
  }

  lemma DividedMore(notes: map<nat, Note>, victims: seq<nat>, tracked: map<nat, Note>, detached: map<nat, Note>, k: nat)
    requires Divided(notes, victims, tracked, detached) && k in tracked
    ensures Divided(notes, victims + [k], tracked - {k}, detached[k := tracked[k]])
    ensures k in notes && k !in victims && tracked[k].weight == notes[k].weight
  {
    assert Milder(notes[k], tracked[k]);
    forall j ensures j in victims + [k] <==> j in victims || j == k {
    }
  }

  ghost function Partings(veil: Veil, sh: Shard, victims: seq<nat>): iset<Shard> {
    match veil
    case Veil => iset now: Shard | Pulled(sh, victims, now)
  }

  /** The same as a clause that proofs open by mentioning it. */
  ghost predicate Parted(sh: Shard, victims: seq<nat>, now: Shard) {
    forall veil {:trigger now in Partings(veil, sh, victims)} :: now in Partings(veil, sh, victims)
  }

  lemma PartedIs(sh: Shard, victims: seq<nat>, now: Shard)
    ensures Parted(sh, victims, now) <==> Pulled(sh, victims, now)
  {
    assert now in Partings(Veil, sh, victims) <==> Pulled(sh, victims, now);
    forall veil ensures now in Partings(veil, sh, victims) <==> now in Partings(Veil, sh, victims) {
      match veil
      case Veil =>
    }
  }

  lemma PartedGood(sh: Shard, victims: seq<nat>, now: Shard)
    requires Parted(sh, victims, now)
    ensures Good(now) && now == sh.(tracked := now.tracked, detached := now.detached)
    ensures forall k :: k in now.tracked <==> k in sh.tracked && k !in victims
    ensures forall k :: k in now.detached <==> k in victims
  {
    PartedIs(sh, victims, now);
  }

  /** Only the notes have changed. */
  lemma PartedFrame(sh: Shard, victims: seq<nat>, now: Shard)
    requires Parted(sh, victims, now)
    ensures Good(now) && now.table == sh.table && now.ledger == sh.ledger
  {
    PartedIs(sh, victims, now);
  }

  lemma PartedApart(sh: Shard, victims: seq<nat>, now: Shard, k: nat)
    requires Parted(sh, victims, now) && k in now.tracked
    ensures k !in now.detached
  {
    PartedIs(sh, victims, now);
  }

  /** Another selection. */
  lemma PartedEased(sh: Shard, victims: seq<nat>, now: Shard, tracked: map<nat, Note>)
    requires Parted(sh, victims, now) && Eased(now.tracked, tracked)
    ensures Parted(sh, victims, now.(tracked := tracked))
  {
    PartedIs(sh, victims, now);
    EasedGood(now, tracked);
    forall k | k in tracked && k in sh.tracked ensures Milder(sh.tracked[k], tracked[k]) {
      MilderTwice(sh.tracked[k], now.tracked[k], tracked[k]);
    }
    PartedIs(sh, victims, now.(tracked := tracked));
  }

  /** One more victim. */
  lemma {:induction false} GatherStep(sh: Shard, victims: seq<nat>, now: Shard, k: nat)
    requires Good(sh) && Gathered(sh, victims) && Parted(sh, victims, now) && k in now.tracked
    ensures Gathered(sh, victims + [k]) && Parted(sh, victims + [k], Detach(now, k))
    ensures Weights(sh.tracked, victims + [k]) == Weights(sh.tracked, victims) + now.tracked[k].weight
    ensures Resident(sh.table, k) && now.tracked[k].weight == EntryBytes(sh.table.slots[k].value.item) == NoteWeight(sh.tracked, k)
  {
    PartedIs(sh, victims, now);
    DividedMore(sh.tracked, victims, now.tracked, now.detached, k);
    DetachGood(now, k);
    TrackedResident(sh, k);
    WeightsPush(sh.tracked, victims, k);
    GatheredMore(sh, victims, k);
    PartedIs(sh, victims + [k], Detach(now, k));
  }

  lemma GatheredMore(sh: Shard, victims: seq<nat>, k: nat)
    requires Gathered(sh, victims) && k in sh.tracked && k !in victims
    ensures Gathered(sh, victims + [k])
  {
    assert forall i :: 0 <= i < |victims| ==> victims[i] in victims;
  }

  /** The notes that stay, and the detached ones. */
  lemma PartedRest(sh: Shard, victims: seq<nat>, now: Shard)
    requires Parted(sh, victims, now)
    ensures Eased(sh.tracked - SetOf(victims), now.tracked) && now.detached - SetOf(victims) == map[]
  {
    PartedIs(sh, victims, now);
  }

  lemma UntouchedParted(sh: Shard)
    requires Good(sh) && sh.detached == map[]
    ensures Parted(sh, [], sh)
  {
    PartedIs(sh, [], sh);
  }

  // ----- restoring -----

  /** Of the detached residents only those in `left` are still detached. */
  ghost predicate HandedBack(tracked: map<nat, Note>, detached: map<nat, Note>, left: seq<nat>, tracked': map<nat, Note>, detached': map<nat, Note>) {
    && (forall k :: k in left ==> k in detached) && (forall k :: k in tracked ==> k !in detached)
    && (forall k :: k in detached' <==> k in left)
    && (forall k :: k in detached' && k in detached ==> detached'[k] == detached[k])
    && (forall k :: k in tracked' <==> k in tracked || (k in detached && k !in left))
    && (forall k :: k in tracked' && k in tracked ==> tracked'[k] == tracked[k])
    && (forall k :: k in tracked' && k in detached ==> tracked'[k] == Returned(detached[k]))
  }

  lemma HandBack(tracked: map<nat, Note>, detached: map<nat, Note>, left: seq<nat>, tracked': map<nat, Note>, detached': map<nat, Note>)
    requires HandedBack(tracked, detached, left, tracked', detached') && Distinct(left) && left != []
    ensures var n := |left| - 1; var k := left[n];
            && k in detached'
            && HandedBack(tracked, detached, left[..n], tracked'[k := Returned(detached'[k])], detached' - {k})
  {
    var n := |left| - 1;
    var k, rest := left[n], left[..n];
    assert left == rest + [k] && k !in rest;
    assert forall j :: j in left <==> j in rest || j == k;
  }

  ghost predicate Restored(apart: Shard, left: seq<nat>, now: Shard) {
    && Good(now) && now == apart.(tracked := now.tracked, detached := now.detached) && Distinct(left)
    && HandedBack(apart.tracked, apart.detached, left, now.tracked, now.detached)
  }

  ghost function Restorings(veil: Veil, apart: Shard, left: seq<nat>): iset<Shard> {
    match veil
    case Veil => iset now: Shard | Restored(apart, left, now)
  }

  ghost predicate Restoring(apart: Shard, left: seq<nat>, now: Shard) {
    forall veil {:trigger now in Restorings(veil, apart, left)} :: now in Restorings(veil, apart, left)
  }

  lemma RestoringIs(apart: Shard, left: seq<nat>, now: Shard)
    ensures Restoring(apart, left, now) <==> Restored(apart, left, now)
  {
    assert now in Restorings(Veil, apart, left) <==> Restored(apart, left, now);
    forall veil ensures now in Restorings(veil, apart, left) <==> now in Restorings(Veil, apart, left) {
      match veil
      case Veil =>
    }
  }

  lemma BeginRestoring(sh: Shard, victims: seq<nat>, apart: Shard)
    requires Good(sh) && Gathered(sh, victims) && Parted(sh, victims, apart)
    ensures Restoring(apart, victims, apart)
  {
    PartedIs(sh, victims, apart);
    RestoringIs(apart, victims, apart);
  }

  function GivenBack(sh: Shard, k: nat): Shard
    requires k in sh.detached
  {
    sh.(tracked := sh.tracked[k := Returned(sh.detached[k])], detached := sh.detached - {k})
  }

  /** What the policy needs to take a victim back. */
  lemma LastVictim(apart: Shard, left: seq<nat>, now: Shard)
    requires Restoring(apart, left, now) && left != []
    ensures var k := left[|left| - 1];
            && k in now.detached && k !in now.tracked && k < |now.table.slots|
            && 0 < now.detached[k].weight <= U32_MAX
  {
    RestoringIs(apart, left, now);
    assert now in Lawful(PolicyNotes);
    var k := left[|left| - 1];
    assert NoteFits(now.table, k, now.detached[k]);
  }

  lemma RestoreStep(apart: Shard, left: seq<nat>, now: Shard)
    requires Restoring(apart, left, now) && left != []
    ensures var n := |left| - 1; left[n] in now.detached && Restoring(apart, left[..n], GivenBack(now, left[n]))
  {
    RestoringIs(apart, left, now);
    var n := |left| - 1;
    HandBack(apart.tracked, apart.detached, left, now.tracked, now.detached);
    ReturnGood(now, left[n], Returned(now.detached[left[n]]));
    RestoringIs(apart, left[..n], GivenBack(now, left[n]));
  }

  /** An admission was given up.  Table, free list, bytes and ledger are as they were and the policy
      tracks the same residents; `pulled` are the notes of those that had been detached, as of then.
      Each of them is back with that queue and frequency, or with a second chance; the others may have
      been passed by. */
  ghost predicate Undone(a: Shard, b: Shard, pulled: map<nat, Note>) {
    && b == a.(tracked := b.tracked)
    && (forall k :: k in b.tracked <==> k in a.tracked)
    && (forall k :: k in pulled ==> k in a.tracked && k in b.tracked && Milder(a.tracked[k], pulled[k]) && b.tracked[k] == Returned(pulled[k]))
    && (forall k :: k in a.tracked && k in b.tracked && k !in pulled ==> Milder(a.tracked[k], b.tracked[k]))
  }

  lemma MilderSelf(note: Note)
    ensures Milder(note, note)
  {
  }

  lemma NothingUndone(sh: Shard)
    ensures Undone(sh, sh, map[])
  {
    forall k | k in sh.tracked ensures Milder(sh.tracked[k], sh.tracked[k]) {
      MilderSelf(sh.tracked[k]);
    }
  }

  lemma EasedUndone(sh: Shard, tracked: map<nat, Note>)
    requires Good(sh) && Eased(sh.tracked, tracked)
    ensures Good(sh.(tracked := tracked)) && Undone(sh, sh.(tracked := tracked), map[])
  {
    EasedGood(sh, tracked);
  }

  /** Giving every victim back undoes the admission. */
  lemma RestoreUndoes(sh: Shard, victims: seq<nat>, apart: Shard, end: Shard)
    requires Good(sh) && sh.detached == map[] && Gathered(sh, victims) && Parted(sh, victims, apart) && Restoring(apart, [], end)
    ensures Good(end) && Undone(sh, end, apart.detached)
  {
    PartedIs(sh, victims, apart);
    RestoringIs(apart, [], end);
    assert end.detached == map[];
    forall k | k in victims ensures k in sh.tracked {
      var i :| 0 <= i < |victims| && victims[i] == k;
    }
  }

  /** What had been detached: the entry being replaced as it was, and spent residents that nobody else
      holds. */
  ghost predicate Lent(sh: Shard, replacement: Option<nat>, pulled: map<nat, Note>) {
    forall k :: k in pulled && k in sh.tracked ==>
      if replacement == Some(k) then pulled[k] == sh.tracked[k] else ReleasesCharge(sh, k) && Spent(pulled[k])
  }

  /** Under S3-FIFO nobody gains or loses protection by a rejected admission, except by being passed by:
      a resident still in the small queue has exactly its old note. */
  lemma UndoneQueued(a: Shard, b: Shard, pulled: map<nat, Note>, k: nat)
    requires Undone(a, b, pulled) && k in a.tracked && a.tracked[k].mark.Queued?
    ensures k in b.tracked && Milder(a.tracked[k], b.tracked[k])
    ensures !b.tracked[k].mark.main ==> b.tracked[k] == a.tracked[k]
    ensures k in pulled ==> b.tracked[k] == pulled[k]
  {
  }

  lemma UndoneCommitting(a: Shard, b: Shard, pulled: map<nat, Note>)
    requires Committing(a, {}, {}) && Undone(a, b, pulled) && Good(b)
    ensures Committing(b, {}, {})
  {
    forall c | 0 <= c < |b.ledger.cells| ensures !b.ledger.cells[c].owed && !b.ledger.cells[c].local {
      assert !a.ledger.cells[c].owed;
    }
  }

  lemma UsedFits(sh: Shard)
    requires Good(sh)
    ensures sh.ledger.used <= sh.ledger.capacity
  {
    assert sh in Lawful(Budget);
  }

  // ----- committing -----

  /** Entry k is detached and backed by an allocation. */
  predicate Ready(sh: Shard, k: nat) {
    k in sh.detached && Resident(sh.table, k) && CellAt(sh.table, k) < |sh.ledger.cells|
  }

  /** A local reference of the admission. */
  predicate Loose(cells: seq<Cell>, c: nat) {
    c < |cells| && cells[c].local && !cells[c].resident && !cells[c].owed
  }

  /** A commit in progress: `list` is still to be evicted, `locals` are the allocations in hand; owed
      charges and local references occur nowhere else. */
  ghost predicate Committing(sh: Shard, list: set<nat>, locals: set<nat>) {
    && Good(sh)
    && (forall k :: k in list ==> Ready(sh, k))
    && (forall c :: c in locals ==> Loose(sh.ledger.cells, c))
    && (forall c :: 0 <= c < |sh.ledger.cells| && sh.ledger.cells[c].owed ==>
          exists k :: k in list && Resident(sh.table, k) && CellAt(sh.table, k) == c)
    && (forall c :: 0 <= c < |sh.ledger.cells| && sh.ledger.cells[c].local ==> c in locals)
  }

  /** The charge of entry k has been transferred, or a caller still holds its allocation. */
  predicate Quiet(sh: Shard, k: nat) {
    && Resident(sh.table, k) && CellAt(sh.table, k) < |sh.ledger.cells|
    && var cell := sh.ledger.cells[CellAt(sh.table, k)];
    cell.owed || cell.handles > 0
  }

  /** Dropping the allocations of this commit will release no charge. */
  ghost predicate Silent(sh: Shard, list: set<nat>, locals: set<nat>) {
    && (forall k :: k in list ==> Quiet(sh, k))
    && (forall c :: c in locals ==> Harmless(sh.ledger.cells, c))
  }

  lemma OtherCell(sh: Shard, j: nat, k: nat)
    requires Good(sh) && j != k && Resident(sh.table, j) && Resident(sh.table, k)
    ensures CellAt(sh.table, j) != CellAt(sh.table, k)
  {
    assert sh in Lawful(Cells);
  }

  lemma CommitCell(sh: Shard, k: nat)
    requires Good(sh) && Resident(sh.table, k)
    ensures CellFits(sh.ledger.cells, sh.table.slots[k].value)
  {
    assert sh in Lawful(Cells);
  }

  /** Evicting k takes it off the list and its allocation into hand. */
  lemma CommitKeeps(sh: Shard, fp: u32, i: nat, list: set<nat>, locals: set<nat>)
    requires CanEvict(sh, fp, i) && Committing(sh, list, locals) && sh.table.chains[fp][i] in list
    ensures var k := sh.table.chains[fp][i];
            Committing(Evicted(sh, fp, i), list - {k}, locals + {CellAt(sh.table, k)})
  {
    var k, sh' := sh.table.chains[fp][i], Evicted(sh, fp, i);
    var cell := CellAt(sh.table, k);
    EvictedGood(sh, fp, i);
    CommitCell(sh, k);
    assert Ready(sh, k);
    forall j | j in list - {k} ensures Ready(sh', j) {
      assert Ready(sh, j);
      OtherCell(sh, j, k);
      EvictedStays(sh, fp, i, j);
    }
    forall c | 0 <= c < |sh'.ledger.cells| && sh'.ledger.cells[c].owed
      ensures exists j :: j in list - {k} && Resident(sh'.table, j) && CellAt(sh'.table, j) == c
    {
      assert sh.ledger.cells[c].owed;
      var j :| j in list && Resident(sh.table, j) && CellAt(sh.table, j) == c;
      EvictedStays(sh, fp, i, j);
    }
    forall c | c in locals + {cell} ensures Loose(sh'.ledger.cells, c) {
      if c != cell {
        assert Loose(sh.ledger.cells, c);
      }
    }
  }

  lemma SilentCommit(sh: Shard, fp: u32, i: nat, list: set<nat>, locals: set<nat>)
    requires CanEvict(sh, fp, i) && Committing(sh, list, locals) && sh.table.chains[fp][i] in list && Silent(sh, list, locals)
    ensures var k := sh.table.chains[fp][i];
            Silent(Evicted(sh, fp, i), list - {k}, locals + {CellAt(sh.table, k)})
  {
    var k, sh' := sh.table.chains[fp][i], Evicted(sh, fp, i);
    var cell := CellAt(sh.table, k);
    CommitCell(sh, k);
    assert Quiet(sh, k);
    forall j | j in list - {k} ensures Quiet(sh', j) {
      assert Ready(sh, j) && Quiet(sh, j);
      OtherCell(sh, j, k);
      EvictedStays(sh, fp, i, j);
    }
    forall c | c in locals + {cell} ensures Harmless(sh'.ledger.cells, c) {
      if c != cell {
        assert Loose(sh.ledger.cells, c) && Harmless(sh.ledger.cells, c);
      }
    }
  }

  /** Dropping an allocation in hand keeps the commit going; a harmless one releases nothing. */
  lemma DropKeeps(sh: Shard, c: nat, list: set<nat>, locals: set<nat>)
    requires Committing(sh, list, locals) && c in locals
    ensures Charges.Enabled(sh.ledger, DropLocal(c))
    ensures var ledger := Charges.Do(sh.ledger, DropLocal(c));
            && Committing(sh.(ledger := ledger), list, locals - {c})
            && ledger.hand == sh.ledger.hand && ledger.capacity == sh.ledger.capacity
            && (Harmless(sh.ledger.cells, c) ==> ledger.used == sh.ledger.used)
            && (Silent(sh, list, locals) ==> Silent(sh.(ledger := ledger), list, locals - {c}))
  {
    assert Loose(sh.ledger.cells, c);
    LedgerStep(sh, DropLocal(c));
    var ledger := Charges.Do(sh.ledger, DropLocal(c));
    var sh' := sh.(ledger := ledger);
    forall k | k in list ensures Ready(sh', k) && (Quiet(sh, k) ==> Quiet(sh', k)) {
      assert Ready(sh, k);
      CommitCell(sh, k);
    }
    forall d | d in locals - {c} ensures Loose(ledger.cells, d) && (Harmless(sh.ledger.cells, d) ==> Harmless(ledger.cells, d)) {
      assert Loose(sh.ledger.cells, d);
    }
    forall d | 0 <= d < |ledger.cells| && ledger.cells[d].owed
      ensures exists k :: k in list && Resident(sh'.table, k) && CellAt(sh'.table, k) == d
    {
      assert sh.ledger.cells[d].owed;
      var k :| k in list && Resident(sh.table, k) && CellAt(sh.table, k) == d;
    }
  }

  function SetOf(q: seq<nat>): set<nat> {
    set x | x in q
  }

  // ----- transferring charges -----

  function CellOr(t: Table, k: nat): nat {
    if Resident(t, k) then CellAt(t, k) else 0
  }

  /** The allocations of the given residents. */
  function CellsOf(t: Table, list: seq<nat>): (cells: seq<nat>)
    ensures |cells| == |list|
  {
    seq(|list|, i requires 0 <= i < |list| => CellOr(t, list[i]))
  }

  /** Distinct tracked residents that nobody else holds, with nothing else in flight. */
  ghost predicate Transferable(sh: Shard, list: seq<nat>) {
    && Committing(sh, {}, {}) && Gathered(sh, list)
    && forall i :: 0 <= i < |list| ==> ReleasesCharge(sh, list[i])
  }

  lemma TrackedResident(sh: Shard, k: nat)
    requires Good(sh) && k in sh.tracked
    ensures Resident(sh.table, k) && sh.tracked[k].weight == EntryBytes(sh.table.slots[k].value.item)
    ensures CellFits(sh.ledger.cells, sh.table.slots[k].value)
    ensures sh.tracked[k].weight == sh.ledger.cells[CellAt(sh.table, k)].bytes
  {
    assert sh in Lawful(PolicyNotes);
    assert NoteFits(sh.table, k, sh.tracked[k]);
    CommitCell(sh, k);
  }

  lemma TransferVictims(sh: Shard, list: seq<nat>)
    requires Transferable(sh, list)
    ensures Victims(sh.ledger, CellsOf(sh.table, list))
  {
    var cells := CellsOf(sh.table, list);
    forall i | 0 <= i < |cells|
      ensures cells[i] < |sh.ledger.cells| && cells[i] == CellOr(sh.table, list[i])
      ensures sh.ledger.cells[cells[i]].Exclusive() && sh.ledger.cells[cells[i]].armed && !sh.ledger.cells[cells[i]].owed
    {
      TrackedResident(sh, list[i]);
      assert ReleasesCharge(sh, list[i]);
    }
    forall i, j | 0 <= i < j < |cells| ensures cells[i] != cells[j] {
      TrackedResident(sh, list[i]);
      TrackedResident(sh, list[j]);
      OtherCell(sh, list[i], list[j]);
    }
  }

  lemma {:induction false} TransferBytes(sh: Shard, list: seq<nat>)
    requires Transferable(sh, list) && Victims(sh.ledger, CellsOf(sh.table, list))
    ensures Bytes(sh.ledger.cells, CellsOf(sh.table, list)) == Weights(sh.tracked, list)
    decreases |list|
  {
    if list != [] {
      var n := |list| - 1;
      TransferVictims(sh, list[..n]);
      TransferBytes(sh, list[..n]);
      assert CellsOf(sh.table, list)[..n] == CellsOf(sh.table, list[..n]);
      TrackedResident(sh, list[n]);
    }
  }

  /** A resident of the list owes its charge after the transfer; the others are held by callers. */
  lemma TransferQuiet(sh: Shard, sh': Shard, list: seq<nat>, k: nat)
    requires Transferable(sh, list) && Victims(sh.ledger, CellsOf(sh.table, list))
    requires k in sh.tracked && (k in list || !ReleasesCharge(sh, k)) && k in sh'.detached
    requires sh'.table == sh.table && sh'.ledger.cells == Marked(sh.ledger.cells, CellsOf(sh.table, list))
    ensures Ready(sh', k) && Quiet(sh', k)
  {
    var cells := CellsOf(sh.table, list);
    MarkedSum(sh.ledger, cells);
    TrackedResident(sh, k);
    if k in list {
      var j :| 0 <= j < |list| && list[j] == k;
      assert cells[j] == CellAt(sh.table, k);
    }
  }

  lemma TransferOwed(sh: Shard, list: seq<nat>, c: nat)
    requires Transferable(sh, list) && Victims(sh.ledger, CellsOf(sh.table, list)) && c < |sh.ledger.cells|
    ensures var cell := Marked(sh.ledger.cells, CellsOf(sh.table, list))[c];
            && !cell.local
            && (cell.owed ==> exists k :: k in SetOf(list) && Resident(sh.table, k) && CellAt(sh.table, k) == c)
  {
    var cells := CellsOf(sh.table, list);
    MarkedSum(sh.ledger, cells);
    assert !sh.ledger.cells[c].owed && !sh.ledger.cells[c].local;
    if c in cells {
      var i :| 0 <= i < |cells| && cells[i] == c;
      TrackedResident(sh, list[i]);
      assert list[i] in SetOf(list);
    }
  }

  /** After the transfer every entry of `all` can be committed without releasing a charge: it has been
      transferred itself, or a caller holds it. */
  lemma {:induction false} TransferReady(sh: Shard, all: seq<nat>, now: Shard, list: seq<nat>, required: nat)
    requires Transferable(sh, list) && Gathered(sh, all) && Parted(sh, all, now) && sh.ledger.hand.None?
    requires forall k :: k in list ==> k in all
    requires forall k :: k in all && k !in list ==> !ReleasesCharge(sh, k)
    requires sh.ledger.used + required <= sh.ledger.capacity + Weights(sh.tracked, list)
    ensures Charges.Enabled(sh.ledger, Transfer(CellsOf(sh.table, list), required))
    ensures var sh' := now.(ledger := Charges.Do(sh.ledger, Transfer(CellsOf(sh.table, list), required)));
            && Committing(sh', SetOf(all), {}) && Silent(sh', SetOf(all), {})
            && sh'.ledger.used + Weights(sh.tracked, list) == sh.ledger.used + required
            && sh'.ledger.hand == Some(required) && sh'.ledger.capacity == sh.ledger.capacity
  {
    var cells := CellsOf(sh.table, list);
    TransferVictims(sh, list);
    TransferBytes(sh, list);
    PartedGood(sh, all, now);
    var ledger := Charges.Do(sh.ledger, Transfer(cells, required));
    LedgerStep(now, Transfer(cells, required));
    assert sh in Lawful(Budget);
    TransferStep(sh.ledger, cells, required);
    TransferCommits(sh, now.(ledger := ledger), all, list);
  }

  lemma TransferCommits(sh: Shard, sh': Shard, all: seq<nat>, list: seq<nat>)
    requires Transferable(sh, list) && Victims(sh.ledger, CellsOf(sh.table, list)) && Gathered(sh, all)
    requires forall k :: k in list ==> k in all
    requires forall k :: k in all && k !in list ==> !ReleasesCharge(sh, k)
    requires Good(sh') && sh'.table == sh.table && sh'.ledger.cells == Marked(sh.ledger.cells, CellsOf(sh.table, list))
    requires forall k :: k in all ==> k in sh'.detached
    ensures Committing(sh', SetOf(all), {}) && Silent(sh', SetOf(all), {})
  {
    forall k | k in SetOf(all) ensures Ready(sh', k) && Quiet(sh', k) {
      var i :| 0 <= i < |all| && all[i] == k;
      TransferQuiet(sh, sh', list, k);
    }
    forall c | 0 <= c < |sh'.ledger.cells|
      ensures !sh'.ledger.cells[c].local
      ensures sh'.ledger.cells[c].owed ==> exists k :: k in SetOf(all) && Resident(sh'.table, k) && CellAt(sh'.table, k) == c
    {
      TransferOwed(sh, list, c);
      if sh'.ledger.cells[c].owed {
        var k :| k in SetOf(list) && Resident(sh.table, k) && CellAt(sh.table, k) == c;
        assert k in SetOf(all);
      }
    }
  }

  // ----- the outcome of an admission -----

  datatype ChargeResult = Charged(evicted: seq<nat>, recycled: Option<nat>) | Rejected

  /** The local references of an admission that keeps at most one allocation for reuse. */
  function Locals(recycled: Option<nat>): set<nat> {
    if recycled.Some? then {recycled.value} else {}
  }

  /** Everything that leaves the shard: the evicted entries and the entry being replaced. */
  function Gone(evicted: seq<nat>, replacement: Option<nat>): set<nat> {
    SetOf(evicted) + (if replacement.Some? then {replacement.value} else {})
  }

  /** The candidate holds its charge, and exactly the evicted and the replaced entries are gone. */
  ghost predicate Admitted(a: Shard, b: Shard, required: nat, replacement: Option<nat>, r: ChargeResult)
    requires r.Charged?
  {
    && Committing(b, {}, Locals(r.recycled)) && b.detached == map[]
    && b.ledger.hand == Some(required) && b.ledger.capacity == a.ledger.capacity
    && |r.evicted| <= MAX_EVICTIONS_PER_INSERT && Gathered(a, r.evicted)
    && Shrunk(a, b, Gone(r.evicted, replacement)) && Eased(a.tracked - Gone(r.evicted, replacement), b.tracked)
  }

  lemma DetachCommitting(sh: Shard, k: nat)
    requires Committing(sh, {}, {}) && k in sh.tracked
    ensures Committing(Detach(sh, k), {k}, {})
  {
    DetachGood(sh, k);
    TrackedResident(sh, k);
  }

  /** Charging or giving up a charge touches no allocation. */
  lemma HandCommitting(sh: Shard, list: set<nat>, locals: set<nat>, a: Charges.Action)
    requires Committing(sh, list, locals) && Charges.Enabled(sh.ledger, a) && (a.TryCharge? || a.DropHand?)
    ensures Committing(sh.(ledger := Charges.Do(sh.ledger, a)), list, locals)
  {
    LedgerStep(sh, a);
    var sh' := sh.(ledger := Charges.Do(sh.ledger, a));
    forall k | k in list ensures Ready(sh', k) {
      assert Ready(sh, k);
    }
    forall c | c in locals ensures Loose(sh'.ledger.cells, c) {
      assert Loose(sh.ledger.cells, c);
    }
    forall c | 0 <= c < |sh'.ledger.cells| && sh'.ledger.cells[c].owed
      ensures exists k :: k in list && Resident(sh'.table, k) && CellAt(sh'.table, k) == c
    {
      assert sh.ledger.cells[c].owed;
      var k :| k in list && Resident(sh.table, k) && CellAt(sh.table, k) == c;
    }
  }

  /** The entry being replaced, if any, as a list. */
  function Replaced(replacement: Option<nat>): seq<nat> {
    if replacement.Some? then [replacement.value] else []
  }

  /** The entries of one admission: the replaced one first, then the victims. */
  lemma AdmissionList(sh: Shard, replacement: Option<nat>, victims: seq<nat>)
    requires Gathered(sh, Replaced(replacement) + victims)
    ensures Gathered(sh, victims)
    ensures SetOf(Replaced(replacement) + victims) == Gone(victims, replacement)
  {
    var first := Replaced(replacement);
    var all := first + victims;
    forall i | 0 <= i < |victims| ensures victims[i] == all[|first| + i] {
    }
    forall i, j | 0 <= i < j < |victims| ensures victims[i] != victims[j] {
      assert all[|first| + i] != all[|first| + j];
    }
  }

  lemma {:induction false} FirstWeight(sh: Shard, first: seq<nat>, victims: seq<nat>, released: nat)
    requires Weights(sh.tracked, first + victims) == Weights(sh.tracked, first) + released
    ensures Weights(sh.tracked, victims) == released
  {
    WeightsConcat(sh.tracked, first, victims);
  }

  lemma {:induction false} WeightsConcat(notes: map<nat, Note>, p: seq<nat>, q: seq<nat>)
    ensures Weights(notes, p + q) == Weights(notes, p) + Weights(notes, q)
    decreases |q|
  {
    if q == [] {
      assert p + q == p;
    } else {
      var n := |q| - 1;
      WeightsConcat(notes, p, q[..n]);
      assert p + q == (p + q[..n]) + [q[n]];
      WeightsPush(notes, p + q[..n], q[n]);
    }
  }

  /** Which entries transfer their charge: the victims, and the replaced entry unless a caller holds it. */
  function Transferred(replacement: Option<nat>, own: bool, victims: seq<nat>): seq<nat> {
    if own then Replaced(replacement) + victims else victims
  }

  lemma {:induction false} TransferWeights(sh: Shard, replacement: Option<nat>, victims: seq<nat>, own: bool, released: nat, bytes: nat)
    requires Weights(sh.tracked, Replaced(replacement) + victims) == Weights(sh.tracked, Replaced(replacement)) + released
    requires own ==> replacement.Some?
    requires bytes == if own && replacement.value in sh.tracked then sh.tracked[replacement.value].weight else 0
    ensures Weights(sh.tracked, Transferred(replacement, own, victims)) == bytes + released
  {
    FirstWeight(sh, Replaced(replacement), victims, released);
    if own {
      WeightsPush(sh.tracked, [], replacement.value);
      assert [] + [replacement.value] == Replaced(replacement);
    }
  }

  lemma TransferList(sh: Shard, replacement: Option<nat>, victims: seq<nat>, own: bool)
    requires Committing(sh, {}, {}) && Gathered(sh, Replaced(replacement) + victims)
    requires forall i :: 0 <= i < |victims| ==> ReleasesCharge(sh, victims[i])
    requires own <==> replacement.Some? && ReleasesCharge(sh, replacement.value)
    ensures Transferable(sh, Transferred(replacement, own, victims))
    ensures forall k :: k in Transferred(replacement, own, victims) ==> k in Replaced(replacement) + victims
    ensures forall k :: k in Replaced(replacement) + victims && k !in Transferred(replacement, own, victims) ==> !ReleasesCharge(sh, k)
  {
    AdmissionList(sh, replacement, victims);
    var list := Transferred(replacement, own, victims);
    forall i | 0 <= i < |list| ensures ReleasesCharge(sh, list[i]) {
      if own && i > 0 {
        assert list[i] == victims[i - 1];
      }
    }
    forall k | k in Replaced(replacement) + victims && k !in list ensures !ReleasesCharge(sh, k) {
      assert k in Replaced(replacement) || k in victims;
    }
  }

  /** An admission by transfer ends with exactly its entries gone. */
  lemma TransferAdmitted(sh: Shard, now: Shard, moved: Shard, end: Shard, required: nat, replacement: Option<nat>, r: ChargeResult)
    requires r.Charged? && Good(sh) && sh.detached == map[] && Gathered(sh, Replaced(replacement) + r.evicted)
    requires Parted(sh, Replaced(replacement) + r.evicted, now) && |r.evicted| <= MAX_EVICTIONS_PER_INSERT
    requires moved == now.(ledger := moved.ledger) && moved.ledger.hand == Some(required) && moved.ledger.capacity == sh.ledger.capacity
    requires Committing(end, {}, Locals(r.recycled)) && Shrunk(moved, end, SetOf(Replaced(replacement) + r.evicted))
    requires end.tracked == moved.tracked && end.detached == moved.detached - SetOf(Replaced(replacement) + r.evicted)
    requires end.ledger.hand == moved.ledger.hand && end.ledger.capacity == moved.ledger.capacity
    ensures Admitted(sh, end, required, replacement, r)
  {
    AdmissionList(sh, replacement, r.evicted);
    PartedGood(sh, Replaced(replacement) + r.evicted, now);
    PartedRest(sh, Replaced(replacement) + r.evicted, now);
    ShrunkSame(moved, end, sh, end, SetOf(Replaced(replacement) + r.evicted));
  }

  // ----- placing the candidate -----

  lemma {:induction false} DistinctCard(q: seq<nat>)
    requires Distinct(q)
    ensures |SetOf(q)| == |q|
  {
    if q != [] {
      var n := |q| - 1;
      DistinctCard(q[..n]);
      assert SetOf(q) == SetOf(q[..n]) + {q[n]} && q[n] !in SetOf(q[..n]);
    }
  }

  lemma SubsetCard(a: set<nat>, b: set<nat>)
    requires a <= b
    ensures |a| <= |b|
  {
    assert b == a + (b - a);
  }

  /** Evictions never lengthen a chain, and shorten the one they take an entry from. */
  lemma ChainShrinks(a: Shard, b: Shard, gone: set<nat>, fp: u32)
    requires Good(a) && Good(b) && Shrunk(a, b, gone) && fp in b.table.chains
    ensures fp in a.table.chains && |b.table.chains[fp]| <= |a.table.chains[fp]| <= MAX_SAME_HASH_ENTRIES
    ensures (exists k :: k in gone && k in a.table.chains[fp]) ==> |b.table.chains[fp]| < |a.table.chains[fp]|
  {
    assert a in Lawful(Residents) && b in Lawful(Residents);
    ChainCard(a.table, fp);
    ChainCard(b.table, fp);
    var before, after := SetOf(if fp in a.table.chains then a.table.chains[fp] else []), SetOf(b.table.chains[fp]);
    forall k | k in after ensures k in before && k !in gone {
      ChainMember(b.table, fp, k);
      ChainMembers(b.table, fp, k);
      assert Resident(a.table, k) && k !in gone && Stays(a, b, k);
      ChainMembers(a.table, fp, k);
    }
    SubsetCard(after, before);
    if k :| k in gone && k in a.table.chains[fp] {
      SubsetCard(after, before - {k});
    }
  }

  lemma ChainMember(t: Table, fp: u32, k: nat)
    requires Tables.Sound(t) && fp in t.chains && k in t.chains[fp]
    ensures Resident(t, k)
  {
    assert t in Tabled(Linked);
    assert ChainOk(t, fp);
    var i :| 0 <= i < |t.chains[fp]| && t.chains[fp][i] == k;
    assert LinkAt(t, fp, t.chains[fp], i);
  }

  lemma ChainCard(t: Table, fp: u32)
    requires Tables.Sound(t)
    ensures fp in t.chains ==> 0 < |t.chains[fp]| <= MAX_SAME_HASH_ENTRIES && |SetOf(t.chains[fp])| == |t.chains[fp]|
  {
    assert t in Tabled(Linked);
    if fp in t.chains {
      assert ChainOk(t, fp);
      DistinctCard(t.chains[fp]);
    }
  }

  /** The key of the candidate is free, and its chain has room. */
  lemma AdmittedRoom(a: Shard, b: Shard, hash: u64, item: Item, required: nat, replacement: Option<nat>, r: ChargeResult)
    requires r.Charged? && Good(a) && Admitted(a, b, required, replacement, r) && b.free != []
    requires if replacement.Some? then Resident(a.table, replacement.value) && IdAt(a.table, replacement.value) == (hash, item.key)
             else (hash, item.key) !in Contents(a.table)
                  && (Fingerprint(hash) in a.table.chains ==> |a.table.chains[Fingerprint(hash)]| < MAX_SAME_HASH_ENTRIES)
    ensures b.free[0] < |b.table.slots| == |b.table.hashes| <= DELETED_VALUE
    ensures CanInsert(b.table, b.free[0], hash, item)
  {
    assert b in Lawful(Residents) && b in Lawful(FreeSlots);
    assert b.table in Tabled(Shaped);
    var gone, fp := Gone(r.evicted, replacement), Fingerprint(hash);
    if replacement.Some? {
      assert replacement.value in gone;
      assert IdAt(a.table, replacement.value) in IdsOf(a.table, gone);
      assert a in Lawful(Residents);
      ChainMembers(a.table, fp, replacement.value);
    }
    if fp in b.table.chains {
      ChainShrinks(a, b, gone, fp);
    }
  }

  /** The candidate's value: a reused buffer, or a new allocation. */
  lemma PlaceRecycled(sh: Shard, hash: u64, item: Item, note: Note, c: nat)
    requires Committing(sh, {}, {c}) && sh.ledger.hand == Some(EntryBytes(item)) && sh.ledger.cells[c].handles == 0
    requires sh.free != [] && sh.free[0] < |sh.table.slots| == |sh.table.hashes| <= DELETED_VALUE && CanInsert(sh.table, sh.free[0], hash, item)
    requires note.hash == hash && note.weight == EntryBytes(item) <= MAX_L1_ENTRY_BYTES
    ensures Charges.Enabled(sh.ledger, Recycle(c, item))
    ensures var ledger := Charges.Do(sh.ledger, Recycle(c, item));
            CanPlace(sh, hash, item, c, ledger, note) && ledger.hand.None? && Tidy(ledger)
  {
    assert Loose(sh.ledger.cells, c);
    assert sh in Lawful(Budget);
    StepBalanced(sh.ledger, Recycle(c, item));
  }

  lemma PlaceNew(sh: Shard, hash: u64, item: Item, note: Note)
    requires Committing(sh, {}, {}) && sh.ledger.hand == Some(EntryBytes(item))
    requires sh.free != [] && sh.free[0] < |sh.table.slots| == |sh.table.hashes| <= DELETED_VALUE && CanInsert(sh.table, sh.free[0], hash, item)
    requires note.hash == hash && note.weight == EntryBytes(item) <= MAX_L1_ENTRY_BYTES
    ensures Charges.Enabled(sh.ledger, NewValue(item))
    ensures var ledger := Charges.Do(sh.ledger, NewValue(item));
            CanPlace(sh, hash, item, |sh.ledger.cells|, ledger, note) && ledger.hand.None? && Tidy(ledger)
  {
    assert sh in Lawful(Budget);
    StepBalanced(sh.ledger, NewValue(item));
  }

  /** No charge is owed and no local reference is left. */
  predicate Tidy(ledger: Ledger) {
    forall c :: 0 <= c < |ledger.cells| ==> !ledger.cells[c].owed && !ledger.cells[c].local
  }

  lemma TidyCommitting(sh: Shard)
    requires Good(sh) && Tidy(sh.ledger)
    ensures Committing(sh, {}, {})
  {
  }
}
