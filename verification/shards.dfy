/** One L1 shard as a whole: the resident table, its free slots, the policy's notes and the byte ledger,
    and what evicting and placing an entry keep. */
module Shards {
  import opened Machine
  import opened Collect
  import opened Sums
  import opened Directory
  import opened Lists
  import opened Tables
  import opened Charges
  import opened Notes

  const MEMORY_ENTRY_OVERHEAD_BYTES := 64
  const MAX_L1_ENTRY_BYTES := 256 * 1024
  const MAX_EVICTIONS_PER_INSERT := 16

  /** The charge of one entry. */
  function EntryBytes(item: Item): nat {
    MEMORY_ENTRY_OVERHEAD_BYTES + |item.key| + |item.data|
  }

  /** The shard with the policy's notes about the residents it tracks, and about those that the running
      admission has detached. */
  datatype Shard = Shard(
    table: Table, free: seq<nat>, residentBytes: nat,
    tracked: map<nat, Note>, detached: map<nat, Note>, ledger: Ledger)

  function SlotBytes(slot: Option<Entry>): nat {
    if slot.Some? then EntryBytes(slot.value.item) else 0
  }

  /** The free list names exactly the empty slots. */
  ghost predicate FreeOk(t: Table, free: seq<nat>) {
    && Distinct(free)
    && (forall i :: 0 <= i < |free| ==> free[i] < |t.slots| && t.slots[free[i]].None?)
    && (forall k :: 0 <= k < |t.slots| && t.slots[k].None? ==> k in free)
  }

  predicate NoteFits(t: Table, k: nat, note: Note) {
    Resident(t, k) && note.hash == t.hashes[k] && note.weight == EntryBytes(t.slots[k].value.item) <= MAX_L1_ENTRY_BYTES
  }

  /** Every resident is tracked by the policy or detached from it, never both. */
  ghost predicate NotesOk(t: Table, tracked: map<nat, Note>, detached: map<nat, Note>) {
    && tracked.Keys !! detached.Keys
    && (forall k :: k in tracked ==> NoteFits(t, k, tracked[k]))
    && (forall k :: k in detached ==> NoteFits(t, k, detached[k]))
    && (forall k :: 0 <= k < |t.slots| && Resident(t, k) ==> k in tracked || k in detached)
  }

  /** A resident slot owns a live allocation with its content and charge. */
  predicate CellFits(cells: seq<Cell>, entry: Entry) {
    && entry.cell < |cells|
    && var cell := cells[entry.cell];
    && cell.resident && !cell.local && cell.armed && cell.item == entry.item && cell.bytes == EntryBytes(entry.item)
  }

  ghost predicate CellsOk(t: Table, cells: seq<Cell>) {
    && (forall k :: 0 <= k < |t.slots| && t.slots[k].Some? ==> CellFits(cells, t.slots[k].value))
    && (forall j, k :: 0 <= j < k < |t.slots| && t.slots[j].Some? && t.slots[k].Some? ==>
          t.slots[j].value.cell != t.slots[k].value.cell)
  }

  datatype Law = Residents | FreeSlots | PolicyNotes | Cells | ByteCount | Budget

  ghost function Lawful(law: Law): iset<Shard> {
    match law
    case Residents => iset sh: Shard | Tables.Sound(sh.table)
    case FreeSlots => iset sh: Shard | FreeOk(sh.table, sh.free)
    case PolicyNotes => iset sh: Shard | NotesOk(sh.table, sh.tracked, sh.detached)
    case Cells => iset sh: Shard | CellsOk(sh.table, sh.ledger.cells)
    case ByteCount => iset sh: Shard | sh.residentBytes == Sum(sh.table.slots, SlotBytes)
    case Budget => iset sh: Shard | Balanced(sh.ledger)
  }

  /** The invariant of the shard.  Proofs open a law by mentioning it. */
  ghost predicate Good(sh: Shard) {
    forall law {:trigger sh in Lawful(law)} :: sh in Lawful(law)
  }

  lemma AllLaws(sh: Shard)
    requires sh in Lawful(Residents) && sh in Lawful(FreeSlots) && sh in Lawful(PolicyNotes)
    requires sh in Lawful(Cells) && sh in Lawful(ByteCount) && sh in Lawful(Budget)
    ensures Good(sh)
  {
    forall law ensures sh in Lawful(law) {
      match law
      case Residents =>
      case FreeSlots =>
      case PolicyNotes =>
      case Cells =>
      case ByteCount =>
      case Budget =>
    }
  }

  // ----- policy notes -----

  function Detach(sh: Shard, k: nat): Shard
    requires k in sh.tracked
  {
    sh.(tracked := sh.tracked - {k}, detached := sh.detached[k := sh.tracked[k]])
  }

  lemma NotesMove(sh: Shard, tracked: map<nat, Note>, detached: map<nat, Note>)
    requires Good(sh) && NotesOk(sh.table, tracked, detached)
    ensures Good(sh.(tracked := tracked, detached := detached))
  {
    var sh' := sh.(tracked := tracked, detached := detached);
    assert sh in Lawful(Residents) && sh in Lawful(FreeSlots) && sh in Lawful(Cells) && sh in Lawful(ByteCount) && sh in Lawful(Budget);
    AllLaws(sh');
  }

  lemma DetachGood(sh: Shard, k: nat)
    requires Good(sh) && k in sh.tracked
    ensures Good(Detach(sh, k))
  {
    assert sh in Lawful(PolicyNotes);
    NotesMove(sh, Detach(sh, k).tracked, Detach(sh, k).detached);
  }

  /** A detached resident is tracked again, with any mark. */
  lemma ReturnGood(sh: Shard, k: nat, note: Note)
    requires Good(sh) && k in sh.detached && note == sh.detached[k].(mark := note.mark)
    ensures Good(sh.(tracked := sh.tracked[k := note], detached := sh.detached - {k}))
  {
    assert sh in Lawful(PolicyNotes);
    assert NoteFits(sh.table, k, sh.detached[k]);
    NotesMove(sh, sh.tracked[k := note], sh.detached - {k});
  }

  /** The policy may change its marks at any time. */
  lemma EasedGood(sh: Shard, tracked: map<nat, Note>)
    requires Good(sh) && Eased(sh.tracked, tracked)
    ensures Good(sh.(tracked := tracked))
  {
    assert sh in Lawful(PolicyNotes);
    forall k | k in tracked ensures NoteFits(sh.table, k, tracked[k]) {
      assert NoteFits(sh.table, k, sh.tracked[k]) && Milder(sh.tracked[k], tracked[k]);
    }
    NotesMove(sh, tracked, sh.detached);
  }

  // ----- ledger steps -----

  lemma LedgerMove(sh: Shard, ledger: Ledger)
    requires Good(sh) && Balanced(ledger) && CellsOk(sh.table, ledger.cells)
    ensures Good(sh.(ledger := ledger))
  {
    var sh' := sh.(ledger := ledger);
    assert sh in Lawful(Residents) && sh in Lawful(FreeSlots) && sh in Lawful(PolicyNotes) && sh in Lawful(ByteCount);
    AllLaws(sh');
  }

  /** Steps of callers, and of an admission that touches no resident allocation, keep the shard. */
  lemma LedgerStep(sh: Shard, a: Charges.Action)
    requires Good(sh) && Charges.Enabled(sh.ledger, a)
    requires !a.Disarm? && !a.Take?
    ensures Good(sh.(ledger := Charges.Do(sh.ledger, a)))
  {
    assert sh in Lawful(Budget) && sh in Lawful(Cells);
    StepBalanced(sh.ledger, a);
    var cells, cells' := sh.ledger.cells, Charges.Do(sh.ledger, a).cells;
    if a.Transfer? {
      MarkedSum(sh.ledger, a.victims);
    }
    forall k | 0 <= k < |sh.table.slots| && sh.table.slots[k].Some? ensures CellFits(cells', sh.table.slots[k].value) {
      assert CellFits(cells, sh.table.slots[k].value);
    }
    LedgerMove(sh, Charges.Do(sh.ledger, a));
  }

  // ----- evicting -----

  /** The allocation of an evicted entry passes to the admission, its transferred charge disarmed. */
  function Took(l: Ledger, c: nat): Ledger
    requires c < |l.cells|
  {
    var cell := l.cells[c];
    l.(cells := l.cells[c := cell.(armed := cell.armed && !cell.owed, owed := false, resident := false, local := true)])
  }

  lemma TookSteps(l: Ledger, c: nat)
    requires Balanced(l) && c < |l.cells| && l.cells[c].resident && !l.cells[c].local
    ensures Balanced(Took(l, c))
    ensures l.cells[c].owed ==>
              && Charges.Enabled(l, Disarm(c)) && Charges.Enabled(Charges.Do(l, Disarm(c)), Take(c))
              && Took(l, c) == Charges.Do(Charges.Do(l, Disarm(c)), Take(c))
    ensures !l.cells[c].owed ==> Charges.Enabled(l, Take(c)) && Took(l, c) == Charges.Do(l, Take(c))
  {
    if l.cells[c].owed {
      var l1 := Charges.Do(l, Disarm(c));
      StepBalanced(l, Disarm(c));
      StepBalanced(l1, Take(c));
      assert l.cells[c := l1.cells[c]][c := Took(l, c).cells[c]] == l.cells[c := Took(l, c).cells[c]];
    } else {
      StepBalanced(l, Take(c));
    }
  }

  ghost predicate CanEvict(sh: Shard, fp: u32, i: nat) {
    && Good(sh) && CanRemove(sh.table, fp, i)
    && var k := sh.table.chains[fp][i];
    && k in sh.detached && sh.table.slots[k].value.cell < |sh.ledger.cells|
  }

  /** The detached entry at position i of its chain leaves the shard. */
  function Evicted(sh: Shard, fp: u32, i: nat): Shard
    requires HasLink(sh.table, fp, i)
    requires sh.table.slots[sh.table.chains[fp][i]].value.cell < |sh.ledger.cells|
  {
    var k := sh.table.chains[fp][i];
    var entry := sh.table.slots[k].value;
    sh.(table := Removing(sh.table, fp, i),
        free := [k] + sh.free,
        residentBytes := SaturatingSub(sh.residentBytes, EntryBytes(entry.item)),
        detached := sh.detached - {k},
        ledger := Took(sh.ledger, entry.cell))
  }

  lemma EvictedFree(sh: Shard, fp: u32, i: nat)
    requires CanEvict(sh, fp, i)
    ensures Evicted(sh, fp, i) in Lawful(FreeSlots)
  {
    assert sh in Lawful(FreeSlots);
    var sh', k := Evicted(sh, fp, i), sh.table.chains[fp][i];
    RemovedElsewhere(sh.table, fp, i);
    forall j | 0 <= j < |sh'.table.slots| ensures sh'.table.slots[j].None? <==> sh.table.slots[j].None? || j == k {
      assert j != k ==> (Resident(sh'.table, j) <==> Resident(sh.table, j));
    }
  }

  lemma EvictedNotes(sh: Shard, fp: u32, i: nat)
    requires CanEvict(sh, fp, i)
    ensures Evicted(sh, fp, i) in Lawful(PolicyNotes)
  {
    assert sh in Lawful(PolicyNotes);
    var sh', k := Evicted(sh, fp, i), sh.table.chains[fp][i];
    RemovedElsewhere(sh.table, fp, i);
    forall j | j in sh'.tracked ensures NoteFits(sh'.table, j, sh'.tracked[j]) {
      assert NoteFits(sh.table, j, sh.tracked[j]) && j != k;
    }
    forall j | j in sh'.detached ensures NoteFits(sh'.table, j, sh'.detached[j]) {
      assert NoteFits(sh.table, j, sh.detached[j]) && j != k;
    }
  }

  lemma EvictedCells(sh: Shard, fp: u32, i: nat)
    requires CanEvict(sh, fp, i)
    ensures Evicted(sh, fp, i) in Lawful(Cells) && Evicted(sh, fp, i) in Lawful(Budget)
  {
    assert sh in Lawful(Cells) && sh in Lawful(Budget);
    var sh', k := Evicted(sh, fp, i), sh.table.chains[fp][i];
    var c := sh.table.slots[k].value.cell;
    assert CellFits(sh.ledger.cells, sh.table.slots[k].value);
    TookSteps(sh.ledger, c);
    RemovedElsewhere(sh.table, fp, i);
    forall j | 0 <= j < |sh'.table.slots| && sh'.table.slots[j].Some?
      ensures j != k && sh.table.slots[j].Some? && sh'.table.slots[j].value.cell == sh.table.slots[j].value.cell
      ensures CellFits(sh'.ledger.cells, sh'.table.slots[j].value)
    {
      assert Resident(sh'.table, j) && Resident(sh.table, j);
      assert CellFits(sh.ledger.cells, sh.table.slots[j].value);
    }
  }

  lemma EvictedBytes(sh: Shard, fp: u32, i: nat)
    requires CanEvict(sh, fp, i)
    ensures Evicted(sh, fp, i) in Lawful(ByteCount)
  {
    assert sh in Lawful(ByteCount);
    var sh', c := Evicted(sh, fp, i), sh.table.chains[fp];
    var slots, k := sh.table.slots, c[i];
    var bridged := if i == 0 then slots else slots[c[i - 1] := Some(slots[c[i - 1]].value.(next := Behind(c, i)))];
    if i > 0 {
      SumUpdate(slots, c[i - 1], bridged[c[i - 1]], SlotBytes);
      assert sh.table in Tabled(Linked) by { assert sh in Lawful(Residents); }
      assert ChainOk(sh.table, fp);
    }
    SumUpdate(bridged, k, None, SlotBytes);
    SumMember(slots, k, SlotBytes);
  }

  /** Eviction removes exactly one key. */
  lemma EvictedContents(sh: Shard, fp: u32, i: nat)
    requires CanEvict(sh, fp, i)
    ensures Contents(Evicted(sh, fp, i).table) == Contents(sh.table) - {IdAt(sh.table, sh.table.chains[fp][i])}
  {
    assert sh in Lawful(Residents);
    RemovedContents(sh.table, fp, i);
  }

  /** Eviction keeps the shard good. */
  lemma EvictedGood(sh: Shard, fp: u32, i: nat)
    requires CanEvict(sh, fp, i)
    ensures Good(Evicted(sh, fp, i))
  {
    assert sh in Lawful(Residents);
    RemovedSound(sh.table, fp, i);
    var sh' := Evicted(sh, fp, i);
    assert sh' in Lawful(Residents);
    EvictedFree(sh, fp, i);
    EvictedNotes(sh, fp, i);
    EvictedCells(sh, fp, i);
    EvictedBytes(sh, fp, i);
    AllLaws(sh');
  }

  // ----- placing -----

  /** A new entry takes the first free slot; `cell` is the allocation that now carries the charge. */
  function Placed(sh: Shard, hash: u64, item: Item, cell: nat, ledger: Ledger, note: Note): Shard
    requires sh.free != [] && sh.free[0] < |sh.table.slots| == |sh.table.hashes| <= DELETED_VALUE
  {
    sh.(table := Inserting(sh.table, sh.free[0], hash, item, cell),
        free := sh.free[1..],
        residentBytes := sh.residentBytes + EntryBytes(item),
        tracked := sh.tracked[sh.free[0] := note],
        ledger := ledger)
  }

  ghost predicate CanPlace(sh: Shard, hash: u64, item: Item, cell: nat, ledger: Ledger, note: Note) {
    && Good(sh) && sh.free != [] && sh.free[0] < |sh.table.slots| == |sh.table.hashes| <= DELETED_VALUE
    && CanInsert(sh.table, sh.free[0], hash, item)
    && note.hash == hash && note.weight == EntryBytes(item) <= MAX_L1_ENTRY_BYTES
    && Balanced(ledger) && |sh.ledger.cells| <= |ledger.cells|
    && CellFits(ledger.cells, Entry(item, cell, NIL))
    && (cell < |sh.ledger.cells| ==> !sh.ledger.cells[cell].resident)
    && forall c :: 0 <= c < |sh.ledger.cells| && c != cell ==> ledger.cells[c] == sh.ledger.cells[c]
  }

  lemma PlacedNotes(sh: Shard, hash: u64, item: Item, cell: nat, ledger: Ledger, note: Note)
    requires CanPlace(sh, hash, item, cell, ledger, note)
    ensures Placed(sh, hash, item, cell, ledger, note) in Lawful(PolicyNotes)
  {
    assert sh in Lawful(PolicyNotes);
    var sh', k := Placed(sh, hash, item, cell, ledger, note), sh.free[0];
    forall j | j in sh'.tracked ensures NoteFits(sh'.table, j, sh'.tracked[j]) {
      if j != k {
        assert NoteFits(sh.table, j, sh.tracked[j]);
      }
    }
    forall j | j in sh'.detached ensures NoteFits(sh'.table, j, sh'.detached[j]) && j != k {
      assert NoteFits(sh.table, j, sh.detached[j]);
    }
  }

  lemma PlacedFree(sh: Shard, hash: u64, item: Item, cell: nat, ledger: Ledger, note: Note)
    requires CanPlace(sh, hash, item, cell, ledger, note)
    ensures var sh' := Placed(sh, hash, item, cell, ledger, note);
            sh' in Lawful(FreeSlots) && sh' in Lawful(ByteCount)
  {
    assert sh in Lawful(FreeSlots) && sh in Lawful(ByteCount);
    var sh', k := Placed(sh, hash, item, cell, ledger, note), sh.free[0];
    assert sh.free == [k] + sh.free[1..];
    SumUpdate(sh.table.slots, k, sh'.table.slots[k], SlotBytes);
  }

  lemma PlacedCells(sh: Shard, hash: u64, item: Item, cell: nat, ledger: Ledger, note: Note)
    requires CanPlace(sh, hash, item, cell, ledger, note)
    ensures var sh' := Placed(sh, hash, item, cell, ledger, note);
            sh' in Lawful(Cells) && sh' in Lawful(Budget)
  {
    assert sh in Lawful(Cells);
    var sh', k := Placed(sh, hash, item, cell, ledger, note), sh.free[0];
    forall j | 0 <= j < |sh'.table.slots| && sh'.table.slots[j].Some?
      ensures CellFits(sh'.ledger.cells, sh'.table.slots[j].value)
      ensures j != k ==> sh'.table.slots[j].value.cell != cell
    {
      if j != k {
        assert CellFits(sh.ledger.cells, sh.table.slots[j].value);
      }
    }
  }

  /** Placing adds exactly one key. */
  lemma PlacedContents(sh: Shard, hash: u64, item: Item, cell: nat, ledger: Ledger, note: Note)
    requires CanPlace(sh, hash, item, cell, ledger, note)
    ensures Contents(Placed(sh, hash, item, cell, ledger, note).table) == Contents(sh.table)[(hash, item.key) := item]
  {
    InsertedSound(sh.table, sh.free[0], hash, item, cell);
  }

  /** Placing keeps the shard good. */
  lemma PlacedGood(sh: Shard, hash: u64, item: Item, cell: nat, ledger: Ledger, note: Note)
    requires CanPlace(sh, hash, item, cell, ledger, note)
    ensures Good(Placed(sh, hash, item, cell, ledger, note))
  {
    var sh' := Placed(sh, hash, item, cell, ledger, note);
    InsertedSound(sh.table, sh.free[0], hash, item, cell);
    assert sh' in Lawful(Residents);
    PlacedNotes(sh, hash, item, cell, ledger, note);
    PlacedFree(sh, hash, item, cell, ledger, note);
    PlacedCells(sh, hash, item, cell, ledger, note);
    AllLaws(sh');
  }
}
