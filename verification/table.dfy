/** The resident table of an L1 shard: slots, collision chains of at most eight entries per
    fingerprint, and the map from (hash, key) to item that they stand for. */
module Tables {
  import opened Machine
  import opened Collect
  import opened Directory
  import opened Lists

  const MAX_SAME_HASH_ENTRIES := 8

  /** The immutable content of one cached value. */
  datatype Item = Item(key: seq<nat>, data: seq<nat>, seqno: nat)

  /** One resident: its content, the allocation that holds it, and the next slot of its chain. */
  datatype Entry = Entry(item: Item, cell: nat, next: nat)

  /** Slots and their hashes, the chain heads kept by the directory, and the chains themselves. */
  datatype Table = Table(slots: seq<Option<Entry>>, hashes: seq<u64>, heads: map<u32, u32>, chains: map<u32, seq<nat>>)

  predicate Resident(t: Table, k: nat) {
    k < |t.slots| && k < |t.hashes| && t.slots[k].Some?
  }

  predicate LinkAt(t: Table, fp: u32, c: seq<nat>, i: nat)
    requires i < |c|
  {
    Resident(t, c[i]) && t.slots[c[i]].value.next == Behind(c, i) && Fingerprint(t.hashes[c[i]]) == fp
  }

  ghost predicate ChainOk(t: Table, fp: u32) {
    && fp in t.chains && fp in t.heads
    && var c := t.chains[fp];
    && 0 < |c| <= MAX_SAME_HASH_ENTRIES && Distinct(c) && c[0] == t.heads[fp]
    && forall i :: 0 <= i < |c| ==> LinkAt(t, fp, c, i)
  }

  /** Resident k is in the chain of its fingerprint. */
  predicate Chained(t: Table, k: nat)
    requires k < |t.hashes|
  {
    Fingerprint(t.hashes[k]) in t.chains && k in t.chains[Fingerprint(t.hashes[k])]
  }

  type Id = (u64, seq<nat>)

  function IdAt(t: Table, k: nat): Id
    requires Resident(t, k)
  {
    (t.hashes[k], t.slots[k].value.item.key)
  }

  datatype Facet = Shaped | Linked | Covered | Distinguished

  ghost function Tabled(facet: Facet): iset<Table> {
    match facet
    case Shaped => iset t: Table | |t.slots| == |t.hashes| <= DELETED_VALUE
    case Linked => iset t: Table | t.heads.Keys == t.chains.Keys && forall fp :: fp in t.chains ==> ChainOk(t, fp)
    case Covered => iset t: Table | forall k :: 0 <= k < |t.slots| && Resident(t, k) ==> Chained(t, k)
    case Distinguished => iset t: Table | forall j, k :: 0 <= j < k < |t.slots| && Resident(t, j) && Resident(t, k) ==> IdAt(t, j) != IdAt(t, k)
  }

  /** The invariant.  Proofs open a facet by mentioning it. */
  ghost predicate Sound(t: Table) {
    forall facet {:trigger t in Tabled(facet)} :: t in Tabled(facet)
  }

  lemma Whole(t: Table)
    requires t in Tabled(Shaped) && t in Tabled(Linked) && t in Tabled(Covered) && t in Tabled(Distinguished)
    ensures Sound(t)
  {
    forall facet ensures t in Tabled(facet) {
      match facet
      case Shaped =>
      case Linked =>
      case Covered =>
      case Distinguished =>
    }
  }

  // ----- the map -----

  ghost function Ids(t: Table): set<Id> {
    set k | 0 <= k < |t.slots| && Resident(t, k) :: IdAt(t, k)
  }

  ghost function SlotOf(t: Table, id: Id): (k: nat)
    requires id in Ids(t)
    ensures Resident(t, k) && IdAt(t, k) == id
  {
    var k :| 0 <= k < |t.slots| && Resident(t, k) && IdAt(t, k) == id;
    k
  }

  /** What the table caches. */
  ghost function Contents(t: Table): map<Id, Item> {
    map id | id in Ids(t) :: t.slots[SlotOf(t, id)].value.item
  }

  lemma ContentsAt(t: Table, k: nat)
    requires Sound(t) && Resident(t, k)
    ensures IdAt(t, k) in Contents(t) && Contents(t)[IdAt(t, k)] == t.slots[k].value.item
    ensures SlotOf(t, IdAt(t, k)) == k
  {
    assert t in Tabled(Distinguished);
    var j := SlotOf(t, IdAt(t, k));
  }

  /** Both tables hold the same residents outside slot `index`. */
  ghost predicate SameElsewhere(t: Table, t': Table, index: nat) {
    && |t'.slots| == |t.slots| == |t'.hashes| == |t.hashes|
    && forall k :: 0 <= k < |t.slots| && k != index ==>
         && (Resident(t', k) <==> Resident(t, k))
         && (Resident(t, k) ==> IdAt(t', k) == IdAt(t, k) && t'.slots[k].value.item == t.slots[k].value.item)
  }

  /** The map changes by exactly what slot `index` loses and gains. */
  lemma ContentsChange(t: Table, t': Table, index: nat, id: Id)
    requires Sound(t) && Sound(t') && SameElsewhere(t, t', index) && index < |t.slots|
    requires Resident(t, index) || Resident(t', index)
    requires Resident(t, index) ==> IdAt(t, index) == id
    requires Resident(t', index) ==> IdAt(t', index) == id
    ensures Contents(t') - {id} == Contents(t) - {id}
    ensures id in Contents(t) <==> Resident(t, index)
    ensures id in Contents(t') <==> Resident(t', index)
  {
    OnlyAt(t, index, id, t');
    OnlyAt(t', index, id, t);
    var m, m' := Contents(t) - {id}, Contents(t') - {id};
    forall x ensures x in m <==> x in m' {
      Carried(t, t', index, x);
      Carried(t', t, index, x);
    }
    forall x | x in m ensures m'[x] == m[x] {
      Carried(t, t', index, x);
    }
  }

  lemma OnlyAt(t: Table, index: nat, id: Id, t': Table)
    requires Sound(t) && Sound(t') && SameElsewhere(t, t', index) && index < |t.slots|
    requires Resident(t, index) ==> IdAt(t, index) == id
    requires Resident(t', index) ==> IdAt(t', index) == id
    requires Resident(t, index) || Resident(t', index)
    ensures id in Contents(t) <==> Resident(t, index)
  {
    assert t' in Tabled(Distinguished);
    if Resident(t, index) {
      ContentsAt(t, index);
    } else if id in Contents(t) {
      var k := SlotOf(t, id);
    }
  }

  lemma Carried(t: Table, t': Table, index: nat, x: Id)
    requires Sound(t) && Sound(t') && SameElsewhere(t, t', index)
    ensures x in Contents(t) && (Resident(t, index) ==> x != IdAt(t, index)) ==> x in Contents(t') && Contents(t')[x] == Contents(t)[x]
  {
    if x in Contents(t) && (Resident(t, index) ==> x != IdAt(t, index)) {
      var k := SlotOf(t, x);
      assert k != index && Resident(t', k) && IdAt(t', k) == x;
      ContentsAt(t', k);
    }
  }

  // ----- chains -----

  /** Position of resident k in its chain. */
  lemma InChain(t: Table, k: nat) returns (i: nat)
    requires Sound(t) && Resident(t, k)
    ensures var fp := Fingerprint(t.hashes[k]);
            fp in t.chains && ChainOk(t, fp) && i < |t.chains[fp]| && t.chains[fp][i] == k
  {
    assert t in Tabled(Linked) && t in Tabled(Covered);
    assert Chained(t, k);
    var c := t.chains[Fingerprint(t.hashes[k])];
    i :| 0 <= i < |c| && c[i] == k;
  }

  /** A resident is at most eight steps from its chain head, and nowhere else. */
  lemma ChainMembers(t: Table, fp: u32, k: nat)
    requires Sound(t) && Resident(t, k)
    ensures Fingerprint(t.hashes[k]) == fp <==> fp in t.chains && k in t.chains[fp]
  {
    assert t in Tabled(Linked) && t in Tabled(Covered);
    assert Chained(t, k);
    if fp in t.chains && k in t.chains[fp] {
      assert ChainOk(t, fp);
      var i :| 0 <= i < |t.chains[fp]| && t.chains[fp][i] == k;
      assert LinkAt(t, fp, t.chains[fp], i);
    }
  }

  // ----- removal -----

  /** Position i of the chain of fp is linked to its neighbours. */
  predicate HasLink(t: Table, fp: u32, i: nat) {
    && fp in t.chains && i < |t.chains[fp]| && LinkAt(t, fp, t.chains[fp], i)
    && (i > 0 ==> LinkAt(t, fp, t.chains[fp], i - 1))
    && |t.slots| == |t.hashes| <= DELETED_VALUE
    && (i + 1 < |t.chains[fp]| ==> t.chains[fp][i + 1] < |t.slots|)
  }

  /** Takes slot `index`, at position i of its chain, out of the table. */
  function Removing(t: Table, fp: u32, i: nat): Table
    requires HasLink(t, fp, i)
  {
    var c := t.chains[fp];
    var index, next := c[i], Behind(c, i);
    var bridged := if i == 0 then t.slots else t.slots[c[i - 1] := Some(t.slots[c[i - 1]].value.(next := next))];
    Table(bridged[index := None],
          t.hashes[index := 0],
          if i > 0 then t.heads else if next == NIL then t.heads - {fp} else t.heads[fp := next],
          if |c| == 1 then t.chains - {fp} else t.chains[fp := Without(c, i)])
  }

  ghost predicate CanRemove(t: Table, fp: u32, i: nat) {
    Sound(t) && HasLink(t, fp, i)
  }

  lemma Removable(t: Table, fp: u32, i: nat)
    requires Sound(t) && fp in t.chains && i < |t.chains[fp]|
    ensures CanRemove(t, fp, i)
  {
    assert t in Tabled(Linked) && t in Tabled(Shaped);
    assert ChainOk(t, fp);
    assert i + 1 < |t.chains[fp]| ==> LinkAt(t, fp, t.chains[fp], i + 1);
  }

  /** Every slot but the removed one keeps its content and hash. */
  lemma RemovedElsewhere(t: Table, fp: u32, i: nat)
    requires CanRemove(t, fp, i)
    ensures var t', index := Removing(t, fp, i), t.chains[fp][i];
            && SameElsewhere(t, t', index) && !Resident(t', index)
            && t'.hashes == t.hashes[index := 0]
            && (forall k :: 0 <= k < |t.slots| && k != index && Resident(t, k) ==>
                  t'.slots[k].value == t.slots[k].value.(next := t'.slots[k].value.next))
            && (forall k :: 0 <= k < |t.slots| && k != index && !(i > 0 && k == t.chains[fp][i - 1]) ==> t'.slots[k] == t.slots[k])
  {
    assert t in Tabled(Linked);
    assert ChainOk(t, fp);
  }

  lemma RemovedChain(t: Table, fp: u32, i: nat)
    requires CanRemove(t, fp, i) && |t.chains[fp]| > 1
    ensures ChainOk(Removing(t, fp, i), fp)
  {
    assert t in Tabled(Linked);
    assert ChainOk(t, fp);
    var t', c := Removing(t, fp, i), t.chains[fp];
    var c' := Without(c, i);
    RemovedElsewhere(t, fp, i);
    forall j | 0 <= j < |c'| ensures LinkAt(t', fp, c', j) {
      var k := if j < i then j else j + 1;
      WithoutAt(c, i, j);
      assert LinkAt(t, fp, c, k) && c[k] != c[i];
      if j + 1 < |c'| {
        WithoutAt(c, i, j + 1);
      }
    }
    assert Distinct(c') by {
      forall j, k | 0 <= j < k < |c'| ensures c'[j] != c'[k] {
        WithoutAt(c, i, j);
        WithoutAt(c, i, k);
      }
    }
    WithoutAt(c, i, 0);
  }

  lemma RemovedOtherChain(t: Table, fp: u32, i: nat, other: u32)
    requires CanRemove(t, fp, i) && other in t.chains && other != fp
    ensures ChainOk(Removing(t, fp, i), other)
  {
    assert t in Tabled(Linked);
    assert ChainOk(t, fp) && ChainOk(t, other);
    var t', c := Removing(t, fp, i), t.chains[other];
    RemovedElsewhere(t, fp, i);
    forall j | 0 <= j < |c| ensures LinkAt(t', other, c, j) {
      assert LinkAt(t, other, c, j);
    }
  }

  lemma RemovedSound(t: Table, fp: u32, i: nat)
    requires CanRemove(t, fp, i)
    ensures Sound(Removing(t, fp, i))
  {
    var t', index := Removing(t, fp, i), t.chains[fp][i];
    RemovedElsewhere(t, fp, i);
    assert t' in Tabled(Shaped);
    RemovedLinked(t, fp, i);
    RemovedCovered(t, fp, i);
    FewerDistinguished(t, t', index);
    Whole(t');
  }

  lemma FewerDistinguished(t: Table, t': Table, index: nat)
    requires Sound(t) && SameElsewhere(t, t', index) && !Resident(t', index)
    ensures t' in Tabled(Distinguished)
  {
    assert t in Tabled(Distinguished);
  }

  lemma RemovedLinked(t: Table, fp: u32, i: nat)
    requires CanRemove(t, fp, i)
    ensures Removing(t, fp, i) in Tabled(Linked)
  {
    assert t in Tabled(Linked);
    assert ChainOk(t, fp);
    var t' := Removing(t, fp, i);
    forall other | other in t'.chains ensures ChainOk(t', other) {
      if other == fp {
        RemovedChain(t, fp, i);
      } else {
        RemovedOtherChain(t, fp, i, other);
      }
    }
    assert i == 0 && |t.chains[fp]| > 1 ==> LinkAt(t, fp, t.chains[fp], 1);
  }

  lemma RemovedCovered(t: Table, fp: u32, i: nat)
    requires CanRemove(t, fp, i)
    ensures Removing(t, fp, i) in Tabled(Covered)
  {
    assert t in Tabled(Linked) && t in Tabled(Covered);
    var t', c := Removing(t, fp, i), t.chains[fp];
    RemovedElsewhere(t, fp, i);
    forall k | 0 <= k < |t'.slots| && Resident(t', k) ensures Chained(t', k) {
      assert k != c[i] && Chained(t, k);
      if Fingerprint(t.hashes[k]) == fp {
        WithoutHas(c, i, k);
      }
    }
  }

  /** Removal takes exactly one key out of the map. */
  lemma RemovedContents(t: Table, fp: u32, i: nat)
    requires CanRemove(t, fp, i)
    ensures Contents(Removing(t, fp, i)) == Contents(t) - {IdAt(t, t.chains[fp][i])}
  {
    var t', index := Removing(t, fp, i), t.chains[fp][i];
    RemovedElsewhere(t, fp, i);
    RemovedSound(t, fp, i);
    ContentsChange(t, t', index, IdAt(t, index));
    assert Contents(t') - {IdAt(t, index)} == Contents(t');
  }

  // ----- insertion -----

  /** Puts an item into free slot `index` at the head of its chain. */
  function Inserting(t: Table, index: u32, hash: u64, item: Item, cell: nat): Table
    requires index < |t.slots| == |t.hashes|
  {
    var fp := Fingerprint(hash);
    var c := if fp in t.chains then t.chains[fp] else [];
    Table(t.slots[index := Some(Entry(item, cell, First(c)))],
          t.hashes[index := hash],
          t.heads[fp := index],
          t.chains[fp := [index as nat] + c])
  }

  ghost predicate CanInsert(t: Table, index: u32, hash: u64, item: Item) {
    && Sound(t) && index < |t.slots| == |t.hashes| <= DELETED_VALUE && t.slots[index].None?
    && (hash, item.key) !in Contents(t)
    && (Fingerprint(hash) in t.chains ==> |t.chains[Fingerprint(hash)]| < MAX_SAME_HASH_ENTRIES)
  }

  lemma InsertedChain(t: Table, index: u32, hash: u64, item: Item, cell: nat, fp: u32)
    requires CanInsert(t, index, hash, item) && fp in Inserting(t, index, hash, item, cell).chains
    ensures ChainOk(Inserting(t, index, hash, item, cell), fp)
  {
    assert t in Tabled(Linked);
    var t' := Inserting(t, index, hash, item, cell);
    var c := t'.chains[fp];
    assert fp in t.chains ==> ChainOk(t, fp);
    forall j | 0 <= j < |c| ensures LinkAt(t', fp, c, j) {
      if fp != Fingerprint(hash) {
        assert LinkAt(t, fp, c, j);
      } else if j > 0 {
        assert c[j] == t.chains[fp][j - 1] && LinkAt(t, fp, t.chains[fp], j - 1);
      }
    }
    if fp == Fingerprint(hash) && fp in t.chains {
      forall j | 0 <= j < |t.chains[fp]| ensures t.chains[fp][j] != index {
        assert LinkAt(t, fp, t.chains[fp], j);
      }
    }
  }

  lemma InsertedCovered(t: Table, index: u32, hash: u64, item: Item, cell: nat)
    requires CanInsert(t, index, hash, item)
    ensures Inserting(t, index, hash, item, cell) in Tabled(Covered)
  {
    assert t in Tabled(Covered);
    var t' := Inserting(t, index, hash, item, cell);
    forall k | 0 <= k < |t'.slots| && Resident(t', k) ensures Chained(t', k) {
      if k != index {
        assert Chained(t, k);
      }
    }
  }

  lemma InsertedDistinguished(t: Table, index: u32, hash: u64, item: Item, cell: nat)
    requires CanInsert(t, index, hash, item)
    ensures Inserting(t, index, hash, item, cell) in Tabled(Distinguished)
  {
    assert t in Tabled(Distinguished);
    var t' := Inserting(t, index, hash, item, cell);
    forall k | 0 <= k < |t.slots| && k != index && Resident(t', k) ensures IdAt(t', k) != (hash, item.key) && IdAt(t', k) == IdAt(t, k) {
      ContentsAt(t, k);
    }
  }

  /** Insertion keeps the table sound and adds exactly one key to the map. */
  lemma InsertedSound(t: Table, index: u32, hash: u64, item: Item, cell: nat)
    requires CanInsert(t, index, hash, item)
    ensures var t' := Inserting(t, index, hash, item, cell);
            Sound(t') && SameElsewhere(t, t', index) && Contents(t') == Contents(t)[(hash, item.key) := item]
  {
    var t', id := Inserting(t, index, hash, item, cell), (hash, item.key);
    assert t in Tabled(Linked);
    forall fp | fp in t'.chains ensures ChainOk(t', fp) {
      InsertedChain(t, index, hash, item, cell, fp);
    }
    assert t' in Tabled(Linked);
    InsertedCovered(t, index, hash, item, cell);
    InsertedDistinguished(t, index, hash, item, cell);
    Whole(t');
    ContentsChange(t, t', index, id);
    ContentsAt(t', index);
    InsertedMap(Contents(t), Contents(t'), id, item);
  }

  lemma InsertedMap(m: map<Id, Item>, m': map<Id, Item>, id: Id, item: Item)
    requires m' - {id} == m - {id} && id in m' && m'[id] == item && id !in m
    ensures m' == m[id := item]
  {
    forall x ensures x in m' <==> x in m[id := item] {
      assert x in m' - {id} <==> x in m - {id};
    }
    forall x | x in m' ensures m'[x] == m[id := item][x] {
      if x != id {
        assert (m' - {id})[x] == (m - {id})[x];
      }
    }
  }
}
