/** A resident table together with the slots of its directory, while entries leave it one by one. */
module Clearings {
  import opened Machine
  import opened Directory
  import opened Lists
  import opened Tables

  datatype Listing = Listing(table: Table, slots: seq<Slot>)

  /** The directory once the entry at position i of chain c has left: a head hands its place to the next
      entry, and the last entry takes the fingerprint with it. */
  ghost function Relisted(s: seq<Slot>, fp: u32, c: seq<nat>, i: nat): seq<Slot> {
    if i > 0 then s
    else if |c| <= 1 then Forgetting(s, fp)
    else if fp in Fingerprints(s) && c[1] <= U32_MAX then s[Directory.SlotOf(s, fp) := Slot(fp, c[1])]
    else s
  }

  /** Slot k is at position i of the chain of its hash. */
  predicate Sits(t: Table, k: nat, i: nat) {
    k < |t.hashes| && HasLink(t, Fingerprint(t.hashes[k]), i) && t.chains[Fingerprint(t.hashes[k])][i] == k
  }

  ghost function Leaving(l: Listing, k: nat): Listing {
    if exists i: nat :: Sits(l.table, k, i) then
      var i: nat :| Sits(l.table, k, i);
      var fp := Fingerprint(l.table.hashes[k]);
      Listing(Removing(l.table, fp, i), Relisted(l.slots, fp, l.table.chains[fp], i))
    else l
  }

  /** The listing after the given entries have left, in order. */
  ghost function Cleared(l: Listing, list: seq<nat>): Listing {
    if list == [] then l else Leaving(Cleared(l, list[..|list| - 1]), list[|list| - 1])
  }

  ghost function Clearance(veil: Veil, l: Listing, list: seq<nat>): iset<Listing> {
    match veil
    case Veil => iset{Cleared(l, list)}
  }

  /** The given entries have left in order.  Proofs open the clause by `ClearsIs`. */
  ghost predicate Clears(l: Listing, list: seq<nat>, l': Listing) {
    forall veil {:trigger l' in Clearance(veil, l, list)} :: l' in Clearance(veil, l, list)
  }

  lemma {:induction false} ClearsIs(l: Listing, list: seq<nat>, l': Listing)
    ensures Clears(l, list, l') <==> l' == Cleared(l, list)
  {
    assert l' in Clearance(Veil, l, list) <==> l' == Cleared(l, list);
    forall veil ensures l' in Clearance(veil, l, list) <==> l' == Cleared(l, list) {
      match veil
      case Veil =>
    }
  }

  lemma {:induction false} ClearsNone(l: Listing, l': Listing)
    ensures Clears(l, [], l') <==> l' == l
  {
    ClearsIs(l, [], l');
  }

  lemma SitsOnce(t: Table, k: nat, i: nat, j: nat)
    requires Tables.Sound(t) && Sits(t, k, i) && Sits(t, k, j)
    ensures i == j
  {
    assert t in Tabled(Linked);
    assert ChainOk(t, Fingerprint(t.hashes[k]));
  }

  lemma {:induction false} ClearsOne(l: Listing, k: nat, i: nat, l': Listing)
    requires Tables.Sound(l.table) && Sits(l.table, k, i)
    requires var fp := Fingerprint(l.table.hashes[k]);
             l' == Listing(Removing(l.table, fp, i), Relisted(l.slots, fp, l.table.chains[fp], i))
    ensures Clears(l, [k], l')
  {
    var j: nat :| Sits(l.table, k, j) && Leaving(l, k)
                  == var fp := Fingerprint(l.table.hashes[k]);
                     Listing(Removing(l.table, fp, j), Relisted(l.slots, fp, l.table.chains[fp], j));
    SitsOnce(l.table, k, i, j);
    assert [k][..0] == [];
    assert Cleared(l, [k]) == Leaving(Cleared(l, []), k);
    ClearsIs(l, [k], l');
  }

  lemma {:induction false} ClearsMore(l: Listing, list: seq<nat>, m: Listing, k: nat, n: Listing)
    requires Clears(l, list, m) && Clears(m, [k], n)
    ensures Clears(l, list + [k], n)
  {
    ClearsIs(l, list, m);
    ClearsIs(m, [k], n);
    assert [k][..0] == [] && (list + [k])[..|list|] == list;
    ClearsIs(l, list + [k], n);
  }

  /** The last entry with its fingerprint leaves. */
  lemma {:induction false} ClearsLone(l: Listing, k: nat, l': Listing)
    requires Clears(l, [k], l') && Tables.Sound(l.table) && Resident(l.table, k)
    requires var fp := Fingerprint(l.table.hashes[k]); fp in l.table.chains && |l.table.chains[fp]| == 1
    ensures l'.slots == Forgetting(l.slots, Fingerprint(l.table.hashes[k]))
  {
    var i := InChain(l.table, k);
    Removable(l.table, Fingerprint(l.table.hashes[k]), i);
    assert Sits(l.table, k, i);
    ClearsIs(l, [k], l');
    assert [k][..0] == [];
  }

  /** The directory accepts this fingerprint once the given entries have left. */
  ghost predicate Admits(l: Listing, list: seq<nat>, fp: u32) {
    CanUpsert(Cleared(l, list).slots, fp)
  }

  lemma {:induction false} AdmitsIs(l: Listing, list: seq<nat>, l': Listing, fp: u32)
    requires Clears(l, list, l')
    ensures Admits(l, list, fp) <==> CanUpsert(l'.slots, fp)
  {
    ClearsIs(l, list, l');
  }
}
