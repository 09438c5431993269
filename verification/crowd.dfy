/** The directory preflight failing in a whole shard: sixty-five insertions of different one-byte keys fill
    one probe window and the slot behind it, and replacing the first entry then poisons the shard. */
module Crowds {
  import opened Machine
  import opened Directory
  import opened Tables
  import opened Shards
  import opened Admission
  import opened Memory

  function CrowdHash(k: nat): u64
    requires k <= 64
  {
    HashOf(Crowded()[k].fingerprint)
  }

  /** An empty value under the one-byte key k, of sixty-five bytes. */
  function Blank(k: nat, seqno: nat): Item {
    Item([k], [], seqno)
  }

  const BLANK_BYTES := 65

  /** The slots that k insertions leave free. */
  function CrowdFree(k: nat): (q: seq<nat>)
    requires k <= 65
    ensures |q| == 65 - k && (k < 65 ==> q[0] == k)
  {
    seq(65 - k, i => k + i)
  }

  lemma CrowdTakes(k: nat)
    requires k <= 64
    ensures CrowdFree(k)[1..] == CrowdFree(k + 1)
  {
  }

  /** The shard after its first k insertions. */
  ghost predicate Crowding(shard: MemoryShard, k: nat)
    reads shard.Footprint(), shard.eviction
    requires k <= 65
  {
    && shard.Valid() && shard.directory.slots[..] == CrowdPrefix(k)
    && shard.free == CrowdFree(k)
    && shard.ledger.capacity == 66 * BLANK_BYTES && shard.ledger.used == BLANK_BYTES * k
    && (k > 0 ==>
          && (CrowdHash(0), [0]) in Contents(shard.Residents())
          && Crowded()[0].fingerprint in shard.chains && |shard.chains[Crowded()[0].fingerprint]| == 1)
  }

  /** The k-th fingerprint is not listed yet. */
  lemma CrowdNew(k: nat)
    requires k <= 64
    ensures Crowded()[k].fingerprint !in Fingerprints(CrowdPrefix(k))
  {
    var s, fp := CrowdPrefix(k), Crowded()[k].fingerprint;
    if fp in Fingerprints(s) {
      var j := Directory.SlotOf(s, fp);
      CrowdDistinct(j, k);
    }
  }

  lemma NewcomerCandidate(sh: Shard, s: seq<Slot>, k: nat)
    requires Good(sh) && k <= 64 && s == CrowdPrefix(k) && ModelOf(s) == sh.table.heads
    ensures Crowded()[k].fingerprint !in sh.table.chains && (CrowdHash(k), [k]) !in Contents(sh.table)
  {
    CrowdNew(k);
    TableOf(sh);
    HeadsAreChains(sh.table, Crowded()[k].fingerprint);
    HashHasPrint(Crowded()[k].fingerprint);
    NotCached(sh.table, CrowdHash(k), [k]);
  }

  lemma CrowdListed(k: nat, t: seq<Slot>)
    requires k <= 64 && Enlists(CrowdPrefix(k), Crowded()[k].fingerprint, k, t)
    ensures t == CrowdPrefix(k + 1)
  {
    var fp := Crowded()[k].fingerprint;
    var i: nat :| i < 130 && Accepts(CrowdPrefix(k), fp, i) && t == CrowdPrefix(k)[i := Slot(fp, k)];
    CrowdNext(k, i);
    CrowdGrows(k);
  }

  /** The first fingerprint keeps its chain of one. */
  lemma CrowdChain(a: Shard, b: Shard, k: nat)
    requires k <= 64 && Joins(a, b, CrowdHash(k), k)
    requires if k == 0 then Crowded()[0].fingerprint !in a.table.chains
             else Crowded()[0].fingerprint in a.table.chains && |a.table.chains[Crowded()[0].fingerprint]| == 1
    ensures Crowded()[0].fingerprint in b.table.chains && |b.table.chains[Crowded()[0].fingerprint]| == 1
  {
    HashHasPrint(Crowded()[k].fingerprint);
    if k > 0 {
      CrowdDistinct(0, k);
    }
  }

  method CrowdShard(shard: MemoryShard, k: nat)
    requires k <= 64 && Crowding(shard, k)
    modifies shard.Footprint()
    ensures Crowding(shard, k + 1)
  {
    ghost var sh := shard.State();
    HashHasPrint(Crowded()[k].fingerprint);
    NewcomerCandidate(sh, shard.directory.slots[..], k);
    CrowdNext(k, 0);
    AddBlank(shard, CrowdHash(k), k);
    CrowdListed(k, shard.directory.slots[..]);
    CrowdChain(sh, shard.State(), k);
    CrowdTakes(k);
  }

  /** A new hash finds a free slot, free bytes and room in the directory. */
  method AddBlank(shard: MemoryShard, hash: u64, k: nat)
    requires shard.Valid() && Fingerprint(hash) !in shard.chains && CanUpsert(shard.directory.slots[..], Fingerprint(hash))
    requires shard.free != [] && shard.free[0] == k && shard.ledger.used + BLANK_BYTES <= shard.ledger.capacity
    requires (hash, [k]) !in Contents(shard.Residents())
    modifies shard.Footprint()
    ensures shard.Valid() && Joins(old(shard.State()), shard.State(), hash, k)
    ensures Enlists(old(shard.directory.slots[..]), Fingerprint(hash), k, shard.directory.slots[..])
    ensures shard.ledger.used == old(shard.ledger.used) + BLANK_BYTES
    ensures Contents(shard.Residents()) == old(Contents(shard.Residents()))[(hash, [k]) := Blank(k, 0)]
  {
    AllSurvive(shard.State());
    var outcome, _ := shard.Insert(hash, Blank(k, 0), None, false, false, false);
  }

  /** Replacing the only entry of a locked fingerprint poisons the shard. */
  method ReplaceBlank(shard: MemoryShard, hash: u64, k: nat) returns (outcome: InsertOutcome)
    requires shard.Valid() && (hash, [k]) in Contents(shard.Residents()) && shard.ledger.used + BLANK_BYTES <= shard.ledger.capacity
    requires Fingerprint(hash) in shard.chains && |shard.chains[Fingerprint(hash)]| == 1
    requires Locked(shard.directory.slots[..], Fingerprint(hash))
    modifies shard.Footprint()
    ensures outcome.Poisoned?
  {
    var existing := shard.Find(hash, [k]);
    ghost var pulled;
    outcome, pulled := shard.Insert(hash, Blank(k, 1), existing, false, false, false);
  }

  lemma CrowdWhole()
    ensures CrowdPrefix(65) == Crowded()
  {
  }

  lemma CrowdLocked()
    ensures Locked(Crowded(), Crowded()[0].fingerprint)
  {
    var s := Crowded();
    CrowdedInv();
    CrowdedFull(s);
    assert s[0].Live();
    forall j: nat | 0 < j <= 64 ensures s[j].fingerprint != s[0].fingerprint {
      CrowdDistinct(0, j);
    }
  }

  /** Under either policy the replacement finds the preflight satisfied and its own directory slot gone. */
  method ReplacementPoisons(fifo: bool) returns (outcome: InsertOutcome)
    ensures outcome.Poisoned?
  {
    var shard := new MemoryShard(66 * BLANK_BYTES, 65, fifo);
    assert shard.directory.slots[..] == CrowdPrefix(0) && shard.free == CrowdFree(0);
    for k := 0 to 65
      invariant fresh(shard.Footprint()) && Crowding(shard, k)
    {
      CrowdShard(shard, k);
    }
    CrowdWhole();
    CrowdLocked();
    HashHasPrint(Crowded()[0].fingerprint);
    outcome := ReplaceBlank(shard, CrowdHash(0), 0);
  }
}
