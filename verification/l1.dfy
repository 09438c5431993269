/** Whole histories of one L1 shard: what a hit may return after any sequence of publications, promotions,
    deletions, lookups and releases of values that callers hold, under either eviction policy. */
module L1 {
  import opened Machine
  import opened Directory
  import opened Tables
  import opened Shards
  import opened Memory
  import Charges

  datatype Request =
    | Put(hash: u64, item: Item, oracle: Oracle)
    | Offer(hash: u64, item: Item, oracle: Oracle)
    | Drop(hash: u64, key: seq<nat>, seqno: nat)
    | Get(hash: u64, key: seq<nat>)
    | Release(cell: nat)
    | Share(cell: nat)

  datatype Answer = Stored(kept: bool) | Hit(item: Option<Item>) | Done

  function IdOf(q: Request): Id
    requires !q.Release? && !q.Share?
  {
    match q
    case Put(hash, item, _) => (hash, item.key)
    case Offer(hash, item, _) => (hash, item.key)
    case Drop(hash, key, _) => (hash, key)
    case Get(hash, key) => (hash, key)
  }

  /** One step of a best-effort cache that holds `m` before and `m'` after the request. */
  ghost predicate Serves(m: map<Id, Item>, q: Request, a: Answer, m': map<Id, Item>) {
    match q
    case Put(_, item, _) =>
      var id := IdOf(q);
      && Writes(m, id, item, m') && a.Stored? && (a.kept <==> id in m' && m'[id].seqno >= item.seqno)
      && (EntryBytes(item) > MAX_L1_ENTRY_BYTES && (id in m ==> m[id].seqno < item.seqno) ==> m' == m - {id})
    case Offer(_, item, _) =>
      var id := IdOf(q);
      && Writes(m, id, item, m') && a.Hit?
      && (a.item.Some? ==> id in m' && m'[id] == a.item.value && a.item.value.seqno >= item.seqno)
      && (if EntryBytes(item) > MAX_L1_ENTRY_BYTES then m' == m && a.item.None?
          else a.item.Some? <==> id in m' && m'[id].seqno >= item.seqno)
    case Drop(_, _, seqno) =>
      var id := IdOf(q);
      a == Done && m' == if id in m && m[id].seqno <= seqno then m - {id} else m
    case Get(_, _) =>
      var id := IdOf(q);
      m' == m && a == Hit(if id in m then Some(m[id]) else None)
    case Release(_) => a == Done && m' == m
    case Share(_) => a == Done && m' == m
  }

  /** Other keys only disappear, and this one never gives way to an older value; an older value stays only
      where nothing changed. */
  ghost predicate Writes(m: map<Id, Item>, id: Id, item: Item, m': map<Id, Item>) {
    && (forall x :: x in m' ==> (x in m && m'[x] == m[x]) || (x == id && m'[x] == item))
    && (id in m && id in m' && m[id].seqno >= item.seqno ==> m'[id] == m[id])
    && (id in m && id in m' && m[id].seqno < item.seqno && m'[id] == m[id] ==> m' == m)
  }

  /** The maps that a run of requests goes through. */
  ghost predicate Trace(requests: seq<Request>, answers: seq<Answer>, maps: seq<map<Id, Item>>) {
    && |answers| == |requests| && |maps| == |requests| + 1 && maps[0] == map[]
    && forall n :: 0 <= n < |requests| ==> Serves(maps[n], requests[n], answers[n], maps[n + 1])
  }

  /** Serves any sequence of requests on a fresh shard with either policy.  Callers clone and drop the
      handles they were given at any point between requests. A best-effort cache explains every answer; a
      shard poisoned by a refused directory insertion answers as an empty one. */
  method Serve(capacity: nat, entries: nat, fifo: bool, requests: seq<Request>) returns (answers: seq<Answer>)
    requires entries <= DELETED_VALUE
    ensures exists maps :: Trace(requests, answers, maps)
  {
    var shard := new MemoryShard(capacity, entries, fifo);
    answers := [];
    ghost var maps: seq<map<Id, Item>> := [map[]];
    var poisoned := false;
    for n := 0 to |requests|
      invariant Trace(requests[..n], answers, maps)
      invariant fresh(shard.Footprint())
      invariant (!poisoned ==> shard.Valid()) && maps[n] == Held(shard, poisoned)
    {
      var answer, failed := Respond(shard, requests[n], poisoned);
      poisoned := failed;
      TraceGrows(requests, n, answers, maps, answer, Held(shard, failed));
      answers, maps := answers + [answer], maps + [Held(shard, failed)];
    }
    assert requests[..|requests|] == requests;
  }

  lemma TraceGrows(requests: seq<Request>, n: nat, answers: seq<Answer>, maps: seq<map<Id, Item>>, answer: Answer, m: map<Id, Item>)
    requires n < |requests| && Trace(requests[..n], answers, maps) && Serves(maps[n], requests[n], answer, m)
    ensures Trace(requests[..n + 1], answers + [answer], maps + [m])
  {
    var answers', maps' := answers + [answer], maps + [m];
    forall k | 0 <= k < n + 1 ensures Serves(maps'[k], requests[..n + 1][k], answers'[k], maps'[k + 1]) {
      if k < n {
        assert Serves(maps[k], requests[..n][k], answers[k], maps[k + 1]);
      }
    }
  }

  /** The map before or after a request; a poisoned shard counts as empty. */
  ghost function Held(shard: MemoryShard, poisoned: bool): map<Id, Item>
    reads shard, shard.slots, shard.hashes, shard.directory.slots
  {
    if poisoned then map[] else Contents(shard.Residents())
  }

  lemma PublishWrites(m: map<Id, Item>, id: Id, item: Item, kept: bool, m': map<Id, Item>)
    requires Publishes(m, id, item, kept, m')
    ensures Writes(m, id, item, m') && (kept <==> id in m' && m'[id].seqno >= item.seqno)
  {
  }

  method RespondPut(shard: MemoryShard, hash: u64, item: Item, o: Oracle) returns (kept: bool, failed: bool)
    requires shard.Valid()
    modifies shard.Footprint()
    ensures !failed ==> shard.Valid()
    ensures Serves(old(Held(shard, false)), Put(hash, item, o), Stored(kept), Held(shard, failed))
  {
    kept, failed := shard.Publish(hash, item, o);
    if !failed {
      PublishWrites(old(Contents(shard.Residents())), (hash, item.key), item, kept, Contents(shard.Residents()));
    }
  }

  method RespondOffer(shard: MemoryShard, hash: u64, item: Item, o: Oracle) returns (found: Option<Item>, failed: bool)
    requires shard.Valid()
    modifies shard.Footprint()
    ensures !failed ==> shard.Valid()
    ensures Serves(old(Held(shard, false)), Offer(hash, item, o), Hit(found), Held(shard, failed))
  {
    ghost var m := Contents(shard.Residents());
    found, failed := shard.Promote(hash, item, o);
    if !failed && EntryBytes(item) <= MAX_L1_ENTRY_BYTES {
      PublishWrites(m, (hash, item.key), item, found.Some?, Contents(shard.Residents()));
    }
  }

  function HandlesOf(l: Charges.Ledger, cell: nat): nat {
    if cell < |l.cells| then l.cells[cell].handles else 0
  }

  /** Some caller has this allocation in hand. */
  predicate HasHandle(l: Charges.Ledger, cell: nat) {
    HandlesOf(l, cell) > 0
  }

  method Respond(shard: MemoryShard, q: Request, poisoned: bool) returns (answer: Answer, failed: bool)
    requires !poisoned ==> shard.Valid()
    modifies shard.Footprint()
    ensures poisoned ==> failed
    ensures !failed ==> shard.Valid()
    ensures Serves(old(Held(shard, poisoned)), q, answer, Held(shard, failed))
    ensures !poisoned && q.Release? && HasHandle(old(shard.ledger), q.cell) ==>
              HandlesOf(shard.ledger, q.cell) + 1 == HandlesOf(old(shard.ledger), q.cell)
    ensures !poisoned && q.Share? && HasHandle(old(shard.ledger), q.cell) ==>
              HandlesOf(shard.ledger, q.cell) == HandlesOf(old(shard.ledger), q.cell) + 1
  {
    failed := poisoned;
    match q {
      case Put(hash, item, o) =>
        var kept := false;
        if !poisoned {
          kept, failed := RespondPut(shard, hash, item, o);
        }
        answer := Stored(kept);
      case Offer(hash, item, o) =>
        var found := None;
        if !poisoned {
          found, failed := RespondOffer(shard, hash, item, o);
        }
        answer := Hit(found);
      case Drop(hash, key, seqno) =>
        if !poisoned {
          shard.Delete(hash, key, seqno);
        }
        answer := Done;
      case Get(hash, key) =>
        var found := None;
        if !poisoned {
          found := shard.Lookup(hash, key);
        }
        answer := Hit(found);
      case Release(cell) =>
        if !poisoned {
          shard.Release(cell);
        }
        answer := Done;
      case Share(cell) =>
        if !poisoned {
          shard.Share(cell);
        }
        answer := Done;
    }
  }

  // ----- what every history guarantees -----

  /** Request p offered this item for this key. */
  predicate Offered(requests: seq<Request>, p: nat, id: Id, item: Item) {
    p < |requests| && (requests[p].Put? || requests[p].Offer?) && IdOf(requests[p]) == id && requests[p].item == item
  }

  /** A cached value was offered for exactly this key since the last moment the key was not cached with
      it. */
  lemma {:induction false} CachedWasOffered(requests: seq<Request>, answers: seq<Answer>, maps: seq<map<Id, Item>>, from: nat, n: nat, id: Id)
    requires Trace(requests, answers, maps) && from <= n < |maps| && id in maps[n]
    requires id in maps[from] ==> maps[from][id] != maps[n][id]
    ensures exists p: nat :: from <= p < n && Offered(requests, p, id, maps[n][id])
    decreases n
  {
    var item := maps[n][id];
    assert n > from;
    assert Serves(maps[n - 1], requests[n - 1], answers[n - 1], maps[n]);
    if id in maps[n - 1] && maps[n - 1][id] == item {
      CachedWasOffered(requests, answers, maps, from, n - 1, id);
    } else {
      assert Offered(requests, n - 1, id, item);
    }
  }

  /** A hit returns exactly the bytes and sequence number of an earlier publication of that key. */
  lemma HitWasPublished(requests: seq<Request>, answers: seq<Answer>, maps: seq<map<Id, Item>>, n: nat)
    requires Trace(requests, answers, maps) && n < |requests| && requests[n].Get?
    requires answers[n].Hit? && answers[n].item.Some?
    ensures exists p: nat :: p < n && Offered(requests, p, IdOf(requests[n]), answers[n].item.value)
  {
    assert Serves(maps[n], requests[n], answers[n], maps[n + 1]);
    CachedWasOffered(requests, answers, maps, 0, n, IdOf(requests[n]));
  }

  /** After a deletion, a hit on the key returns a newer value, or one offered after the deletion. */
  lemma DeletedStaysGone(requests: seq<Request>, answers: seq<Answer>, maps: seq<map<Id, Item>>, d: nat, n: nat)
    requires Trace(requests, answers, maps) && d < n < |requests| && requests[d].Drop? && requests[n].Get?
    requires IdOf(requests[d]) == IdOf(requests[n]) && answers[n].Hit? && answers[n].item.Some?
    ensures answers[n].item.value.seqno > requests[d].seqno
         || exists p: nat :: d < p < n && Offered(requests, p, IdOf(requests[n]), answers[n].item.value)
  {
    var id := IdOf(requests[n]);
    assert Serves(maps[d], requests[d], answers[d], maps[d + 1]);
    assert Serves(maps[n], requests[n], answers[n], maps[n + 1]);
    if answers[n].item.value.seqno <= requests[d].seqno {
      CachedWasOffered(requests, answers, maps, d + 1, n, id);
    }
  }

  /** Once a publication was kept, or was too large and newer than what was cached, a hit on its key is at
      least as new, or was offered later: an older value never comes back by itself. */
  lemma PutOutdates(requests: seq<Request>, answers: seq<Answer>, maps: seq<map<Id, Item>>, d: nat, n: nat)
    requires Trace(requests, answers, maps) && d < n < |requests| && requests[d].Put? && requests[n].Get?
    requires answers[d] == Stored(true) || EntryBytes(requests[d].item) > MAX_L1_ENTRY_BYTES
    requires IdOf(requests[d]) == IdOf(requests[n]) && answers[n].Hit? && answers[n].item.Some?
    ensures answers[n].item.value.seqno >= requests[d].item.seqno
         || exists p: nat :: d < p < n && Offered(requests, p, IdOf(requests[n]), answers[n].item.value)
  {
    var id := IdOf(requests[n]);
    assert Serves(maps[d], requests[d], answers[d], maps[d + 1]);
    assert Serves(maps[n], requests[n], answers[n], maps[n + 1]);
    if answers[n].item.value.seqno < requests[d].item.seqno {
      CachedWasOffered(requests, answers, maps, d + 1, n, id);
    }
  }

  /** While a key stays cached its sequence number never falls. */
  lemma {:induction false} SeqnoRises(requests: seq<Request>, answers: seq<Answer>, maps: seq<map<Id, Item>>, i: nat, j: nat, id: Id)
    requires Trace(requests, answers, maps) && i <= j < |maps| && forall n :: i <= n <= j ==> id in maps[n]
    ensures maps[i][id].seqno <= maps[j][id].seqno
    decreases j
  {
    if i < j {
      SeqnoRises(requests, answers, maps, i, j - 1, id);
      assert Serves(maps[j - 1], requests[j - 1], answers[j - 1], maps[j]);
    }
  }

  /** An older publication, promotion or deletion never displaces a newer value: the key keeps it, or is
      evicted. */
  lemma NewerSurvives(requests: seq<Request>, answers: seq<Answer>, maps: seq<map<Id, Item>>, n: nat, id: Id)
    requires Trace(requests, answers, maps) && n < |requests| && id in maps[n] && id in maps[n + 1]
    requires match requests[n]
             case Put(_, item, _) => item.seqno <= maps[n][id].seqno
             case Offer(_, item, _) => item.seqno <= maps[n][id].seqno
             case _ => true
    ensures maps[n + 1][id] == maps[n][id]
  {
    assert Serves(maps[n], requests[n], answers[n], maps[n + 1]);
  }
}
