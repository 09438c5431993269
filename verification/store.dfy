/** The `RegionStore` protocol as interleaved atomic steps: staging, flushing, publication, rotation,
    deletion and reclaim, over the Region manager, an abstract point index and the written records. */
module Stores {
  import opened Machine
  import opened Regions
  import opened Runs

  datatype Location = Location(region: nat, offset: nat, length: nat)

  /** One encoded record, stamped with the generation of its Region.  A reinserted record carries the
      location it replaces. */
  datatype Rec = Rec(hash: nat, region: nat, generation: nat, offset: nat, length: nat, previous: Option<Location>) {
    function Where(): Location {
      Location(region, offset, length)
    }
  }

  /** One shard's records in staging order: completed and awaiting publication, then in flight, then
      in the open fill buffer. */
  datatype Lane = Lane(queue: seq<Rec>, landed: nat, flight: nat)

  /** One reclaim worker: the next record to look at, whether it was found hot, and the byte budget. */
  datatype Scan = Scan(next: nat, offered: bool, accepting: bool, budget: nat, spent: nat, released: bool)

  datatype Store = Store(
    m: Manager,
    token: nat -> nat,
    index: map<nat, Location>,
    generations: seq<nat>,
    disk: seq<seq<Rec>>,
    lanes: seq<Lane>,
    scans: map<nat, Scan>)

  datatype Action =
    | PutValue(s: nat, hash: nat, bytes: nat)
    | AskRotation(s: nat, bytes: nat)
    | SealLane(s: nat)
    | LandLane(s: nat)
    | PublishFirst(s: nat, evicted: Option<nat>)
    | RotateBegin(s: nat)
    | RotateStore(s: nat)
    | RotateEnd(s: nat)
    | NumberDelete
    | Delete(hash: nat)
    | ReclaimPin(accepting: bool)
    | ScanPrepare(x: nat, hot: bool)
    | ScanOffer(x: nat, s: nat, bytes: nat)
    | ScanDrop(x: nat)
    | ReclaimRelease(x: nat)
    | ReclaimFree(x: nat)

  /** One eighth of the source, less one I/O block, rounded down to whole records. */
  function ReinsertBudget(used: nat): nat {
    var raw := SaturatingSub(used / 8, DIRECT_IO_ALIGNMENT);
    raw - raw % RECORD_ALIGNMENT
  }

  function Lookup(index: map<nat, Location>, t: nat): Option<Location> {
    if t in index then Some(index[t]) else None
  }

  /** A conditional remove: only the mapping that still names `l` goes. */
  function RemoveIfMatch(index: map<nat, Location>, t: nat, l: Location): map<nat, Location> {
    if Lookup(index, t) == Some(l) then index - {t} else index
  }

  /** Publication of one completed record: reinsertions replace only their own source mapping, values
      are upserted and may push one other mapping out of its bucket. */
  function Published(index: map<nat, Location>, t: nat, r: Rec, evicted: Option<nat>): map<nat, Location> {
    match r.previous
    case Some(l) => if Lookup(index, t) == Some(l) then index[t := r.Where()] else index
    case None => (if evicted.Some? then index - {evicted.value} else index)[t := r.Where()]
  }

  /** The receipt that pins Region x. */
  function PinOf(m: Manager, x: nat): Option<Reclaim> {
    PinIn(m.reclaiming, x)
  }

  function PinIn(q: seq<Reclaim>, x: nat): (r: Option<Reclaim>)
    ensures r.Some? ==> r.value in q && r.value.region == x
    ensures r.None? ==> forall k :: 0 <= k < |q| ==> q[k].region != x
  {
    if q == [] then None else if q[0].region == x then Some(q[0]) else PinIn(q[1..], x)
  }

  predicate Replacing(st: Store, x: nat) {
    exists s, i :: 0 <= s < |st.lanes| && 0 <= i < |st.lanes[s].queue|
      && st.lanes[s].queue[i].previous.Some? && st.lanes[s].queue[i].previous.value.region == x
  }

  /** The record a scan is looking at. */
  predicate AtRecord(st: Store, x: nat) {
    x in st.scans && x < |st.disk| && st.scans[x].next < |st.disk[x]| && !st.scans[x].released
  }

  /** When an action may happen: the gates, the single worker of each shard, and the order in which a
      reclaim worker runs its steps. */
  ghost predicate Enabled(st: Store, a: Action) {
    match a
    case PutValue(s, _, bytes) => s < |st.lanes| && bytes <= U32_MAX
    case AskRotation(s, bytes) => s < |st.lanes| && bytes <= U32_MAX
    case SealLane(s) => s < |st.lanes| && st.lanes[s].landed == 0 && |st.lanes[s].queue| > st.lanes[s].flight
    case LandLane(s) => s < |st.lanes| && st.lanes[s].landed == 0 && st.lanes[s].flight > 0
    case PublishFirst(s, _) => s < |st.lanes| && st.lanes[s].landed > 0
    case RotateBegin(s) => s < |st.lanes| && st.lanes[s].landed == 0
    case RotateStore(s) => s < |st.m.shards| && st.m.shards[s].rotation.Some?
    case RotateEnd(s) =>
      && s < |st.m.shards| && st.m.shards[s].rotation.Some?
      && var q := st.m.shards[s].rotation.value;
      q.activated < |st.generations| && st.generations[q.activated] == q.created
    case NumberDelete => true
    case Delete(_) => true
    case ReclaimPin(_) => true
    case ScanPrepare(x, _) => AtRecord(st, x) && !st.scans[x].offered
    case ScanOffer(x, s, bytes) =>
      && AtRecord(st, x) && st.scans[x].offered && st.scans[x].accepting && s < |st.lanes|
      && 0 < bytes <= st.scans[x].budget && bytes % RECORD_ALIGNMENT == 0 && bytes <= U32_MAX
    case ScanDrop(x) => AtRecord(st, x) && st.scans[x].offered
    case ReclaimRelease(x) =>
      && x in st.scans && !st.scans[x].released && !st.scans[x].offered
      && x < |st.disk| && st.scans[x].next == |st.disk[x]| && !Replacing(st, x)
    case ReclaimFree(x) => x in st.scans && st.scans[x].released
  }

  /** Reserve, stage and encode one record under the shard gate. */
  function StageInto(st: Store, s: nat, hash: nat, bytes: nat, previous: Option<Location>): (Store, bool)
    requires s < |st.lanes|
  {
    match ReserveAppend(st.m, s, bytes)
    case (m', Ok(t)) =>
      var lane := st.lanes[s];
      var r := Rec(hash, t.region, t.created, t.offset, t.bytes, previous);
      (st.(m := StageReservation(m', t).0, lanes := st.lanes[s := lane.(queue := lane.queue + [r])]), true)
    case (m', Err(_)) => (st.(m := m'), false)
  }

  /** Grows the last staged record over the span padding. */
  function PadLast(q: seq<Rec>, padding: nat): seq<Rec>
    requires q != []
  {
    q[|q| - 1 := q[|q| - 1].(length := q[|q| - 1].length + padding)]
  }

  function Sealing(st: Store, s: nat): Store
    requires s < |st.lanes| && |st.lanes[s].queue| > st.lanes[s].flight
  {
    var lane := st.lanes[s];
    match ReserveWritePadding(st.m, s)
    case (m', Ok(Some(p))) =>
      if p.padded < p.unpadded then st
      else
        st.(m := SealWithPadding(m', p).0,
            lanes := st.lanes[s := Lane(PadLast(lane.queue, p.padded - p.unpadded), lane.landed, SaturatingSub(|lane.queue|, lane.landed))])
    case (m', Ok(None)) =>
      st.(m := SealWriteSpan(m', s).0,
          lanes := st.lanes[s := lane.(flight := SaturatingSub(|lane.queue|, lane.landed))])
    case (m', Err(_)) => st.(m := m')
  }

  function Landing(st: Store, s: nat): Store
    requires s < |st.lanes|
  {
    var lane := st.lanes[s];
    if s < |st.m.shards| && st.m.shards[s].submitted.Some? && lane.flight <= |lane.queue| && lane.landed == 0 then
      var w := st.m.shards[s].submitted.value;
      if w.region < |st.disk| then
        st.(m := CompleteWriteSpan(st.m, w).0,
            disk := st.disk[w.region := st.disk[w.region] + lane.queue[..lane.flight]],
            lanes := st.lanes[s := Lane(lane.queue, lane.flight, 0)])
      else st
    else st
  }

  function Publishing(st: Store, s: nat, evicted: Option<nat>): Store
    requires s < |st.lanes| && st.lanes[s].landed > 0
  {
    var lane := st.lanes[s];
    if lane.queue == [] then st
    else
      var r := lane.queue[0];
      st.(index := Published(st.index, st.token(r.hash), r, evicted),
          lanes := st.lanes[s := Lane(lane.queue[1..], lane.landed - 1, lane.flight)])
  }

  function Advance(scan: Scan): Scan {
    scan.(next := scan.next + 1, offered := false)
  }

  function Preparing(st: Store, x: nat, hot: bool): Store
    requires AtRecord(st, x)
  {
    var r, scan := st.disk[x][st.scans[x].next], st.scans[x];
    var t := st.token(r.hash);
    if Lookup(st.index, t) != Some(r.Where()) then st.(scans := st.scans[x := Advance(scan)])
    else if hot then st.(scans := st.scans[x := scan.(offered := true)])
    else st.(index := st.index - {t}, scans := st.scans[x := Advance(scan)])
  }

  /** Drops the mapping of a record that is not reinserted. */
  function Dropping(st: Store, x: nat, accepting: bool): Store
    requires AtRecord(st, x)
  {
    var r, scan := st.disk[x][st.scans[x].next], st.scans[x];
    st.(index := RemoveIfMatch(st.index, st.token(r.hash), r.Where()),
        scans := st.scans[x := Advance(scan).(accepting := accepting)])
  }

  function Offering(st: Store, x: nat, s: nat, bytes: nat): Store
    requires AtRecord(st, x) && s < |st.lanes| && bytes <= st.scans[x].budget
  {
    var r, scan := st.disk[x][st.scans[x].next], st.scans[x];
    var (st', staged) := StageInto(st, s, r.hash, bytes, Some(r.Where()));
    if staged then
      st'.(scans := st.scans[x := Advance(scan).(budget := scan.budget - bytes, spent := scan.spent + bytes)])
    else Dropping(st', x, false)
  }

  function Pinning(st: Store, accepting: bool): Store {
    match BeginReclaim(st.m)
    case (m', Ok(Some(c))) =>
      st.(m := m', scans := st.scans[c.region := Scan(0, false, accepting, ReinsertBudget(c.used), 0, false)])
    case (m', _) => st.(m := m')
  }

  function Freeing(st: Store, x: nat): Store {
    var pin := PinOf(st.m, x);
    if pin.None? || x >= |st.disk| then st
    else st.(m := FinishReclaim(st.m, pin.value).0, disk := st.disk[x := []], scans := st.scans - {x})
  }

  function Rotating(st: Store, s: nat): Store {
    match SelectRotation(st.m, s)
    case Err(_) => st
    case Ok(c) => st.(m := BeginRotation(st.m, c).0)
  }

  ghost function Do(st: Store, a: Action): Store
    requires Enabled(st, a)
  {
    match a
    case PutValue(s, hash, bytes) => StageInto(st, s, hash, bytes, None).0
    case AskRotation(s, bytes) => st.(m := RequestRotationForAppend(st.m, s, bytes).0)
    case SealLane(s) => Sealing(st, s)
    case LandLane(s) => Landing(st, s)
    case PublishFirst(s, evicted) => Publishing(st, s, evicted)
    case RotateBegin(s) => Rotating(st, s)
    case RotateStore(s) =>
      var q := st.m.shards[s].rotation.value;
      if q.activated < |st.generations| then st.(generations := st.generations[q.activated := q.created]) else st
    case RotateEnd(s) => st.(m := FinishRotation(st.m, st.m.shards[s].rotation.value).0)
    case NumberDelete => st.(m := AllocateSeqno(st.m).0)
    case Delete(hash) => st.(index := st.index - {st.token(hash)})
    case ReclaimPin(accepting) => Pinning(st, accepting)
    case ScanPrepare(x, hot) => Preparing(st, x, hot)
    case ScanOffer(x, s, bytes) => Offering(st, x, s, bytes)
    case ScanDrop(x) => Dropping(st, x, st.scans[x].accepting)
    case ReclaimRelease(x) =>
      if x < |st.generations| then
        st.(generations := st.generations[x := 0], scans := st.scans[x := st.scans[x].(released := true)])
      else st
    case ReclaimFree(x) => Freeing(st, x)
  }
}
