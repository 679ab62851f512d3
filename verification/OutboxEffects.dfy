/** What each file-touching step of the outbox can leave behind, as explicit values: the
    complete list of outcomes under every fate of its calls. */
module OutboxEffects {
  import opened Prelude
  import opened Outbox

  /** The disk once `id` has been quarantined. */
  function Quarantined(node: Node, id: Uuid): Node {
    if id !in node.pending then node
    else node.(pending := node.pending - {id},
               dead := if id in node.dead then node.dead else node.dead[id := node.pending[id]])
  }

  function CountQuarantine(node: Node): Node {
    node.(counters := node.counters.(outboxPending := WrappingDec(node.counters.outboxPending),
                                     deadLettered := WrappingInc(node.counters.deadLettered)))
  }

  function Removed(node: Node, id: Uuid): Node {
    node.(pending := node.pending - {id})
  }

  function CountDelivery(node: Node): Node {
    node.(counters := node.counters.(outboxPending := WrappingDec(node.counters.outboxPending),
                                     jetstreamPublished := WrappingInc(node.counters.jetstreamPublished)))
  }

  function Rewritten(node: Node, r: OutboxRecord): Node {
    node.(pending := node.pending[r.messageId := r])
  }

  lemma MoveEffect(node: Node, id: Uuid, io: seq<Fate>)
    requires id in node.pending
    ensures
      var m := MoveToDeadLetter(node, id, io);
      match m.status
      case Completed => m.node == CountQuarantine(Quarantined(node, id))
      case Errored => m.node == node
      case Crashed => m.node == node || m.node == Quarantined(node, id)
  {
  }

  lemma AcknowledgedEffect(node: Node, r: OutboxRecord, now: i64, max: u32, io: seq<Fate>)
    requires r.messageId in node.pending
    ensures
      var d := FinalizeDelivery(node, r, true, now, max, io);
      match d.status
      case Completed => d.node == CountDelivery(Removed(node, r.messageId))
      case Errored => d.node == node
      case Crashed => d.node == node || d.node == Removed(node, r.messageId)
  {
  }

  lemma WriteEffect(node: Node, r: OutboxRecord, io: seq<Fate>)
    ensures
      var w := WriteRecord(node, r, io);
      match w.status
      case Completed => w.node == Rewritten(node, r)
      case Errored => w.node == node
      case Crashed => w.node == node || w.node == Rewritten(node, r)
  {
  }

  lemma UnacknowledgedEffect(node: Node, r: OutboxRecord, now: i64, max: u32, io: seq<Fate>)
    requires r.messageId in node.pending
    ensures
      var d := FinalizeDelivery(node, r, false, now, max, io);
      var later := if now <= 0x7FFF_FFFF_FFFF_FFFF - 5000 then now + 5000 else 0x7FFF_FFFF_FFFF_FFFF;
      var retried := r.(attempts := Min(r.attempts + 1, 0xFFFF_FFFF), nextAttemptAtMs := later);
      var written := Rewritten(node, retried);
      if retried.attempts < max then
        match d.status
        case Completed => d.node == written
        case Errored => d.node == node
        case Crashed => d.node == node || d.node == written
      else
        match d.status
        case Completed => d.node == CountQuarantine(Quarantined(written, r.messageId))
        case Errored => d.node == node || d.node == written
        case Crashed => d.node == node || d.node == written || d.node == Quarantined(written, r.messageId)
  {
    hide WriteRecord, MoveToDeadLetter;
    WriteEffect(node, Retried(r, now), io);
    var w := WriteRecord(node, Retried(r, now), io);
    if r.messageId in w.node.pending {
      MoveEffect(w.node, r.messageId, w.io);
    }
  }

  lemma PersistEffect(node: Node, r: OutboxRecord, io: seq<Fate>)
    ensures
      var p := PersistRecord(node, r, io);
      var written := Rewritten(node, r);
      if r.messageId in node.pending then
        && p.res.node == node && !p.isNew
        && (p.res.status == Completed ==> node.pending[r.messageId] == r)
      else
        match p.res.status
        case Completed =>
          && p.res.node == written.(counters := written.counters.(
               outboxPending := WrappingInc(written.counters.outboxPending)))
          && p.isNew
        case Errored => p.res.node == node
        case Crashed => p.res.node == node || p.res.node == written
  {
    hide WriteRecord;
    var prepared := FileCall(node, node, io);
    var read := FileCall(node, node, prepared.io);
    WriteEffect(node, r, read.io);
  }

  // ----- listings while they are worked off -----

  /** Records that are on disk exactly as listed, no two under one name. */
  ghost predicate OnDisk(records: seq<OutboxRecord>, pending: map<Uuid, OutboxRecord>) {
    && (forall i :: 0 <= i < |records| ==>
          records[i].messageId in pending && pending[records[i].messageId] == records[i])
    && (forall i, j :: 0 <= i < j < |records| ==> records[i].messageId != records[j].messageId)
  }

  lemma ListingIsOnDisk(records: seq<OutboxRecord>, pending: map<Uuid, OutboxRecord>)
    requires IsListing(records, pending)
    ensures OnDisk(records, pending)
  {
    forall i, j | 0 <= i < j < |records| ensures records[i].messageId != records[j].messageId {
      assert Before(records[i], records[j]);
    }
  }

  /** Dropping the first record's file leaves the others as they were. */
  lemma RestStaysOnDisk(records: seq<OutboxRecord>, pending: map<Uuid, OutboxRecord>)
    requires records != [] && OnDisk(records, pending)
    ensures OnDisk(records[1..], pending - {records[0].messageId})
    ensures OnDisk(records[1..], pending)
  {
  }

  // ----- when everything works and nothing is waiting -----

  function AllWork(n: nat): (io: seq<Fate>)
    ensures |io| == n && forall i :: 0 <= i < n ==> io[i] == Works
  {
    seq(n, _ => Works)
  }

  lemma RestWorks(n: nat)
    requires n > 0
    ensures Next(AllWork(n)) == Works && Rest(AllWork(n)) == AllWork(n - 1)
  {
  }

  lemma SingleListing(r: OutboxRecord)
    ensures WellNamed(map[r.messageId := r]) && Listing(map[r.messageId := r]) == [r]
  {
    var files := map[r.messageId := r];
    assert IsListing([r], files);
    ListingIsUnique([r], Listing(files), files);
  }

  const PUBLISH_CALLS := 7

  const START_CALLS := 4

  /** Publishing into an empty outbox, acknowledged: nothing stays behind on disk, and the
      broker has been asked once. */
  lemma QuietPublish(node: Node, c: Core, max: u32)
    requires node.pending == map[] && max > 0
    ensures
      var r := NewRecord(c);
      var (res, persisted) := PublishEvent(node, r, 0, max, true, AllWork(PUBLISH_CALLS));
      && persisted && res.status == Completed
      && res.node.pending == map[] && res.node.dead == node.dead
      && res.node.broker == Store(node.broker, r)
      && res.node.acknowledged == node.acknowledged + {c}
  {
    hide Listing, Store;
    var r := NewRecord(c);
    QuietPersist(node, r);
    SingleListing(r);
    var persisted := PersistRecord(node, r, AllWork(PUBLISH_CALLS)).res;
    QuietDrain(persisted.node, r, max);
  }

  lemma QuietPersist(node: Node, r: OutboxRecord)
    requires node.pending == map[]
    ensures
      var p := PersistRecord(node, r, AllWork(PUBLISH_CALLS)).res;
      && p.status == Completed && p.io == AllWork(3)
      && p.node == Rewritten(node, r).(counters := p.node.counters)
  {
    RestWorks(7);
    RestWorks(6);
    RestWorks(5);
    RestWorks(4);
  }

  lemma QuietDelivery(node: Node, r: OutboxRecord, max: u32)
    requires r.messageId in node.pending
    ensures Deliver(node, [r], 0, max, AllWork(2))
         == Res(CountDelivery(Removed(Published(node, r, true, true), r.messageId)), AllWork(0), Completed)
  {
    hide Store;
    RestWorks(2);
    RestWorks(1);
    var asked := Published(node, r, true, true);
    var done := CountDelivery(Removed(asked, r.messageId));
    assert FinalizeDelivery(asked, r, true, 0, max, AllWork(1)) == Res(done, AllWork(0), Completed);
    assert [r][1..] == [] && Deliver(done, [], 0, max, AllWork(0)) == Res(done, AllWork(0), Completed);
  }

  lemma QuietScan(node: Node, r: OutboxRecord, max: u32)
    requires r.attempts < max && r.nextAttemptAtMs <= 0
    ensures ScanRecords(node, [r], [], 0, max, AllWork(2)) == Scan(Res(node, AllWork(2), Completed), [r])
  {
    assert [r][1..] == [] && [] + [r] == [r];
  }

  lemma QuietDrain(node: Node, r: OutboxRecord, max: u32)
    requires node.pending == map[r.messageId := r] && r.attempts < max && r.nextAttemptAtMs <= 0
    ensures
      var res := DrainLocked(node, 0, max, true, AllWork(3));
      && res.status == Completed
      && res.node.pending == map[] && res.node.dead == node.dead
      && res.node.broker == Store(node.broker, r)
      && res.node.acknowledged == node.acknowledged + {CoreOf(r)}
  {
    hide Listing, Store, ScanRecords, Deliver;
    SingleListing(r);
    RestWorks(3);
    QuietScan(node, r, max);
    QuietDelivery(node, r, max);
  }

  /** A start on an empty outbox. */
  lemma QuietStart(node: Node, max: u32)
    requires node.pending == map[]
    ensures
      var (res, started) := Start(node, 0, max, false, AllWork(START_CALLS));
      && started && res.status == Completed
      && res.node == WithGauges(node)
  {
    hide Listing;
    RestWorks(4);
    RestWorks(3);
    RestWorks(2);
    RestWorks(1);
    EmptyListing(Listing(map[]), map[]);
  }
}
