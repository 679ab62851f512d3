/** The publisher of src/nats.rs as an object: two directories, the broker and the
    counters are updated in place, call by call, each method proved to do exactly what its
    transition in module Outbox says. */
module NatsPublisher {
  import opened Prelude
  import opened Outbox

  function StatusOf(f: Fate): Status {
    match f
    case Works => Completed
    case Fails(_) => Errored
    case Crashes(_) => Crashed
  }

  /** Whether a file call with this fate has happened. */
  predicate TakesEffect(f: Fate) {
    f.Works? || (f.Crashes? && f.applied)
  }

  class Nats {
    const configured: bool
    const maxAttempts: u32

    // The world outside the process.
    var pending: map<Uuid, OutboxRecord>
    var dead: map<Uuid, OutboxRecord>
    var broker: seq<Delivery>
    var world: seq<Fate>

    // The counters of the process.
    var outboxPending: u64
    var deadLettered: u64
    var jetstreamPublished: u64
    var publishFailures: u64
    var outboxPersistFailures: u64
    var outboxDeferred: u64
    var serializationFailures: u64
    var unconfiguredSkips: u64

    // Histories.
    ghost var attempted: seq<Uuid>
    ghost var acknowledged: set<Core>

    ghost function View(): (node: Node)
      reads this
    {
      Node(pending, dead, broker,
           Counters(outboxPending, deadLettered, jetstreamPublished, publishFailures, outboxPersistFailures,
                    outboxDeferred),
           attempted, acknowledged)
    }

    /** A new process on the disk and broker that the process before it left; a limit of no
        attempts is raised to one. */
    constructor (configured: bool, maxAttempts: u32, before: Node, world: seq<Fate>)
      ensures View() == Rebooted(before) && this.world == world
      ensures pending == before.pending && dead == before.dead && broker == before.broker
      ensures outboxPending == deadLettered == jetstreamPublished == publishFailures == 0
      ensures outboxPersistFailures == outboxDeferred == 0
      ensures this.configured == configured && this.maxAttempts == if maxAttempts == 0 then 1 else maxAttempts
      ensures unconfiguredSkips == 0 && serializationFailures == 0
    {
      this.configured := configured;
      this.maxAttempts := if maxAttempts < 1 then 1 else maxAttempts;
      this.pending := before.pending;
      this.dead := before.dead;
      this.broker := before.broker;
      this.world := world;
      outboxPending, deadLettered, jetstreamPublished, publishFailures := 0, 0, 0, 0;
      outboxPersistFailures, outboxDeferred, serializationFailures, unconfiguredSkips := 0, 0, 0, 0;
      attempted := before.attempted;
      acknowledged := before.acknowledged;
    }

    /** One call to the outside. */
    method Call() returns (fate: Fate)
      modifies `world
      ensures fate == Next(old(world)) && world == Rest(old(world))
    {
      if world == [] {
        return Crashes(false);
      }
      fate := world[0];
      world := world[1..];
    }

    // ----- files -----

    method WriteRecord(record: OutboxRecord) returns (status: Status)
      modifies `world, `pending
      ensures Res(View(), world, status) == Outbox.WriteRecord(old(View()), record, old(world))
    {
      var fate := Call();
      if fate.Works? {
        fate := Call();
        if TakesEffect(fate) {
          pending := pending[record.messageId := record];
        }
      }
      return StatusOf(fate);
    }

    method RemovePending(id: Uuid) returns (status: Status)
      modifies `world, `pending
      ensures Res(View(), world, status) == Outbox.RemovePending(old(View()), id, old(world))
    {
      var fate := Call();
      if id !in pending {
        return if fate.Crashes? then Crashed else Errored;
      }
      if TakesEffect(fate) {
        pending := pending - {id};
      }
      return StatusOf(fate);
    }

    method RenameToDead(id: Uuid) returns (status: Status)
      modifies `world, `pending, `dead
      ensures Res(View(), world, status) == Outbox.RenameToDead(old(View()), id, old(world))
    {
      var fate := Call();
      if id !in pending {
        return if fate.Crashes? then Crashed else Errored;
      }
      if TakesEffect(fate) {
        dead := dead[id := pending[id]];
        pending := pending - {id};
      }
      return StatusOf(fate);
    }

    method MoveToDeadLetter(id: Uuid) returns (status: Status)
      modifies `world, `pending, `dead, `outboxPending, `deadLettered
      ensures Res(View(), world, status) == Outbox.MoveToDeadLetter(old(View()), id, old(world))
    {
      var fate := Call();
      if !fate.Works? {
        return StatusOf(fate);
      }
      if id in dead {
        status := RemovePending(id);
      } else {
        status := RenameToDead(id);
      }
      if status == Completed {
        outboxPending := WrappingDec(outboxPending);
        deadLettered := WrappingInc(deadLettered);
      }
    }

    method FinalizeDelivery(record: OutboxRecord, acked: bool, now: i64) returns (status: Status)
      modifies `world, `pending, `dead, `outboxPending, `deadLettered, `jetstreamPublished
      ensures Res(View(), world, status)
           == Outbox.FinalizeDelivery(old(View()), record, acked, now, maxAttempts, old(world))
    {
      hide Outbox.RemovePending, Outbox.WriteRecord, Outbox.MoveToDeadLetter;
      if acked {
        status := RemovePending(record.messageId);
        if status == Completed {
          outboxPending := WrappingDec(outboxPending);
          jetstreamPublished := WrappingInc(jetstreamPublished);
        }
      } else {
        var again := record.(attempts := Min(record.attempts + 1, 0xFFFF_FFFF));
        again := again.(nextAttemptAtMs := SaturatingAddMs(now, OUTBOX_RETRY_MS));
        status := WriteRecord(again);
        if status == Completed && again.attempts >= maxAttempts {
          status := MoveToDeadLetter(again.messageId);
        }
      }
    }

    /** Whether the record is on disk now, and whether it was put there by this call. */
    method PersistRecord(record: OutboxRecord) returns (status: Status, isNew: bool)
      modifies `world, `pending, `outboxPending
      ensures Outbox.Persisted(Res(View(), world, status), isNew)
           == Outbox.PersistRecord(old(View()), record, old(world))
    {
      hide Outbox.WriteRecord;
      isNew := false;
      var fate := Call();
      if fate.Works? {
        fate := Call();
      }
      if !fate.Works? {
        return StatusOf(fate), false;
      }
      if record.messageId in pending {
        return if pending[record.messageId] == record then Completed else Errored, false;
      }
      status := WriteRecord(record);
      if status == Completed {
        outboxPending := WrappingInc(outboxPending);
        isNew := true;
      }
    }

    // ----- reading a directory -----

    /** `read_records`: the files in whatever order the directory gives them, then sorted. */
    method ReadRecords(files: map<Uuid, OutboxRecord>) returns (status: Status, records: seq<OutboxRecord>)
      requires WellNamed(files)
      modifies `world
      ensures Res(View(), world, status) == FileCall(old(View()), old(View()), old(world))
      ensures status == Completed ==> records == Listing(files) && |records| == |files|
    {
      hide Listing, AreTheFiles, Sorted;
      var fate := Call();
      if !fate.Works? {
        return StatusOf(fate), [];
      }
      var unsorted := ParsedFiles(files);
      records := SortByKey(unsorted);
      SortedFilesAreTheListing(unsorted, records, files);
      return Completed, records;
    }

    // ----- the drain -----

    method DrainLocked(now: i64, connected: bool) returns (status: Status)
      requires WellNamed(pending)
      modifies `world, `pending, `dead, `broker, `outboxPending, `deadLettered, `jetstreamPublished, `publishFailures,
               `outboxPersistFailures, `outboxDeferred, `attempted, `acknowledged
      ensures Res(View(), world, status) == Outbox.DrainLocked(old(View()), now, maxAttempts, connected, old(world))
    {
      hide Listing, Deliver, ScanRecords, WellNamed;
      var records: seq<OutboxRecord>;
      status, records := ReadRecords(pending);
      if status != Completed {
        CountPersistFailure(status);
        return;
      }
      var due;
      status, due := Scan(records, now);
      if status != Completed || due == [] {
        return;
      }
      if !connected {
        outboxDeferred := WrappingInc(outboxDeferred);
        return Completed;
      }
      status := DeliverDue(due, now);
    }

    /** The scan of `drain_locked`. */
    method Scan(records: seq<OutboxRecord>, now: i64) returns (status: Status, due: seq<OutboxRecord>)
      modifies `world, `pending, `dead, `outboxPending, `deadLettered, `outboxPersistFailures
      ensures
        Outbox.Scan(Res(View(), world, status), due)
        == ScanRecords(old(View()), records, [], now, maxAttempts, old(world))
    {
      hide Outbox.MoveToDeadLetter;
      due := [];
      var i := 0;
      while i < |records|
        invariant 0 <= i <= |records|
        invariant ScanRecords(old(View()), records, [], now, maxAttempts, old(world))
               == ScanRecords(View(), records[i..], due, now, maxAttempts, world)
      {
        if records[i].attempts >= maxAttempts {
          status := MoveToDeadLetter(records[i].messageId);
          if status != Completed {
            CountPersistFailure(status);
            return;
          }
        } else if records[i].nextAttemptAtMs <= now {
          due := due + [records[i]];
        }
        i := i + 1;
      }
      return Completed, due;
    }

    /** The delivery loop of `drain_locked`. */
    method DeliverDue(due: seq<OutboxRecord>, now: i64) returns (status: Status)
      modifies `world, `pending, `dead, `broker, `outboxPending, `deadLettered, `jetstreamPublished, `publishFailures,
               `outboxPersistFailures, `attempted, `acknowledged
      ensures Res(View(), world, status) == Deliver(old(View()), due, now, maxAttempts, old(world))
    {
      hide Outbox.FinalizeDelivery;
      var i := 0;
      while i < |due|
        invariant 0 <= i <= |due|
        invariant Deliver(old(View()), due, now, maxAttempts, old(world))
               == Deliver(View(), due[i..], now, maxAttempts, world)
      {
        var record := due[i];
        var fate := Publish(record);
        if fate.Crashes? {
          return Crashed;
        }
        status := FinalizeDelivery(record, fate.Works?, now);
        if status != Completed {
          CountPersistFailure(status);
          return;
        }
        if !fate.Works? {
          publishFailures := WrappingInc(publishFailures);
          return;
        }
        i := i + 1;
      }
      return Completed;
    }

    /** One publish; the broker stores a message unless it remembers its id. */
    method Publish(record: OutboxRecord) returns (fate: Fate)
      modifies `world, `broker, `attempted, `acknowledged
      ensures fate == Next(old(world)) && world == Rest(old(world))
      ensures View() == Published(old(View()), record, fate.Works? || fate.applied, fate.Works?)
    {
      fate := Call();
      attempted := attempted + [record.messageId];
      if (fate.Works? || fate.applied) && !(exists i :: 0 <= i < |broker| && broker[i].dedupId == record.dedupId) {
        broker := broker + [Delivery(record.dedupId, record.subject, record.payload)];
      }
      if fate.Works? {
        acknowledged := acknowledged + {CoreOf(record)};
      }
    }

    /** An I/O error is counted; a crash counts nothing. */
    method CountPersistFailure(status: Status)
      requires status != Completed
      modifies `outboxPersistFailures
      ensures Res(View(), world, status) == StopAtError(Res(old(View()), world, status))
    {
      if status == Errored {
        outboxPersistFailures := WrappingInc(outboxPersistFailures);
      }
    }

    // ----- requests -----

    /** `publish_event`, given what encoding the envelope yields. */
    method PublishEvent(messageId: Uuid, subject: string, dedupId: string, encoded: Option<Payload>, createdAtMs: i64,
                        now: i64, connected: bool) returns (status: Status, persisted: bool)
      requires WellNamed(pending)
      modifies this
      ensures configured && encoded.Some? ==>
                var c := Core(messageId, subject, dedupId, encoded.value, createdAtMs);
                (Res(View(), world, status), persisted)
                == Outbox.PublishEvent(old(View()), NewRecord(c), now, maxAttempts, connected, old(world))
      ensures !configured || encoded.None? ==>
                View() == old(View()) && world == old(world) && status == Completed && !persisted
      ensures unconfiguredSkips == if configured then old(unconfiguredSkips) else WrappingInc(old(unconfiguredSkips))
      ensures serializationFailures
           == if configured && encoded.None? then WrappingInc(old(serializationFailures))
              else old(serializationFailures)
    {
      hide Outbox.DrainLocked, Outbox.PersistRecord;
      if !configured {
        unconfiguredSkips := WrappingInc(unconfiguredSkips);
        return Completed, false;
      }
      if encoded.None? {
        serializationFailures := WrappingInc(serializationFailures);
        return Completed, false;
      }
      var record := OutboxRecord(messageId, subject, dedupId, encoded.value, 0, createdAtMs, 0);
      ghost var before, io := View(), world;
      var isNew;
      status, isNew := PersistRecord(record);
      PersistKeepsNames(before, record, io);
      if status != Completed {
        CountPersistFailure(status);
        return status, false;
      }
      status := DrainLocked(now, connected);
      return status, true;
    }

    /** The recovery inside `start`. */
    method Recover() returns (status: Status)
      requires WellNamed(pending) && WellNamed(dead)
      modifies `world, `outboxPending, `deadLettered
      ensures Res(View(), world, status) == Outbox.Recover(old(View()), old(world))
    {
      hide Listing, IsListing, Gauge, WellNamed;
      var fate := Call();
      if !fate.Works? {
        return StatusOf(fate);
      }
      var waiting: seq<OutboxRecord>, quarantined: seq<OutboxRecord>;
      status, waiting := ReadRecords(pending);
      if status != Completed {
        return;
      }
      status, quarantined := ReadRecords(dead);
      if status != Completed {
        return;
      }
      outboxPending := Gauge(|waiting|);
      deadLettered := Gauge(|quarantined|);
    }

    /** `start` up to the spawning of the background loop. */
    method Start(now: i64, connected: bool) returns (status: Status, started: bool)
      requires WellNamed(pending) && WellNamed(dead)
      modifies this
      ensures configured ==>
                (Res(View(), world, status), started)
                == Outbox.Start(old(View()), now, maxAttempts, connected, old(world))
      ensures !configured ==> View() == old(View()) && world == old(world) && status == Completed && started
      ensures unconfiguredSkips == old(unconfiguredSkips) && serializationFailures == old(serializationFailures)
    {
      hide Outbox.DrainLocked, Outbox.Recover;
      if !configured {
        return Completed, true;
      }
      status := Recover();
      if status != Completed {
        return status, false;
      }
      status := DrainLocked(now, connected);
      return status, true;
    }

    /** `drain_outbox`, the body of the background loop. */
    method DrainOutbox(now: i64, connected: bool) returns (status: Status)
      requires WellNamed(pending)
      modifies this
      ensures configured ==>
                Res(View(), world, status) == Outbox.DrainLocked(old(View()), now, maxAttempts, connected, old(world))
      ensures !configured ==> View() == old(View()) && world == old(world) && status == Completed
      ensures unconfiguredSkips == old(unconfiguredSkips) && serializationFailures == old(serializationFailures)
    {
      if !configured {
        return Completed;
      }
      status := DrainLocked(now, connected);
    }
  }

  lemma PersistKeepsNames(node: Node, r: OutboxRecord, io: seq<Fate>)
    requires WellNamed(node.pending)
    ensures WellNamed(Outbox.PersistRecord(node, r, io).res.node.pending)
  {
  }

  // ----- directory order and sorting -----

  /** `records` are the files named `ids`, each once. */
  ghost predicate AreTheFiles(records: seq<OutboxRecord>, files: map<Uuid, OutboxRecord>, ids: set<Uuid>) {
    && ids <= files.Keys
    && |records| == |ids|
    && (forall i :: 0 <= i < |records| ==> records[i].messageId in ids && files[records[i].messageId] == records[i])
    && (forall i, j :: 0 <= i < j < |records| ==> records[i].messageId != records[j].messageId)
    && (forall id :: id in ids ==> files[id] in records)
  }

  lemma OneMoreFile(records: seq<OutboxRecord>, files: map<Uuid, OutboxRecord>, ids: set<Uuid>, id: Uuid)
    requires WellNamed(files) && AreTheFiles(records, files, ids) && id in files && id !in ids
    ensures AreTheFiles(records + [files[id]], files, ids + {id})
  {
    assert (records + [files[id]])[|records|] == files[id];
  }

  /** The loop of `read_records` over the directory. */
  method ParsedFiles(files: map<Uuid, OutboxRecord>) returns (records: seq<OutboxRecord>)
    requires WellNamed(files)
    ensures AreTheFiles(records, files, files.Keys)
  {
    records := [];
    var read: set<Uuid> := {};
    while read != files.Keys
      invariant read <= files.Keys
      invariant AreTheFiles(records, files, read)
      decreases files.Keys - read
    {
      assert files.Keys - read != {};
      var id :| id in files.Keys - read;
      OneMoreFile(records, files, read, id);
      records := records + [files[id]];
      read := read + {id};
    }
  }

  predicate NotAfter(a: OutboxRecord, b: OutboxRecord) {
    a.createdAtMs < b.createdAtMs || (a.createdAtMs == b.createdAtMs && a.messageId <= b.messageId)
  }

  predicate Sorted(records: seq<OutboxRecord>) {
    forall i, j :: 0 <= i < j < |records| ==> NotAfter(records[i], records[j])
  }

  function Inserted(records: seq<OutboxRecord>, k: nat, r: OutboxRecord): seq<OutboxRecord>
    requires k <= |records|
  {
    records[..k] + [r] + records[k..]
  }

  lemma InsertedIsSorted(records: seq<OutboxRecord>, k: nat, r: OutboxRecord)
    requires Sorted(records) && k <= |records|
    requires k > 0 ==> NotAfter(records[k - 1], r)
    requires forall j :: k <= j < |records| ==> NotAfter(r, records[j])
    ensures Sorted(Inserted(records, k, r))
  {
    var all := Inserted(records, k, r);
    forall j | 0 <= j < k ensures NotAfter(records[j], r) {
      if j < k - 1 {
        InOrder(records[j], records[k - 1], r);
      }
    }
    hide NotAfter;
    forall i, j | 0 <= i < j < |all| ensures NotAfter(all[i], all[j]) {
      assert all[i] == if i < k then records[i] else if i == k then r else records[i - 1];
      assert all[j] == if j < k then records[j] else if j == k then r else records[j - 1];
    }
  }

  lemma InOrder(a: OutboxRecord, b: OutboxRecord, c: OutboxRecord)
    requires NotAfter(a, b) && NotAfter(b, c)
    ensures NotAfter(a, c)
  {
  }

  lemma InsertedHasOneMore(records: seq<OutboxRecord>, k: nat, r: OutboxRecord)
    requires k <= |records|
    ensures multiset(Inserted(records, k, r)) == multiset(records) + multiset{r}
  {
    assert records == records[..k] + records[k..];
  }

  /** `sort_by_key(|record| (record.created_at_ms, record.message_id))`. */
  method SortByKey(records: seq<OutboxRecord>) returns (sorted: seq<OutboxRecord>)
    ensures Sorted(sorted) && multiset(sorted) == multiset(records)
  {
    sorted := [];
    assert Sorted(sorted);
    hide Sorted, Inserted;
    for i := 0 to |records|
      invariant Sorted(sorted) && multiset(sorted) == multiset(records[..i])
    {
      var k := |sorted|;
      while k > 0 && !NotAfter(sorted[k - 1], records[i])
        invariant 0 <= k <= |sorted|
        invariant forall j :: k <= j < |sorted| ==> NotAfter(records[i], sorted[j])
      {
        k := k - 1;
      }
      assert records[..i + 1] == records[..i] + [records[i]];
      InsertedIsSorted(sorted, k, records[i]);
      InsertedHasOneMore(sorted, k, records[i]);
      sorted := Inserted(sorted, k, records[i]);
    }
    assert records[..|records|] == records;
  }

  /** Sorting the files of a directory gives its listing. */
  lemma SortedFilesAreTheListing(records: seq<OutboxRecord>, sorted: seq<OutboxRecord>, files: map<Uuid, OutboxRecord>)
    requires WellNamed(files) && AreTheFiles(records, files, files.Keys)
    requires Sorted(sorted) && multiset(sorted) == multiset(records)
    ensures sorted == Listing(files) && |sorted| == |files|
  {
    PermutedFiles(records, sorted, files);
    ListingIsUnique(sorted, Listing(files), files);
  }

  lemma PermutedFiles(records: seq<OutboxRecord>, sorted: seq<OutboxRecord>, files: map<Uuid, OutboxRecord>)
    requires WellNamed(files) && Sorted(sorted)
    requires AreTheFiles(records, files, files.Keys) && multiset(sorted) == multiset(records)
    ensures IsListing(sorted, files) && |sorted| == |files|
  {
    assert |sorted| == |multiset(sorted)| == |multiset(records)| == |records|;
    forall r ensures r in sorted <==> r in records {
      assert r in multiset(sorted) <==> r in multiset(records);
    }
    forall i, j | 0 <= i < j < |sorted| ensures Before(sorted[i], sorted[j]) {
      assert NotAfter(sorted[i], sorted[j]);
      Different(records, sorted, i, j);
    }
    forall i | 0 <= i < |sorted| ensures sorted[i].messageId in files && files[sorted[i].messageId] == sorted[i] {
      assert sorted[i] in records;
    }
  }

  lemma Different(records: seq<OutboxRecord>, sorted: seq<OutboxRecord>, i: nat, j: nat)
    requires forall k, l :: 0 <= k < l < |records| ==> records[k].messageId != records[l].messageId
    requires multiset(sorted) == multiset(records) && i < j < |sorted|
    ensures sorted[i].messageId != sorted[j].messageId
  {
    if sorted[i].messageId == sorted[j].messageId {
      assert sorted[i] in multiset(records) && sorted[j] in multiset(records);
      assert sorted[i] == sorted[j];
      assert sorted == sorted[..i] + [sorted[i]] + sorted[i + 1..j] + [sorted[j]] + sorted[j + 1..];
      assert multiset(sorted)[sorted[i]] >= 2;
      AtMostOnce(records, sorted[i]);
    }
  }

  lemma {:induction false} AtMostOnce(records: seq<OutboxRecord>, r: OutboxRecord)
    requires forall k, l :: 0 <= k < l < |records| ==> records[k].messageId != records[l].messageId
    ensures multiset(records)[r] <= 1
  {
    if records != [] {
      AtMostOnce(records[1..], r);
      assert records == [records[0]] + records[1..];
    }
  }
}
