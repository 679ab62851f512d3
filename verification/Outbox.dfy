/** The durable outbox of src/nats.rs as transitions on a value: two directories, the
    broker behind them, and the counters of one process. Every file or broker call
    draws its fate from a script, so one script is one course of the outside world, a
    crash included; a script that runs out is a process that stops there. */
module Outbox {
  import opened Prelude

  type Uuid = nat

  type Payload = seq<bv8>

  const OUTBOX_RETRY_MS := 5000

  datatype OutboxRecord = OutboxRecord(
    messageId: Uuid,
    subject: string,
    dedupId: string,
    payload: Payload,
    attempts: u32,
    createdAtMs: i64,
    nextAttemptAtMs: i64)

  /** What a retry must not change. */
  datatype Core = Core(messageId: Uuid, subject: string, dedupId: string, payload: Payload, createdAtMs: i64)

  function CoreOf(r: OutboxRecord): Core {
    Core(r.messageId, r.subject, r.dedupId, r.payload, r.createdAtMs)
  }

  /** A message the broker has stored. */
  datatype Delivery = Delivery(dedupId: string, subject: string, payload: Payload)

  datatype Counters = Counters(
    outboxPending: u64,
    deadLettered: u64,
    jetstreamPublished: u64,
    publishFailures: u64,
    outboxPersistFailures: u64,
    outboxDeferred: u64)

  /** The two directories by file name, the broker's log, the counters, and two
      histories: the publishes attempted and the records the broker acknowledged. */
  datatype Node = Node(
    pending: map<Uuid, OutboxRecord>,
    dead: map<Uuid, OutboxRecord>,
    broker: seq<Delivery>,
    counters: Counters,
    attempted: seq<Uuid>,
    acknowledged: set<Core>)

  const NO_COUNTS := Counters(0, 0, 0, 0, 0, 0)

  const EMPTY := Node(map[], map[], [], NO_COUNTS, [], {})

  // ----- the outside world -----

  /** How one call to the outside ends. A failed file call has no effect; a publish that
      reports failure may or may not have been stored; a crash may fall before or after
      the effect. */
  datatype Fate = Works | Fails(applied: bool) | Crashes(applied: bool)

  datatype Status = Completed | Errored | Crashed

  datatype Res = Res(node: Node, io: seq<Fate>, status: Status)

  function Next(io: seq<Fate>): Fate {
    if io == [] then Crashes(false) else io[0]
  }

  function Rest(io: seq<Fate>): seq<Fate> {
    if io == [] then [] else io[1..]
  }

  /** One file-system call that would take `node` to `done`. */
  function FileCall(node: Node, done: Node, io: seq<Fate>): Res {
    match Next(io)
    case Works => Res(done, Rest(io), Completed)
    case Fails(_) => Res(node, Rest(io), Errored)
    case Crashes(applied) => Res(if applied then done else node, Rest(io), Crashed)
  }

  /** A call on a file that is not there fails whatever the world intends. */
  function MissingFile(node: Node, io: seq<Fate>): Res {
    Res(node, Rest(io), if Next(io).Crashes? then Crashed else Errored)
  }

  /** The broker stores a message unless it remembers the deduplication id. */
  function Store(broker: seq<Delivery>, r: OutboxRecord): seq<Delivery> {
    if exists i :: 0 <= i < |broker| && broker[i].dedupId == r.dedupId then broker
    else broker + [Delivery(r.dedupId, r.subject, r.payload)]
  }

  // ----- file operations -----

  /** Temporary file, then rename over the final name. */
  function WriteRecord(node: Node, r: OutboxRecord, io: seq<Fate>): Res {
    var temporary := FileCall(node, node, io);
    if temporary.status != Completed then temporary
    else FileCall(node, node.(pending := node.pending[r.messageId := r]), temporary.io)
  }

  function RemovePending(node: Node, id: Uuid, io: seq<Fate>): Res {
    if id !in node.pending then MissingFile(node, io)
    else FileCall(node, node.(pending := node.pending - {id}), io)
  }

  function RenameToDead(node: Node, id: Uuid, io: seq<Fate>): Res {
    if id !in node.pending then MissingFile(node, io)
    else FileCall(node, node.(pending := node.pending - {id}, dead := node.dead[id := node.pending[id]]), io)
  }

  function MoveToDeadLetter(node: Node, id: Uuid, io: seq<Fate>): Res {
    var checked := FileCall(node, node, io);
    if checked.status != Completed then checked
    else
      var moved := if id in node.dead then RemovePending(node, id, checked.io)
                   else RenameToDead(node, id, checked.io);
      if moved.status != Completed then moved
      else moved.(node := moved.node.(counters := moved.node.counters.(
                    outboxPending := WrappingDec(moved.node.counters.outboxPending),
                    deadLettered := WrappingInc(moved.node.counters.deadLettered))))
  }

  // ----- delivery -----

  function SaturatingAddMs(a: i64, b: i64): i64 {
    if a + b > 0x7FFF_FFFF_FFFF_FFFF then 0x7FFF_FFFF_FFFF_FFFF
    else if a + b < -0x8000_0000_0000_0000 then -0x8000_0000_0000_0000
    else a + b
  }

  /** The record as it is written back after an unacknowledged publish. */
  function Retried(r: OutboxRecord, now: i64): OutboxRecord {
    r.(attempts := Min(r.attempts + 1, 0xFFFF_FFFF),
       nextAttemptAtMs := SaturatingAddMs(now, OUTBOX_RETRY_MS))
  }

  function FinalizeDelivery(node: Node, r: OutboxRecord, acknowledged: bool, now: i64, max: u32, io: seq<Fate>): Res {
    if acknowledged then
      var removed := RemovePending(node, r.messageId, io);
      if removed.status != Completed then removed
      else removed.(node := removed.node.(counters := removed.node.counters.(
                      outboxPending := WrappingDec(removed.node.counters.outboxPending),
                      jetstreamPublished := WrappingInc(removed.node.counters.jetstreamPublished))))
    else
      var retried := Retried(r, now);
      var written := WriteRecord(node, retried, io);
      if written.status != Completed || retried.attempts < max then written
      else MoveToDeadLetter(written.node, r.messageId, written.io)
  }

  /** The node once the broker has been asked to store `r`. */
  function Published(node: Node, r: OutboxRecord, stored: bool, acknowledged: bool): Node {
    node.(broker := if stored then Store(node.broker, r) else node.broker,
          attempted := node.attempted + [r.messageId],
          acknowledged := if acknowledged then node.acknowledged + {CoreOf(r)} else node.acknowledged)
  }

  function PersistFailure(node: Node): Node {
    node.(counters := node.counters.(outboxPersistFailures := WrappingInc(node.counters.outboxPersistFailures)))
  }

  function PublishFailure(node: Node): Node {
    node.(counters := node.counters.(publishFailures := WrappingInc(node.counters.publishFailures)))
  }

  /** An I/O error that the drain counts and stops at. */
  function StopAtError(res: Res): Res {
    if res.status == Errored then res.(node := PersistFailure(res.node)) else res
  }

  /** The delivery loop: publish in order, stop at the first record not acknowledged. */
  function Deliver(node: Node, due: seq<OutboxRecord>, now: i64, max: u32, io: seq<Fate>): Res
    decreases |due|
  {
    if due == [] then Res(node, io, Completed)
    else
      match Next(io)
      case Crashes(stored) => Res(Published(node, due[0], stored, false), Rest(io), Crashed)
      case Works =>
        var done := FinalizeDelivery(Published(node, due[0], true, true), due[0], true, now, max, Rest(io));
        if done.status != Completed then StopAtError(done) else Deliver(done.node, due[1..], now, max, done.io)
      case Fails(stored) =>
        var done := FinalizeDelivery(Published(node, due[0], stored, false), due[0], false, now, max, Rest(io));
        if done.status != Completed then StopAtError(done) else done.(node := PublishFailure(done.node))
  }

  datatype Scan = Scan(res: Res, due: seq<OutboxRecord>)

  /** The scan over the listing: quarantine what is at the limit, collect what is due. */
  function ScanRecords(node: Node, records: seq<OutboxRecord>, due: seq<OutboxRecord>,
                       now: i64, max: u32, io: seq<Fate>): Scan
    decreases |records|
  {
    if records == [] then Scan(Res(node, io, Completed), due)
    else if records[0].attempts >= max then
      var moved := MoveToDeadLetter(node, records[0].messageId, io);
      if moved.status != Completed then Scan(StopAtError(moved), due)
      else ScanRecords(moved.node, records[1..], due, now, max, moved.io)
    else if records[0].nextAttemptAtMs <= now then
      ScanRecords(node, records[1..], due + [records[0]], now, max, io)
    else
      ScanRecords(node, records[1..], due, now, max, io)
  }

  // ----- the directory listing -----

  /** Order of `sort_by_key(|r| (r.created_at_ms, r.message_id))`. */
  predicate Before(a: OutboxRecord, b: OutboxRecord) {
    a.createdAtMs < b.createdAtMs || (a.createdAtMs == b.createdAtMs && a.messageId < b.messageId)
  }

  /** Every file is named after the record in it. */
  ghost predicate WellNamed(files: map<Uuid, OutboxRecord>) {
    forall id :: id in files ==> files[id].messageId == id
  }

  ghost predicate IsListing(records: seq<OutboxRecord>, files: map<Uuid, OutboxRecord>) {
    && (forall i, j :: 0 <= i < j < |records| ==> Before(records[i], records[j]))
    && (forall i :: 0 <= i < |records| ==> records[i].messageId in files && files[records[i].messageId] == records[i])
    && (forall id :: id in files ==> files[id] in records)
  }

  ghost predicate IsFirst(id: Uuid, files: map<Uuid, OutboxRecord>) {
    id in files && forall other :: other in files && other != id ==> Before(files[id], files[other])
  }

  lemma {:induction false} FirstExists(files: map<Uuid, OutboxRecord>) returns (first: Uuid)
    requires files != map[] && WellNamed(files)
    ensures IsFirst(first, files)
    decreases |files|
  {
    var id :| id in files;
    var rest := files - {id};
    if rest == map[] {
      first := id;
      assert files.Keys == {id} + rest.Keys;
    } else {
      Smaller(files, id);
      first := FirstExists(rest);
      if Before(files[id], files[first]) {
        first := id;
      }
    }
  }

  lemma SomeFirst(files: map<Uuid, OutboxRecord>)
    requires files != map[] && WellNamed(files)
    ensures exists id :: IsFirst(id, files)
  {
    var first := FirstExists(files);
  }

  lemma Smaller(files: map<Uuid, OutboxRecord>, id: Uuid)
    requires id in files
    ensures |files - {id}| == |files| - 1
  {
    assert (files - {id}).Keys == files.Keys - {id};
  }

  /** The records of a directory in delivery order. */
  ghost function Listing(files: map<Uuid, OutboxRecord>): (records: seq<OutboxRecord>)
    requires WellNamed(files)
    ensures IsListing(records, files)
    decreases |files|
  {
    if files == map[] then []
    else
      SomeFirst(files);
      var id :| IsFirst(id, files);
      Smaller(files, id);
      FirstThenRest(files, id, Listing(files - {id}));
      [files[id]] + Listing(files - {id})
  }

  lemma FirstThenRest(files: map<Uuid, OutboxRecord>, id: Uuid, rest: seq<OutboxRecord>)
    requires WellNamed(files) && IsFirst(id, files) && IsListing(rest, files - {id})
    ensures IsListing([files[id]] + rest, files)
  {
    var records := [files[id]] + rest;
    forall other | other in files ensures files[other] in records {
      if other != id {
        assert other in files - {id};
        assert files[other] in rest;
      } else {
        assert records[0] == files[id];
      }
    }
  }

  lemma FirstNameIsUnique(records: seq<OutboxRecord>, files: map<Uuid, OutboxRecord>)
    requires IsListing(records, files) && records != []
    ensures forall i :: 0 < i < |records| ==> records[i].messageId != records[0].messageId
  {
    forall i | 0 < i < |records| ensures records[i].messageId != records[0].messageId {
      assert Before(records[0], records[i]);
    }
  }

  lemma RestOfListing(records: seq<OutboxRecord>, files: map<Uuid, OutboxRecord>)
    requires WellNamed(files) && IsListing(records, files) && records != []
    ensures IsFirst(records[0].messageId, files)
    ensures IsListing(records[1..], files - {records[0].messageId})
  {
    FirstNameIsUnique(records, files);
    hide Before;
    var first := records[0];
    forall other | other in files && other != first.messageId
      ensures files[other] in records[1..] && Before(first, files[other])
    {
      assert files[other] in records;
      var i :| 0 <= i < |records| && records[i] == files[other];
      assert records[1..][i - 1] == files[other];
    }
  }

  lemma EmptyListing(records: seq<OutboxRecord>, files: map<Uuid, OutboxRecord>)
    requires IsListing(records, files)
    ensures records == [] <==> files == map[]
  {
    if records != [] {
      assert records[0].messageId in files;
    }
    if files != map[] {
      var id :| id in files;
      assert files[id] in records;
    }
  }

  lemma {:induction false} ListingIsUnique(a: seq<OutboxRecord>, b: seq<OutboxRecord>, files: map<Uuid, OutboxRecord>)
    requires WellNamed(files) && IsListing(a, files) && IsListing(b, files)
    ensures a == b
  {
    EmptyListing(a, files);
    EmptyListing(b, files);
    if a != [] {
      RestOfListing(a, files);
      RestOfListing(b, files);
      assert a[0] == b[0];
      ListingIsUnique(a[1..], b[1..], files - {a[0].messageId});
    }
  }

  // ----- the drain -----

  ghost function DrainLocked(node: Node, now: i64, max: u32, connected: bool, io: seq<Fate>): Res
    requires WellNamed(node.pending)
  {
    var read := FileCall(node, node, io);
    if read.status != Completed then StopAtError(read)
    else
      var scan := ScanRecords(node, Listing(node.pending), [], now, max, read.io);
      if scan.res.status != Completed || scan.due == [] then scan.res
      else if !connected then
        scan.res.(node := scan.res.node.(counters := scan.res.node.counters.(
                    outboxDeferred := WrappingInc(scan.res.node.counters.outboxDeferred))))
      else
        Deliver(scan.res.node, scan.due, now, max, scan.res.io)
  }

  // ----- persisting -----

  datatype Persisted = Persisted(res: Res, isNew: bool)

  /** `persist_record`: directories, then a look at the final name, then the write. */
  function PersistRecord(node: Node, r: OutboxRecord, io: seq<Fate>): Persisted {
    var prepared := FileCall(node, node, io);
    if prepared.status != Completed then Persisted(prepared, false)
    else
      var read := FileCall(node, node, prepared.io);
      if read.status != Completed then Persisted(read, false)
      else if r.messageId in node.pending then
        Persisted(read.(status := if node.pending[r.messageId] == r then Completed else Errored), false)
      else
        var written := WriteRecord(node, r, read.io);
        if written.status != Completed then Persisted(written, false)
        else
          Persisted(written.(node := written.node.(counters := written.node.counters.(
                               outboxPending := WrappingInc(written.node.counters.outboxPending)))),
                    true)
  }

  /** `publish_event` of a configured publisher, for the record it has built. The flag
      says whether the record was persisted before anything was published. */
  ghost function PublishEvent(node: Node, r: OutboxRecord, now: i64, max: u32, connected: bool, io: seq<Fate>)
    : (Res, bool)
    requires WellNamed(node.pending)
  {
    var persisted := PersistRecord(node, r, io).res;
    if persisted.status != Completed then (StopAtError(persisted), false)
    else (DrainLocked(persisted.node, now, max, connected, persisted.io), true)
  }

  /** A new process on the same disk and broker. */
  function Rebooted(node: Node): Node {
    node.(counters := NO_COUNTS)
  }

  /** `len() as u64`. */
  function Gauge(n: nat): u64 {
    n % 0x1_0000_0000_0000_0000
  }

  /** The recovery of both directories, which sets the gauges. */
  function Recover(node: Node, io: seq<Fate>): Res {
    var prepared := FileCall(node, node, io);
    if prepared.status != Completed then prepared
    else
      var pending := FileCall(node, node, prepared.io);
      if pending.status != Completed then pending
      else
        var dead := FileCall(node, node, pending.io);
        if dead.status != Completed then dead else dead.(node := WithGauges(node))
  }

  /** `start`: recover, then drain. A failed recovery fails the start; an error inside the
      drain does not. */
  ghost function Start(node: Node, now: i64, max: u32, connected: bool, io: seq<Fate>): (Res, bool)
    requires WellNamed(node.pending)
  {
    var recovered := Recover(node, io);
    if recovered.status != Completed then (recovered, false)
    else (DrainLocked(recovered.node, now, max, connected, recovered.io), true)
  }

  function WithGauges(node: Node): Node {
    node.(counters := node.counters.(outboxPending := Gauge(|node.pending|), deadLettered := Gauge(|node.dead|)))
  }

  // ----- whole runs -----

  /** The record `publish_event` builds for an envelope. */
  function NewRecord(c: Core): OutboxRecord {
    OutboxRecord(c.messageId, c.subject, c.dedupId, c.payload, 0, c.createdAtMs, 0)
  }

  /** What can happen: a publish request, a background tick, or a (re)start. A start may
      come at any moment; whatever was running is then gone. */
  datatype Op =
    | Publish(envelope: Core, now: i64, connected: bool, io: seq<Fate>)
    | Tick(now: i64, connected: bool, io: seq<Fate>)
    | Boot(now: i64, connected: bool, io: seq<Fate>)

  /** A node, and whether its process is running with the gate free. */
  datatype World = World(node: Node, up: bool)

  const NOTHING_YET := World(EMPTY, false)

  ghost function Step(w: World, op: Op, max: u32): World
    requires WellNamed(w.node.pending)
  {
    match op
    case Publish(c, now, connected, io) =>
      if !w.up then w
      else
        var res := PublishEvent(w.node, NewRecord(c), now, max, connected, io).0;
        World(res.node, res.status != Crashed)
    case Tick(now, connected, io) =>
      if !w.up then w
      else
        var res := DrainLocked(w.node, now, max, connected, io);
        World(res.node, res.status != Crashed)
    case Boot(now, connected, io) =>
      var (res, started) := Start(Rebooted(w.node), now, max, connected, io);
      World(res.node, started && res.status != Crashed)
  }

  /** The envelope a step persisted successfully, if it did. */
  ghost function PersistedBy(w: World, op: Op, max: u32): set<Core>
    requires WellNamed(w.node.pending)
  {
    if op.Publish? && w.up && PublishEvent(w.node, NewRecord(op.envelope), op.now, max, op.connected, op.io).1
    then {op.envelope} else {}
  }
}
