/** What the broker ends up holding: over every run, at most one message per
    deduplication id, and for every acknowledged event its own message. */
module OutboxBroker {
  import opened Prelude
  import opened Outbox
  import opened OutboxEffects
  import opened OutboxSafety

  /** The message an event is meant to become. */
  function MessageOf(c: Core): Delivery {
    Delivery(c.dedupId, c.subject, c.payload)
  }

  predicate Remembered(broker: seq<Delivery>, dedupId: string) {
    exists i :: 0 <= i < |broker| && broker[i].dedupId == dedupId
  }

  ghost predicate DistinctIds(broker: seq<Delivery>) {
    forall i, j :: 0 <= i < j < |broker| ==> broker[i].dedupId != broker[j].dedupId
  }

  ghost predicate FromSome(d: Delivery, envelopes: set<Core>) {
    exists c :: c in envelopes && d == MessageOf(c)
  }

  ghost predicate AllFrom(files: map<Uuid, OutboxRecord>, envelopes: set<Core>) {
    forall id :: id in files ==> CoreOf(files[id]) in envelopes
  }

  /** Everything on disk and at the broker stems from the envelopes handed in; the broker
      holds no deduplication id twice and remembers every acknowledged one. */
  ghost predicate Sound(node: Node, envelopes: set<Core>) {
    && AllFrom(node.pending, envelopes)
    && AllFrom(node.dead, envelopes)
    && DistinctIds(node.broker)
    && (forall i :: 0 <= i < |node.broker| ==> FromSome(node.broker[i], envelopes))
    && (forall c :: c in node.acknowledged ==> c in envelopes && Remembered(node.broker, c.dedupId))
  }

  lemma MoreEnvelopes(node: Node, envelopes: set<Core>, c: Core)
    requires Sound(node, envelopes)
    ensures Sound(node, envelopes + {c})
  {
    forall i | 0 <= i < |node.broker| ensures FromSome(node.broker[i], envelopes + {c}) {
      var d :| d in envelopes && node.broker[i] == MessageOf(d);
      assert d in envelopes + {c};
    }
  }

  /** Asking the broker keeps the account sound, whether or not the answer arrives. */
  lemma PublishedSound(node: Node, r: OutboxRecord, stored: bool, acknowledged: bool, envelopes: set<Core>)
    requires Sound(node, envelopes) && CoreOf(r) in envelopes
    requires acknowledged ==> stored
    ensures Sound(Published(node, r, stored, acknowledged), envelopes)
  {
    var after := Published(node, r, stored, acknowledged);
    forall i | 0 <= i < |after.broker| ensures FromSome(after.broker[i], envelopes) {
      if i == |node.broker| {
        assert after.broker[i] == MessageOf(CoreOf(r));
      }
    }
    forall c | c in after.acknowledged ensures c in envelopes && Remembered(after.broker, c.dedupId) {
      if Remembered(node.broker, c.dedupId) {
        var i :| 0 <= i < |node.broker| && node.broker[i].dedupId == c.dedupId;
        assert after.broker[i].dedupId == c.dedupId;
      } else {
        assert after.broker[|node.broker|].dedupId == c.dedupId;
      }
    }
  }

  /** A transition that asks the broker nothing and takes its files from `envelopes`. */
  lemma FilesOnly(a: Node, b: Node, envelopes: set<Core>)
    requires Sound(a, envelopes)
    requires b.broker == a.broker && b.acknowledged == a.acknowledged
    requires AllFrom(b.pending, envelopes) && AllFrom(b.dead, envelopes)
    ensures Sound(b, envelopes)
  {
  }

  lemma MoveSound(node: Node, id: Uuid, io: seq<Fate>, envelopes: set<Core>)
    requires Sound(node, envelopes) && id in node.pending
    ensures Sound(MoveToDeadLetter(node, id, io).node, envelopes)
  {
    hide MoveToDeadLetter;
    MoveEffect(node, id, io);
    FilesOnly(node, Quarantined(node, id), envelopes);
    FilesOnly(node, CountQuarantine(Quarantined(node, id)), envelopes);
  }

  lemma FinalizeSound(node: Node, r: OutboxRecord, acknowledged: bool, now: i64, max: u32, io: seq<Fate>,
                      envelopes: set<Core>)
    requires Sound(node, envelopes) && r.messageId in node.pending && node.pending[r.messageId] == r
    ensures Sound(FinalizeDelivery(node, r, acknowledged, now, max, io).node, envelopes)
  {
    hide FinalizeDelivery, Sound;
    assert AllFrom(node.pending, envelopes) && AllFrom(node.dead, envelopes) by { SoundFiles(node, envelopes); }
    var after := FinalizeDelivery(node, r, acknowledged, now, max, io).node;
    if acknowledged {
      AcknowledgedEffect(node, r, now, max, io);
    } else {
      UnacknowledgedEffect(node, r, now, max, io);
    }
    assert CoreOf(Retried(r, now)) == CoreOf(r);
    FilesOnly(node, after, envelopes);
  }

  lemma SoundFiles(node: Node, envelopes: set<Core>)
    requires Sound(node, envelopes)
    ensures AllFrom(node.pending, envelopes) && AllFrom(node.dead, envelopes)
  {
  }

  lemma CountersSound(a: Node, b: Node, envelopes: set<Core>)
    requires Sound(a, envelopes) && b == a.(counters := b.counters)
    ensures Sound(b, envelopes)
  {
  }

  lemma {:induction false} DeliverSound(node: Node, due: seq<OutboxRecord>, now: i64, max: u32, io: seq<Fate>,
                                        envelopes: set<Core>)
    requires Sound(node, envelopes) && OnDisk(due, node.pending)
    ensures Sound(Deliver(node, due, now, max, io).node, envelopes)
    decreases |due|
  {
    hide Sound, FinalizeDelivery;
    if due != [] {
      var r := due[0];
      var stored := match Next(io) case Works => true case Fails(s) => s case Crashes(s) => s;
      var acked := Next(io).Works?;
      var asked := Published(node, r, stored, acked);
      SoundFiles(node, envelopes);
      PublishedSound(node, r, stored, acked, envelopes);
      if !Next(io).Crashes? {
        FinalizeSound(asked, r, acked, now, max, Rest(io), envelopes);
        var done := FinalizeDelivery(asked, r, acked, now, max, Rest(io));
        CountersSound(done.node, PersistFailure(done.node), envelopes);
        CountersSound(done.node, PublishFailure(done.node), envelopes);
        if acked && done.status == Completed {
          AcknowledgedEffect(asked, r, now, max, Rest(io));
          RestStaysOnDisk(due, node.pending);
          DeliverSound(done.node, due[1..], now, max, done.io, envelopes);
        }
      }
    }
  }

  lemma {:induction false} ScanSound(node: Node, records: seq<OutboxRecord>, due: seq<OutboxRecord>,
                                     now: i64, max: u32, io: seq<Fate>, envelopes: set<Core>)
    requires Sound(node, envelopes) && OnDisk(records, node.pending)
    ensures Sound(ScanRecords(node, records, due, now, max, io).res.node, envelopes)
    decreases |records|
  {
    hide Sound, MoveToDeadLetter;
    if records != [] {
      var r := records[0];
      RestStaysOnDisk(records, node.pending);
      if r.attempts >= max {
        MoveEffect(node, r.messageId, io);
        MoveSound(node, r.messageId, io, envelopes);
        var moved := MoveToDeadLetter(node, r.messageId, io);
        CountersSound(moved.node, PersistFailure(moved.node), envelopes);
        if moved.status == Completed {
          ScanSound(moved.node, records[1..], due, now, max, moved.io, envelopes);
        }
      } else if r.nextAttemptAtMs <= now {
        ScanSound(node, records[1..], due + [r], now, max, io, envelopes);
      } else {
        ScanSound(node, records[1..], due, now, max, io, envelopes);
      }
    }
  }

  lemma DrainSound(node: Node, now: i64, max: u32, connected: bool, io: seq<Fate>, envelopes: set<Core>)
    requires Sound(node, envelopes) && Named(node)
    ensures Sound(DrainLocked(node, now, max, connected, io).node, envelopes)
  {
    hide Sound, ScanRecords, Deliver, Listing, Keeps;
    var records := Listing(node.pending);
    ListingIsOnDisk(records, node.pending);
    CountersSound(node, PersistFailure(node), envelopes);
    assert [] + records == records;
    var scan := ScanRecords(node, records, [], now, max, Rest(io));
    ScanSound(node, records, [], now, max, Rest(io), envelopes);
    ScanKeeps(node, records, [], now, max, Rest(io));
    CountersSound(scan.res.node, scan.res.node.(counters := scan.res.node.counters.(
                    outboxDeferred := WrappingInc(scan.res.node.counters.outboxDeferred))), envelopes);
    if scan.res.status == Completed {
      DeliverSound(scan.res.node, scan.due, now, max, scan.res.io, envelopes);
    }
  }

  lemma PublishSound(node: Node, c: Core, now: i64, max: u32, connected: bool, io: seq<Fate>, envelopes: set<Core>)
    requires Sound(node, envelopes) && Named(node) && c in envelopes
    ensures Sound(PublishEvent(node, NewRecord(c), now, max, connected, io).0.node, envelopes)
  {
    hide Sound, PersistRecord, DrainLocked, Keeps;
    var r := NewRecord(c);
    var p := PersistRecord(node, r, io).res;
    PersistEffect(node, r, io);
    SoundFiles(node, envelopes);
    assert CoreOf(r) == c;
    FilesOnly(node, p.node, envelopes);
    FilesOnly(node, PersistFailure(p.node), envelopes);
    PersistIsNamed(node, r, p.node);
    DrainSound(p.node, now, max, connected, p.io, envelopes);
  }

  lemma StepSound(w: World, op: Op, max: u32, envelopes: set<Core>)
    requires Sound(w.node, envelopes) && Named(w.node)
    requires op.Publish? ==> op.envelope in envelopes
    ensures Sound(Step(w, op, max).node, envelopes)
  {
    hide Sound, PublishEvent, DrainLocked;
    match op {
      case Publish(c, now, connected, io) =>
        PublishSound(w.node, c, now, max, connected, io, envelopes);
      case Tick(now, connected, io) =>
        DrainSound(w.node, now, max, connected, io, envelopes);
      case Boot(now, connected, io) =>
        var ready := WithGauges(Rebooted(w.node));
        CountersSound(w.node, Rebooted(w.node), envelopes);
        CountersSound(w.node, ready, envelopes);
        DrainSound(ready, now, max, connected, Rest(Rest(Rest(io))), envelopes);
    }
  }

  // ----- whole runs -----

  /** The envelopes a run was asked to publish. */
  ghost function Envelopes(ops: seq<Op>): set<Core> {
    if ops == [] then {}
    else Envelopes(ops[..|ops| - 1]) +
         if ops[|ops| - 1].Publish? then {ops[|ops| - 1].envelope} else {}
  }

  lemma {:induction false} RunIsSound(ops: seq<Op>, max: u32)
    ensures Sound(Run(ops, max).node, Envelopes(ops))
  {
    if ops != [] {
      var before := Run(ops[..|ops| - 1], max);
      var op := ops[|ops| - 1];
      RunIsSound(ops[..|ops| - 1], max);
      hide Sound, Step;
      if op.Publish? {
        MoreEnvelopes(before.node, Envelopes(ops[..|ops| - 1]), op.envelope);
      }
      assert Envelopes(ops[..|ops| - 1]) + {} == Envelopes(ops[..|ops| - 1]);
      StepSound(before, op, max, Envelopes(ops));
    }
  }

  /** Different events were handed in under different deduplication ids. */
  ghost predicate OneEventPerId(envelopes: set<Core>) {
    forall c, d :: c in envelopes && d in envelopes && c.dedupId == d.dedupId ==> MessageOf(c) == MessageOf(d)
  }

  /** How often the broker has stored a deduplication id. */
  ghost function Copies(broker: seq<Delivery>, dedupId: string): nat {
    |set i | 0 <= i < |broker| && broker[i].dedupId == dedupId|
  }

  lemma AtMostOneCopy(broker: seq<Delivery>, dedupId: string)
    requires DistinctIds(broker)
    ensures Copies(broker, dedupId) == if Remembered(broker, dedupId) then 1 else 0
  {
    var at := set i | 0 <= i < |broker| && broker[i].dedupId == dedupId;
    if Remembered(broker, dedupId) {
      var i :| 0 <= i < |broker| && broker[i].dedupId == dedupId;
      assert at == {i};
    } else {
      assert at == {};
    }
  }

  /** Over every run, whatever crashed, whichever acknowledgement was lost and however
      often a publish was retried, nothing is stored twice. If distinct events carry
      distinct deduplication ids, then an acknowledged event is stored exactly once and
      as itself, and the broker holds nothing that was not handed in. */
  lemma StoredAtMostOnce(ops: seq<Op>, max: u32, c: Core)
    requires c in Envelopes(ops)
    ensures
      var node := Run(ops, max).node;
      && Copies(node.broker, c.dedupId) <= 1
      && (c in node.acknowledged ==> Copies(node.broker, c.dedupId) == 1)
      && (OneEventPerId(Envelopes(ops)) ==>
            forall i :: 0 <= i < |node.broker| && node.broker[i].dedupId == c.dedupId ==>
              node.broker[i] == MessageOf(c))
  {
    RunIsSound(ops, max);
    var node := Run(ops, max).node;
    AtMostOneCopy(node.broker, c.dedupId);
    if OneEventPerId(Envelopes(ops)) {
      forall i | 0 <= i < |node.broker| && node.broker[i].dedupId == c.dedupId
        ensures node.broker[i] == MessageOf(c)
      {
        assert FromSome(node.broker[i], Envelopes(ops));
      }
    }
  }
}
