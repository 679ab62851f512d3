/** The two gauges of the outbox against the two directories, over whole runs. */
module OutboxGauges {
  import opened Prelude
  import opened Outbox
  import opened OutboxEffects
  import opened OutboxSafety

  ghost predicate PendingAgrees(node: Node) {
    node.counters.outboxPending == Gauge(|node.pending|)
  }

  ghost predicate DeadAgrees(node: Node) {
    node.counters.deadLettered == Gauge(|node.dead|)
  }

  ghost predicate Disjoint(node: Node) {
    node.pending.Keys !! node.dead.Keys
  }

  /** What a transition does to the agreement of gauges and directories. A crash takes
      the counters with it, so only an orderly end has to leave them right. */
  ghost predicate Tracks(a: Node, b: Node, crashed: bool) {
    && (Disjoint(a) ==> Disjoint(b))
    && (!crashed && PendingAgrees(a) ==> PendingAgrees(b))
    && (!crashed && Disjoint(a) && DeadAgrees(a) ==> DeadAgrees(b))
  }

  lemma SizeWithout<V>(m: map<Uuid, V>, id: Uuid)
    requires id in m
    ensures |m| > 0 && |m - {id}| == |m| - 1
  {
    assert (m - {id}).Keys == m.Keys - {id};
  }

  lemma SizeWith<V>(m: map<Uuid, V>, id: Uuid, v: V)
    ensures |m[id := v]| == if id in m then |m| else |m| + 1
  {
    assert m[id := v].Keys == m.Keys + {id};
  }

  lemma GaugeSteps(n: nat)
    ensures WrappingInc(Gauge(n)) == Gauge(n + 1)
    ensures n > 0 ==> WrappingDec(Gauge(n)) == Gauge(n - 1)
  {
  }

  /** The gauge of the quarantine moves one further than the quarantine itself exactly
      when the id was quarantined before; the gauge of the outbox always moves with it. */
  lemma QuarantineGauges(node: Node, id: Uuid)
    requires id in node.pending
    ensures
      var after := CountQuarantine(Quarantined(node, id));
      && |node.pending| > 0
      && |after.pending| == |node.pending| - 1
      && |after.dead| == |node.dead| + (if id in node.dead then 0 else 1)
      && (PendingAgrees(node) ==> PendingAgrees(after))
      && (DeadAgrees(node) ==> (DeadAgrees(after) <==> id !in node.dead))
      && (Disjoint(node) ==> Disjoint(after))
  {
    SizeWithout(node.pending, id);
    SizeWith(node.dead, id, node.pending[id]);
    GaugeSteps(|node.pending|);
    GaugeSteps(|node.dead|);
  }

  lemma DeliveryGauges(node: Node, id: Uuid)
    requires id in node.pending
    ensures Tracks(node, CountDelivery(Removed(node, id)), false)
    ensures |node.pending| > 0 && Tracks(node, Removed(node, id), true)
  {
    SizeWithout(node.pending, id);
    GaugeSteps(|node.pending|);
  }

  lemma RewriteGauges(node: Node, r: OutboxRecord)
    requires r.messageId in node.pending
    ensures Tracks(node, Rewritten(node, r), false)
  {
    SizeWith(node.pending, r.messageId, r);
  }

  lemma TracksChain(a: Node, b: Node, c: Node, crashed: bool)
    requires Tracks(a, b, false) && Tracks(b, c, crashed)
    ensures Tracks(a, c, crashed)
  {
  }

  lemma OtherCounters(a: Node, b: Node, c: Node, crashed: bool)
    requires Tracks(a, b, crashed)
    requires c.pending == b.pending && c.dead == b.dead
    requires c.counters.outboxPending == b.counters.outboxPending && c.counters.deadLettered == b.counters.deadLettered
    ensures Tracks(a, c, crashed)
  {
  }

  lemma MoveTracks(node: Node, id: Uuid, io: seq<Fate>)
    requires id in node.pending
    ensures Tracks(node, MoveToDeadLetter(node, id, io).node, MoveToDeadLetter(node, id, io).status == Crashed)
  {
    hide MoveToDeadLetter;
    MoveEffect(node, id, io);
    QuarantineGauges(node, id);
  }

  lemma FinalizeTracks(node: Node, r: OutboxRecord, acknowledged: bool, now: i64, max: u32, io: seq<Fate>)
    requires r.messageId in node.pending
    ensures
      var d := FinalizeDelivery(node, r, acknowledged, now, max, io);
      Tracks(node, d.node, d.status == Crashed)
  {
    hide FinalizeDelivery;
    if acknowledged {
      AcknowledgedEffect(node, r, now, max, io);
      DeliveryGauges(node, r.messageId);
    } else {
      UnacknowledgedEffect(node, r, now, max, io);
      RewriteGauges(node, Retried(r, now));
      QuarantineGauges(Rewritten(node, Retried(r, now)), r.messageId);
    }
  }

  lemma {:induction false} DeliverTracks(node: Node, due: seq<OutboxRecord>, now: i64, max: u32, io: seq<Fate>)
    requires OnDisk(due, node.pending)
    ensures Tracks(node, Deliver(node, due, now, max, io).node, Deliver(node, due, now, max, io).status == Crashed)
    decreases |due|
  {
    hide FinalizeDelivery, Tracks;
    NothingMoved(node, node, false);
    if due != [] {
      var r := due[0];
      var stored := match Next(io) case Works => true case Fails(s) => s case Crashes(s) => s;
      var acked := Next(io).Works?;
      var asked := Published(node, r, stored, acked);
      NothingMoved(node, asked, Next(io).Crashes?);
      if !Next(io).Crashes? {
        FinalizeTracks(asked, r, acked, now, max, Rest(io));
        var done := FinalizeDelivery(asked, r, acked, now, max, Rest(io));
        TracksChain(node, asked, done.node, done.status == Crashed);
        OtherCounters(node, done.node, PersistFailure(done.node), done.status == Crashed);
        OtherCounters(node, done.node, PublishFailure(done.node), done.status == Crashed);
        if acked && done.status == Completed {
          AcknowledgedEffect(asked, r, now, max, Rest(io));
          RestStaysOnDisk(due, node.pending);
          DeliverTracks(done.node, due[1..], now, max, done.io);
          var rest := Deliver(done.node, due[1..], now, max, done.io);
          TracksChain(node, done.node, rest.node, rest.status == Crashed);
        }
      }
    }
  }

  /** A step that leaves files and gauges alone. */
  lemma NothingMoved(a: Node, b: Node, crashed: bool)
    requires b.pending == a.pending && b.dead == a.dead
    requires b.counters.outboxPending == a.counters.outboxPending && b.counters.deadLettered == a.counters.deadLettered
    ensures Tracks(a, b, crashed)
  {
  }

  lemma {:induction false} ScanTracks(node: Node, records: seq<OutboxRecord>, due: seq<OutboxRecord>,
                                      now: i64, max: u32, io: seq<Fate>)
    requires OnDisk(records, node.pending)
    ensures
      var scan := ScanRecords(node, records, due, now, max, io);
      Tracks(node, scan.res.node, scan.res.status == Crashed)
    decreases |records|
  {
    hide MoveToDeadLetter, Tracks;
    NothingMoved(node, node, false);
    if records != [] {
      var r := records[0];
      RestStaysOnDisk(records, node.pending);
      if r.attempts >= max {
        MoveEffect(node, r.messageId, io);
        MoveTracks(node, r.messageId, io);
        var moved := MoveToDeadLetter(node, r.messageId, io);
        OtherCounters(node, moved.node, PersistFailure(moved.node), moved.status == Crashed);
        if moved.status == Completed {
          ScanTracks(moved.node, records[1..], due, now, max, moved.io);
          var rest := ScanRecords(moved.node, records[1..], due, now, max, moved.io);
          TracksChain(node, moved.node, rest.res.node, rest.res.status == Crashed);
        }
      } else if r.nextAttemptAtMs <= now {
        ScanTracks(node, records[1..], due + [r], now, max, io);
      } else {
        ScanTracks(node, records[1..], due, now, max, io);
      }
    }
  }

  lemma DrainTracks(node: Node, now: i64, max: u32, connected: bool, io: seq<Fate>)
    requires Named(node)
    ensures
      var res := DrainLocked(node, now, max, connected, io);
      Tracks(node, res.node, res.status == Crashed)
  {
    hide Tracks, ScanRecords, Deliver, Listing, Keeps;
    var records := Listing(node.pending);
    ListingIsOnDisk(records, node.pending);
    NothingMoved(node, node, Next(io).Crashes?);
    OtherCounters(node, node, PersistFailure(node), Next(io).Crashes?);
    assert [] + records == records;
    var scan := ScanRecords(node, records, [], now, max, Rest(io));
    ScanTracks(node, records, [], now, max, Rest(io));
    ScanKeeps(node, records, [], now, max, Rest(io));
    var deferred := scan.res.node.(counters := scan.res.node.counters.(
      outboxDeferred := WrappingInc(scan.res.node.counters.outboxDeferred)));
    OtherCounters(node, scan.res.node, deferred, scan.res.status == Crashed);
    if scan.res.status == Completed {
      DeliverTracks(scan.res.node, scan.due, now, max, scan.res.io);
      var delivered := Deliver(scan.res.node, scan.due, now, max, scan.res.io);
      TracksChain(node, scan.res.node, delivered.node, delivered.status == Crashed);
    }
  }

  lemma PublishTracks(node: Node, r: OutboxRecord, now: i64, max: u32, connected: bool, io: seq<Fate>)
    requires Named(node)
    ensures
      var res := PublishEvent(node, r, now, max, connected, io).0;
      && (res.status != Crashed && PendingAgrees(node) ==> PendingAgrees(res.node))
      && (r.messageId !in node.dead ==> Tracks(node, res.node, res.status == Crashed))
  {
    hide PersistRecord, DrainLocked, Keeps;
    var p := PersistRecord(node, r, io).res;
    PersistEffect(node, r, io);
    PersistIsNamed(node, r, p.node);
    SizeWith(node.pending, r.messageId, r);
    GaugeSteps(|node.pending|);
    DrainTracks(p.node, now, max, connected, p.io);
  }

  lemma StartAgrees(node: Node, now: i64, max: u32, connected: bool, io: seq<Fate>)
    requires Named(node)
    ensures
      var (res, started) := Start(node, now, max, connected, io);
      && (Disjoint(node) ==> Disjoint(res.node))
      && (started && res.status != Crashed ==>
            PendingAgrees(res.node) && (Disjoint(node) ==> DeadAgrees(res.node)))
  {
    hide DrainLocked;
    var ready := WithGauges(node);
    DrainTracks(ready, now, max, connected, Rest(Rest(Rest(io))));
  }

  // ----- whole runs -----

  /** No publish of the run uses an id that is already quarantined. */
  ghost predicate FreshIds(ops: seq<Op>, max: u32) {
    ops == [] ||
    (var before := Run(ops[..|ops| - 1], max);
     var op := ops[|ops| - 1];
     FreshIds(ops[..|ops| - 1], max) && (op.Publish? && before.up ==> op.envelope.messageId !in before.node.dead))
  }

  /** Whenever a process is running with the gate free, its outbox gauge is the number of
      waiting files; and, if quarantined ids are not reused, its dead-letter gauge the
      number of quarantined ones: across I/O failures, crashes and restarts. */
  lemma {:induction false} GaugesCountTheFiles(ops: seq<Op>, max: u32)
    ensures
      var w := Run(ops, max);
      && (w.up ==> PendingAgrees(w.node))
      && (FreshIds(ops, max) ==> Disjoint(w.node) && (w.up ==> DeadAgrees(w.node)))
  {
    if ops != [] {
      var before := Run(ops[..|ops| - 1], max);
      GaugesCountTheFiles(ops[..|ops| - 1], max);
      hide PublishEvent, DrainLocked, Start, PendingAgrees, DeadAgrees, Disjoint;
      match ops[|ops| - 1] {
        case Publish(c, now, connected, io) =>
          PublishTracks(before.node, NewRecord(c), now, max, connected, io);
        case Tick(now, connected, io) =>
          DrainTracks(before.node, now, max, connected, io);
        case Boot(now, connected, io) =>
          StartAgrees(Rebooted(before.node), now, max, connected, io);
      }
    }
  }
}
