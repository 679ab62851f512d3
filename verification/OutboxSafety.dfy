/** Persisted events are not lost: over every run of publishes, ticks and restarts, with
    failures and crashes anywhere, whatever happens to other events. */
module OutboxSafety {
  import opened Prelude
  import opened Outbox
  import opened OutboxEffects

  /** Where a persisted event may be: waiting, quarantined, or acknowledged, each time
      with its subject, deduplication id and payload as they were persisted. */
  ghost predicate Accounted(node: Node, c: Core) {
    || (c.messageId in node.pending && CoreOf(node.pending[c.messageId]) == c)
    || (c.messageId in node.dead && CoreOf(node.dead[c.messageId]) == c)
    || c in node.acknowledged
  }

  ghost predicate Named(node: Node) {
    WellNamed(node.pending) && WellNamed(node.dead)
  }

  /** The event's id is quarantined with other contents and the broker never acknowledged
      it: a quarantine could only drop its file. */
  ghost predicate Endangered(node: Node, c: Core) {
    c.messageId in node.dead && CoreOf(node.dead[c.messageId]) != c && c !in node.acknowledged
  }

  ghost predicate Secured(node: Node, c: Core) {
    Accounted(node, c) && !Endangered(node, c)
  }

  /** What every transition keeps. */
  ghost predicate Keeps(before: Node, after: Node) {
    Named(after) && forall c :: Secured(before, c) ==> Secured(after, c)
  }

  lemma CountersDoNotMatter(a: Node, b: Node)
    requires Named(a) && b == a.(counters := b.counters)
    ensures Keeps(a, b)
  {
  }

  lemma RemovedKeeps(node: Node, id: Uuid)
    requires Named(node) && id in node.pending && CoreOf(node.pending[id]) in node.acknowledged
    ensures Keeps(node, Removed(node, id))
  {
  }

  lemma QuarantinedKeeps(node: Node, id: Uuid)
    requires Named(node)
    ensures Keeps(node, Quarantined(node, id))
  {
  }

  lemma RewrittenKeeps(node: Node, r: OutboxRecord)
    requires Named(node)
    requires r.messageId in node.pending ==> CoreOf(node.pending[r.messageId]) == CoreOf(r)
    ensures Keeps(node, Rewritten(node, r))
  {
  }

  lemma PublishedKeeps(node: Node, r: OutboxRecord, stored: bool, acknowledged: bool)
    requires Named(node)
    ensures Keeps(node, Published(node, r, stored, acknowledged))
  {
  }

  lemma KeepsChain(a: Node, b: Node, c: Node)
    requires Keeps(a, b) && Keeps(b, c)
    ensures Keeps(a, c)
  {
  }

  // ----- the drain -----

  lemma FinalizeKeeps(node: Node, r: OutboxRecord, acknowledged: bool, now: i64, max: u32, io: seq<Fate>)
    requires Named(node) && r.messageId in node.pending && node.pending[r.messageId] == r
    requires acknowledged ==> CoreOf(r) in node.acknowledged
    ensures Keeps(node, FinalizeDelivery(node, r, acknowledged, now, max, io).node)
  {
    hide FinalizeDelivery, Keeps;
    if acknowledged {
      AcknowledgedEffect(node, r, now, max, io);
      var removed := Removed(node, r.messageId);
      RemovedKeeps(node, r.messageId);
      Reflexive(node);
      Counted(node, removed, CountDelivery(removed));
    } else {
      UnacknowledgedEffect(node, r, now, max, io);
      var written := Rewritten(node, Retried(r, now));
      var moved := Quarantined(written, r.messageId);
      Reflexive(node);
      RewrittenKeeps(node, Retried(r, now));
      NamedAfter(node, written);
      QuarantinedKeeps(written, r.messageId);
      KeepsChain(node, written, moved);
      Counted(node, moved, CountQuarantine(moved));
    }
  }

  lemma Reflexive(node: Node)
    requires Named(node)
    ensures Keeps(node, node)
  {
  }

  lemma NamedAfter(a: Node, b: Node)
    requires Keeps(a, b)
    ensures Named(b)
  {
  }

  lemma Counted(a: Node, b: Node, c: Node)
    requires Keeps(a, b) && c == b.(counters := c.counters)
    ensures Keeps(a, c)
  {
    CountersDoNotMatter(b, c);
    KeepsChain(a, b, c);
  }

  lemma {:induction false} DeliverKeeps(node: Node, due: seq<OutboxRecord>, now: i64, max: u32, io: seq<Fate>)
    requires Named(node) && OnDisk(due, node.pending)
    ensures Keeps(node, Deliver(node, due, now, max, io).node)
    decreases |due|
  {
    hide Keeps, FinalizeDelivery;
    Reflexive(node);
    if due != [] {
      var r := due[0];
      var stored := match Next(io) case Works => true case Fails(s) => s case Crashes(s) => s;
      var acked := Next(io).Works?;
      var asked := Published(node, r, stored, acked);
      PublishedKeeps(node, r, stored, acked);
      NamedAfter(node, asked);
      if !Next(io).Crashes? {
        FinalizeKeeps(asked, r, acked, now, max, Rest(io));
        var done := FinalizeDelivery(asked, r, acked, now, max, Rest(io));
        KeepsChain(node, asked, done.node);
        NamedAfter(node, done.node);
        Counted(node, done.node, PersistFailure(done.node));
        Counted(node, done.node, PublishFailure(done.node));
        if acked && done.status == Completed {
          AcknowledgedEffect(asked, r, now, max, Rest(io));
          RestStaysOnDisk(due, node.pending);
          DeliverKeeps(done.node, due[1..], now, max, done.io);
          KeepsChain(node, done.node, Deliver(done.node, due[1..], now, max, done.io).node);
        }
      }
    }
  }

  /** The scan keeps everything, and what it found due is still on disk when it ends. */
  lemma {:induction false} ScanKeeps(node: Node, records: seq<OutboxRecord>, due: seq<OutboxRecord>,
                                     now: i64, max: u32, io: seq<Fate>)
    requires Named(node) && OnDisk(due + records, node.pending)
    ensures
      var scan := ScanRecords(node, records, due, now, max, io);
      && Keeps(node, scan.res.node)
      && (scan.res.status == Completed ==> OnDisk(scan.due, scan.res.node.pending))
    decreases |records|
  {
    hide Keeps, MoveToDeadLetter;
    Reflexive(node);
    if records == [] {
      assert due + records == due;
    } else {
      var r := records[0];
      assert (due + records)[|due|] == r;
      if r.attempts >= max {
        MoveEffect(node, r.messageId, io);
        var moved := MoveToDeadLetter(node, r.messageId, io);
        var after := Quarantined(node, r.messageId);
        QuarantinedKeeps(node, r.messageId);
        Counted(node, after, CountQuarantine(after));
        Counted(node, node, PersistFailure(node));
        if moved.status == Completed {
          NamedAfter(node, moved.node);
          DropFromDisk(due, records, node.pending);
          ScanKeeps(moved.node, records[1..], due, now, max, moved.io);
          KeepsChain(node, moved.node, ScanRecords(moved.node, records[1..], due, now, max, moved.io).res.node);
        }
      } else if r.nextAttemptAtMs <= now {
        assert due + records == due + [r] + records[1..];
        ScanKeeps(node, records[1..], due + [r], now, max, io);
      } else {
        DropFromDisk(due, records, node.pending);
        ScanKeeps(node, records[1..], due, now, max, io);
      }
    }
  }

  lemma DropFromDisk(due: seq<OutboxRecord>, records: seq<OutboxRecord>, pending: map<Uuid, OutboxRecord>)
    requires records != [] && OnDisk(due + records, pending)
    ensures OnDisk(due + records[1..], pending - {records[0].messageId})
    ensures OnDisk(due + records[1..], pending)
  {
    var all, less := due + records, due + records[1..];
    forall i | 0 <= i < |less| ensures less[i] == all[if i < |due| then i else i + 1] {
    }
    assert all[|due|] == records[0];
  }

  lemma DrainKeeps(node: Node, now: i64, max: u32, connected: bool, io: seq<Fate>)
    requires Named(node)
    ensures Keeps(node, DrainLocked(node, now, max, connected, io).node)
  {
    hide Keeps, ScanRecords, Deliver;
    var records := Listing(node.pending);
    ListingIsOnDisk(records, node.pending);
    assert [] + records == records;
    Reflexive(node);
    Counted(node, node, PersistFailure(node));
    var scan := ScanRecords(node, records, [], now, max, Rest(io));
    ScanKeeps(node, records, [], now, max, Rest(io));
    NamedAfter(node, scan.res.node);
    Counted(node, scan.res.node, scan.res.node.(counters := scan.res.node.counters.(
              outboxDeferred := WrappingInc(scan.res.node.counters.outboxDeferred))));
    if scan.res.status == Completed {
      DeliverKeeps(scan.res.node, scan.due, now, max, scan.res.io);
      KeepsChain(node, scan.res.node, Deliver(scan.res.node, scan.due, now, max, scan.res.io).node);
    }
  }

  // ----- requests and restarts -----

  /** A publish keeps everything and, if it reports success in persisting, has secured the
      new event, unless that was endangered by an earlier quarantine of its id. */
  lemma PublishKeeps(node: Node, c: Core, now: i64, max: u32, connected: bool, io: seq<Fate>)
    requires Named(node)
    ensures
      var (res, persisted) := PublishEvent(node, NewRecord(c), now, max, connected, io);
      && Keeps(node, res.node)
      && (persisted && !Endangered(node, c) ==> Secured(res.node, c))
  {
    hide Keeps, PersistRecord, DrainLocked, Accounted, Endangered;
    var r := NewRecord(c);
    var p := PersistRecord(node, r, io);
    PersistEffect(node, r, io);
    Reflexive(node);
    if r.messageId !in node.pending {
      RewrittenKeeps(node, r);
      if p.res.status == Completed {
        Counted(node, Rewritten(node, r), p.res.node);
      }
    }
    NamedAfter(node, p.res.node);
    Counted(node, p.res.node, PersistFailure(p.res.node));
    DrainKeeps(p.res.node, now, max, connected, p.res.io);
    var drained := DrainLocked(p.res.node, now, max, connected, p.res.io);
    KeepsChain(node, p.res.node, drained.node);
    if p.res.status == Completed && !Endangered(node, c) {
      NowSecured(node, p.res.node, r, c);
      SecuredAfter(p.res.node, drained.node, c);
    }
  }

  lemma NowSecured(before: Node, node: Node, r: OutboxRecord, c: Core)
    requires r == NewRecord(c) && r.messageId in node.pending && node.pending[r.messageId] == r
    requires node.dead == before.dead && node.acknowledged == before.acknowledged && !Endangered(before, c)
    ensures Secured(node, c)
  {
  }

  lemma SecuredAfter(a: Node, b: Node, c: Core)
    requires Keeps(a, b) && Secured(a, c)
    ensures Secured(b, c)
  {
  }

  lemma PersistIsNamed(node: Node, r: OutboxRecord, after: Node)
    requires Named(node)
    requires after == node.(counters := after.counters) || after == Rewritten(node, r).(counters := after.counters)
    ensures Named(after)
  {
  }

  lemma StartKeeps(node: Node, now: i64, max: u32, connected: bool, io: seq<Fate>)
    requires Named(node)
    ensures Keeps(node, Start(node, now, max, connected, io).0.node)
  {
    hide Keeps, DrainLocked;
    var ready := WithGauges(node);
    Reflexive(node);
    Counted(node, node, ready);
    NamedAfter(node, ready);
    var rest := Rest(Rest(Rest(io)));
    DrainKeeps(ready, now, max, connected, rest);
    KeepsChain(node, ready, DrainLocked(ready, now, max, connected, rest).node);
  }

  lemma StepKeeps(w: World, op: Op, max: u32)
    requires Named(w.node)
    ensures Keeps(w.node, Step(w, op, max).node) && Named(Step(w, op, max).node)
    ensures forall c :: c in PersistedBy(w, op, max) && !Endangered(w.node, c) ==> Secured(Step(w, op, max).node, c)
  {
    hide Keeps, DrainLocked, PublishEvent, Start, Accounted, Endangered;
    Reflexive(w.node);
    match op {
      case Publish(c, now, connected, io) =>
        PublishKeeps(w.node, c, now, max, connected, io);
        NamedAfter(w.node, PublishEvent(w.node, NewRecord(c), now, max, connected, io).0.node);
      case Tick(now, connected, io) =>
        DrainKeeps(w.node, now, max, connected, io);
        NamedAfter(w.node, DrainLocked(w.node, now, max, connected, io).node);
      case Boot(now, connected, io) =>
        var blank := Rebooted(w.node);
        Counted(w.node, w.node, blank);
        NamedAfter(w.node, blank);
        StartKeeps(blank, now, max, connected, io);
        KeepsChain(w.node, blank, Start(blank, now, max, connected, io).0.node);
        NamedAfter(w.node, Start(blank, now, max, connected, io).0.node);
    }
  }

  // ----- whole runs -----

  /** The world after a run that begins with empty directories and no process. */
  ghost function Run(ops: seq<Op>, max: u32): (w: World)
    ensures Named(w.node)
  {
    if ops == [] then NOTHING_YET
    else
      var before := Run(ops[..|ops| - 1], max);
      StepKeeps(before, ops[|ops| - 1], max);
      Step(before, ops[|ops| - 1], max)
  }

  /** What is secured once stays secured, whatever else happens. */
  lemma {:induction false} SecuredForGood(ops: seq<Op>, max: u32, n: nat, c: Core)
    requires n <= |ops| && Secured(Run(ops[..n], max).node, c)
    ensures Secured(Run(ops, max).node, c)
  {
    hide Step, Secured;
    if n == |ops| {
      assert ops[..n] == ops;
    } else {
      var front := ops[..|ops| - 1];
      assert front[..n] == ops[..n];
      SecuredForGood(front, max, n, c);
      StepKeeps(Run(front, max), ops[|ops| - 1], max);
      SecuredAfter(Run(front, max).node, Run(ops, max).node, c);
    }
  }

  lemma RunStep(ops: seq<Op>, max: u32, n: nat)
    requires n < |ops|
    ensures Run(ops[..n + 1], max) == Step(Run(ops[..n], max), ops[n], max)
  {
    assert ops[..n + 1][..n] == ops[..n];
  }

  /** An event whose publish reported it persisted, while its id was not quarantined with
      other contents, is pending, dead-lettered or acknowledged in every world the run
      reaches from there, contents unchanged: whatever failed or crashed, however often
      the process was restarted, and whatever ids other publishes used. */
  lemma NothingPersistedIsLost(ops: seq<Op>, max: u32, n: nat, c: Core)
    requires n < |ops| && c in PersistedBy(Run(ops[..n], max), ops[n], max)
    requires !Endangered(Run(ops[..n], max).node, c)
    ensures Accounted(Run(ops, max).node, c)
  {
    hide Step, PersistedBy, Run;
    RunStep(ops, max, n);
    StepKeeps(Run(ops[..n], max), ops[n], max);
    SecuredForGood(ops, max, n + 1, c);
  }
}
