/** Exactly when an event can be lost and the dead-letter gauge can go wrong: the runs
    that make it happen, built call by call, and the proof that nothing else does. */
module OutboxLoss {
  import opened Prelude
  import opened Outbox
  import opened OutboxEffects
  import opened OutboxSafety
  import opened OutboxOrder
  import opened OutboxGauges
  import opened OutboxTermination

  const LATEST: i64 := 0x7FFF_FFFF_FFFF_FFFF

  // ----- one record under an unlucky broker -----

  /** The quarantine of `id` and everything the broker acknowledged under that id. */
  ghost predicate SameDeath(before: Node, after: Node, id: Uuid) {
    && (id in before.dead ==> id in after.dead && after.dead[id] == before.dead[id])
    && (forall c :: c in after.acknowledged && c.messageId == id ==> c in before.acknowledged)
  }

  /** The record has not moved. */
  ghost predicate Unmoved(before: Node, after: Node, id: Uuid) {
    && SameDeath(before, after, id)
    && (id in before.pending <==> id in after.pending)
    && (id in before.pending ==> after.pending[id] == before.pending[id])
    && (id in after.dead ==> id in before.dead)
  }

  /** The record has gained an attempt, or has left for the quarantine. */
  ghost predicate Closer(before: Node, after: Node, id: Uuid) {
    && SameDeath(before, after, id)
    && id in before.pending
    && if id in after.pending then
         && CoreOf(after.pending[id]) == CoreOf(before.pending[id])
         && after.pending[id].attempts == before.pending[id].attempts + 1
         && (id in after.dead ==> id in before.dead)
       else
         && id in after.dead
         && (id !in before.dead ==> CoreOf(after.dead[id]) == CoreOf(before.pending[id]))
  }

  /** `id` alone may be both waiting and quarantined; once it has left, the gauge counts
      one quarantine more than there are files. */
  ghost predicate Watched(node: Node, id: Uuid) {
    && id in node.dead
    && (forall x :: x in node.pending && x in node.dead ==> x == id)
    && node.counters.deadLettered == Gauge(|node.dead| + if id in node.pending then 0 else 1)
  }

  lemma UnmovedChain(a: Node, b: Node, c: Node, id: Uuid)
    requires Unmoved(a, b, id)
    ensures Unmoved(b, c, id) ==> Unmoved(a, c, id)
    ensures Closer(b, c, id) ==> Closer(a, c, id)
  {
  }

  lemma CloserThenUnmoved(a: Node, b: Node, c: Node, id: Uuid)
    requires Closer(a, b, id) && Unmoved(b, c, id)
    ensures Closer(a, c, id)
  {
  }

  // ----- quarantines that work -----

  lemma MoveWorks(node: Node, id: Uuid, tail: seq<Fate>)
    requires id in node.pending
    ensures MoveToDeadLetter(node, id, [Works, Works] + tail)
         == Res(CountQuarantine(Quarantined(node, id)), tail, Completed)
  {
    assert ([Works, Works] + tail)[1..] == [Works] + tail;
    assert ([Works] + tail)[1..] == tail;
  }

  lemma QuarantineOf(node: Node, x: Uuid, id: Uuid)
    requires x in node.pending
    ensures x == id ==> Closer(node, CountQuarantine(Quarantined(node, x)), id)
    ensures x != id ==> Unmoved(node, CountQuarantine(Quarantined(node, x)), id)
    ensures Watched(node, id) ==> Watched(CountQuarantine(Quarantined(node, x)), id)
  {
    hide Watched, Closer, Unmoved;
    if x == id {
      QuarantineOfItself(node, id);
    } else {
      QuarantineOfAnother(node, x, id);
    }
  }

  lemma QuarantineOfItself(node: Node, id: Uuid)
    requires id in node.pending
    ensures Closer(node, CountQuarantine(Quarantined(node, id)), id)
    ensures Watched(node, id) ==> Watched(CountQuarantine(Quarantined(node, id)), id)
  {
    GaugeSteps(|node.dead|);
  }

  lemma QuarantineOfAnother(node: Node, x: Uuid, id: Uuid)
    requires x in node.pending && x != id
    ensures Unmoved(node, CountQuarantine(Quarantined(node, x)), id)
    ensures Watched(node, id) ==> Watched(CountQuarantine(Quarantined(node, x)), id)
  {
    if Watched(node, id) {
      StillWatched(node, x, id);
    }
  }

  lemma StillWatched(node: Node, x: Uuid, id: Uuid)
    requires x in node.pending && x != id && Watched(node, id)
    ensures Watched(CountQuarantine(Quarantined(node, x)), id)
  {
    assert x !in node.dead;
    SizeWith(node.dead, x, node.pending[x]);
    GaugeSteps(|node.dead|);
  }

  /** Fates under which a scan quarantines whatever is at the limit. */
  function Quarantines(records: seq<OutboxRecord>, max: u32, tail: seq<Fate>): seq<Fate> {
    if records == [] then tail
    else if records[0].attempts >= max then [Works, Works] + Quarantines(records[1..], max, tail)
    else Quarantines(records[1..], max, tail)
  }

  lemma {:induction false} ScanWorks(node: Node, records: seq<OutboxRecord>, due: seq<OutboxRecord>, max: u32,
                                     tail: seq<Fate>, id: Uuid)
    requires OnDisk(records, node.pending)
    ensures
      var scan := ScanRecords(node, records, due, LATEST, max, Quarantines(records, max, tail));
      && scan.res.status == Completed && scan.res.io == tail
      && (if exists i :: 0 <= i < |records| && records[i].messageId == id && records[i].attempts >= max
          then Closer(node, scan.res.node, id) && id !in scan.res.node.pending
          else Unmoved(node, scan.res.node, id))
      && (Watched(node, id) ==> Watched(scan.res.node, id))
    decreases |records|
  {
    hide MoveToDeadLetter, Closer, Unmoved, Watched;
    NothingMovesNothing(node, id);
    if records != [] {
      var r := records[0];
      RestStaysOnDisk(records, node.pending);
      assert forall i :: 0 < i < |records| ==> records[i] == records[1..][i - 1];
      if r.attempts >= max {
        var rest := Quarantines(records[1..], max, tail);
        MoveWorks(node, r.messageId, rest);
        QuarantineOf(node, r.messageId, id);
        var moved := CountQuarantine(Quarantined(node, r.messageId));
        ScanWorks(moved, records[1..], due, max, tail, id);
        var after := ScanRecords(moved, records[1..], due, LATEST, max, rest).res.node;
        if r.messageId == id {
          CloserThenUnmoved(node, moved, after, id);
          LeftStaysAway(moved, after, id);
        } else {
          UnmovedChain(node, moved, after, id);
        }
      } else if r.nextAttemptAtMs <= LATEST {
        ScanWorks(node, records[1..], due + [r], max, tail, id);
      }
    }
  }

  lemma NothingMovesNothing(node: Node, id: Uuid)
    ensures Unmoved(node, node, id)
  {
  }

  lemma LeftStaysAway(a: Node, b: Node, id: Uuid)
    requires Unmoved(a, b, id) && id !in a.pending
    ensures id !in b.pending
  {
  }

  // ----- deliveries that work for all but one -----

  /** Fates under which everything before `id` is acknowledged, and `id` is not. */
  function UntilRefused(due: seq<OutboxRecord>, id: Uuid): seq<Fate> {
    if due == [] then []
    else if due[0].messageId == id then [Fails(false), Works, Works, Works, Works]
    else [Works, Works] + UntilRefused(due[1..], id)
  }

  lemma AcknowledgedWorks(node: Node, r: OutboxRecord, now: i64, max: u32, tail: seq<Fate>)
    requires r.messageId in node.pending
    ensures FinalizeDelivery(node, r, true, now, max, [Works] + tail)
         == Res(CountDelivery(Removed(node, r.messageId)), tail, Completed)
  {
    assert ([Works] + tail)[1..] == tail;
  }

  lemma RefusedWorks(node: Node, r: OutboxRecord, now: i64, max: u32)
    requires r.messageId in node.pending
    ensures
      var d := FinalizeDelivery(node, r, false, now, max, [Works, Works, Works, Works]);
      var written := Rewritten(node, Retried(r, now));
      && d.status == Completed
      && d.node == (if Retried(r, now).attempts < max then written
                    else CountQuarantine(Quarantined(written, r.messageId)))
  {
    hide MoveToDeadLetter;
    var four := [Works, Works, Works, Works];
    assert four[1..] == [Works, Works, Works] && four[1..][1..] == [Works, Works];
    assert [Works, Works] + [] == [Works, Works];
    MoveWorks(Rewritten(node, Retried(r, now)), r.messageId, []);
  }

  lemma AcknowledgedOther(node: Node, r: OutboxRecord, id: Uuid)
    requires r.messageId in node.pending && r.messageId != id
    ensures
      var after := CountDelivery(Removed(Published(node, r, true, true), r.messageId));
      Unmoved(node, after, id) && (Watched(node, id) ==> Watched(after, id))
  {
  }

  lemma RefusedOnce(node: Node, r: OutboxRecord, now: i64, max: u32)
    requires r.messageId in node.pending && node.pending[r.messageId] == r && r.attempts < max
    ensures
      var asked := Published(node, r, false, false);
      var after := PublishFailure(FinalizeDelivery(asked, r, false, now, max, [Works, Works, Works, Works]).node);
      && FinalizeDelivery(asked, r, false, now, max, [Works, Works, Works, Works]).status == Completed
      && Closer(node, after, r.messageId)
      && (Watched(node, r.messageId) ==> Watched(after, r.messageId))
  {
    hide FinalizeDelivery, Watched;
    var asked := Published(node, r, false, false);
    var written := Rewritten(asked, Retried(r, now));
    RefusedWorks(asked, r, now, max);
    WatchedThroughRetry(node, r, now);
    QuarantineOf(written, r.messageId, r.messageId);
    var after := FinalizeDelivery(asked, r, false, now, max, [Works, Works, Works, Works]).node;
    WatchedDespiteFailure(after, r.messageId);
  }

  lemma WatchedThroughRetry(node: Node, r: OutboxRecord, now: i64)
    requires r.messageId in node.pending
    ensures Watched(node, r.messageId)
            ==> Watched(Rewritten(Published(node, r, false, false), Retried(r, now)), r.messageId)
  {
  }

  lemma WatchedDespiteFailure(node: Node, id: Uuid)
    ensures Watched(node, id) ==> Watched(PublishFailure(node), id)
  {
  }

  lemma {:induction false} DeliverUntilRefused(node: Node, due: seq<OutboxRecord>, max: u32, id: Uuid)
    requires OnDisk(due, node.pending) && forall i :: 0 <= i < |due| ==> due[i].attempts < max
    ensures
      var res := Deliver(node, due, LATEST, max, UntilRefused(due, id));
      && res.status == Completed
      && (if exists i :: 0 <= i < |due| && due[i].messageId == id then Closer(node, res.node, id)
          else Unmoved(node, res.node, id))
      && (Watched(node, id) ==> Watched(res.node, id))
    decreases |due|
  {
    hide FinalizeDelivery, Closer, Unmoved, Watched;
    NothingMovesNothing(node, id);
    if due != [] {
      var r, io := due[0], UntilRefused(due, id);
      RestStaysOnDisk(due, node.pending);
      assert forall i :: 0 < i < |due| ==> due[i] == due[1..][i - 1];
      if r.messageId == id {
        assert io[1..] == [Works, Works, Works, Works];
        RefusedOnce(node, r, LATEST, max);
      } else {
        var rest := UntilRefused(due[1..], id);
        assert io[0] == Works && io[1..] == [Works] + rest;
        AcknowledgedWorks(Published(node, r, true, true), r, LATEST, max, rest);
        AcknowledgedOther(node, r, id);
        var done := CountDelivery(Removed(Published(node, r, true, true), r.messageId));
        DeliverUntilRefused(done, due[1..], max, id);
        UnmovedChain(node, done, Deliver(done, due[1..], LATEST, max, rest).node, id);
      }
    }
  }

  // ----- whole drains -----

  /** A drain that brings one record closer to its end, whatever else is waiting. */
  ghost function RefusingFates(node: Node, max: u32, id: Uuid): seq<Fate>
    requires WellNamed(node.pending)
  {
    var records := Listing(node.pending);
    [Works] + Quarantines(records, max, UntilRefused(DueOf(records, LATEST, max), id))
  }

  lemma RefusingDrain(node: Node, max: u32, id: Uuid)
    requires Named(node) && id in node.pending
    ensures
      var res := DrainLocked(node, LATEST, max, true, RefusingFates(node, max, id));
      && res.status == Completed && Closer(node, res.node, id)
      && (node.pending[id].attempts >= max ==> id !in res.node.pending)
      && (Watched(node, id) ==> Watched(res.node, id))
  {
    hide ScanRecords, Deliver, Listing, DueOf, Closer, Unmoved, Watched, Quarantines, UntilRefused;
    var records := Listing(node.pending);
    var due := DueOf(records, LATEST, max);
    var tail := UntilRefused(due, id);
    var io := Quarantines(records, max, tail);
    assert RefusingFates(node, max, id)[1..] == io;
    ListingIsOnDisk(records, node.pending);
    ListedExactly(records, node.pending);
    ScanWorks(node, records, [], max, tail, id);
    ScanCollectsTheDue(node, records, [], LATEST, max, io);
    DueIsSortedAndExact(records, LATEST, max);
    var scan := ScanRecords(node, records, [], LATEST, max, io);
    assert scan.due == due;
    DueStaysOnDisk(node, scan.res.node, due, max);
    forall i | 0 <= i < |due| ensures due[i].attempts < max {
      assert due[i] in due;
    }
    DeliverUntilRefused(scan.res.node, due, max, id);
    assert node.pending[id] in records;
    if node.pending[id].attempts >= max {
      NotDue(due, max, id, node);
      CloserThenUnmoved(node, scan.res.node, Deliver(scan.res.node, due, LATEST, max, tail).node, id);
      LeftStaysAway(scan.res.node, Deliver(scan.res.node, due, LATEST, max, tail).node, id);
    } else {
      assert node.pending[id] in due;
      NotExhausted(records, max, id, node);
      UnmovedChain(node, scan.res.node, Deliver(scan.res.node, due, LATEST, max, tail).node, id);
    }
  }

  lemma NotDue(due: seq<OutboxRecord>, max: u32, id: Uuid, node: Node)
    requires id in node.pending && node.pending[id].attempts >= max
    requires forall r :: r in due ==> r.attempts < max && r.messageId in node.pending && node.pending[r.messageId] == r
    ensures !exists i :: 0 <= i < |due| && due[i].messageId == id
  {
    forall i | 0 <= i < |due| ensures due[i].messageId != id {
      assert due[i] in due;
    }
  }

  lemma NotExhausted(records: seq<OutboxRecord>, max: u32, id: Uuid, node: Node)
    requires id in node.pending && node.pending[id].attempts < max
    requires forall r :: r in records ==> r.messageId in node.pending && node.pending[r.messageId] == r
    ensures !exists i :: 0 <= i < |records| && records[i].messageId == id && records[i].attempts >= max
  {
    forall i | 0 <= i < |records| && records[i].messageId == id ensures records[i].attempts < max {
      assert records[i] in records;
    }
  }

  // ----- whole runs -----

  predicate OnlyTicks(ops: seq<Op>) {
    forall i :: 0 <= i < |ops| ==> ops[i].Tick?
  }

  /** The record has left for the quarantine, without an acknowledgement. */
  ghost predicate Left(before: Node, after: Node, id: Uuid) {
    && SameDeath(before, after, id)
    && id in before.pending && id !in after.pending && id in after.dead
    && (id !in before.dead ==> CoreOf(after.dead[id]) == CoreOf(before.pending[id]))
  }

  lemma CloserThenLeft(a: Node, b: Node, c: Node, id: Uuid)
    requires Closer(a, b, id)
    ensures id !in b.pending ==> Left(a, b, id)
    ensures id in b.pending && Left(b, c, id) ==> Left(a, c, id)
  {
  }

  lemma OneMoreOp(ops: seq<Op>, op: Op, max: u32)
    ensures Run(ops + [op], max) == Step(Run(ops, max), op, max)
  {
    assert (ops + [op])[..|ops|] == ops;
  }

  /** Background drains alone can bring any waiting record to quarantine, from any world. */
  lemma {:induction false} EveryRecordCanBeRefused(ops: seq<Op>, max: u32, id: Uuid) returns (more: seq<Op>)
    requires Run(ops, max).up && id in Run(ops, max).node.pending
    ensures OnlyTicks(more) && Run(ops + more, max).up
    ensures Left(Run(ops, max).node, Run(ops + more, max).node, id)
    ensures Watched(Run(ops, max).node, id) ==> Watched(Run(ops + more, max).node, id)
    decreases Budget(Run(ops, max).node.pending[id], max)
  {
    hide Run, Step, DrainLocked, Watched, Closer, Left, RefusingFates;
    var node := Run(ops, max).node;
    var tick := Tick(LATEST, true, RefusingFates(node, max, id));
    OneMoreOp(ops, tick, max);
    RefusingDrain(node, max, id);
    var after := DrainLocked(node, LATEST, max, true, tick.io).node;
    assert Run(ops + [tick], max) == World(after, true) by { TickStep(Run(ops, max), tick, max); }
    CloserCosts(node, after, id, max);
    if id !in after.pending {
      CloserThenLeft(node, after, after, id);
      more := [tick];
    } else {
      var rest := EveryRecordCanBeRefused(ops + [tick], max, id);
      more := [tick] + rest;
      assert ops + more == ops + [tick] + rest;
      CloserThenLeft(node, after, Run(ops + more, max).node, id);
    }
  }

  lemma TickStep(w: World, op: Op, max: u32)
    requires w.up && op.Tick? && Named(w.node)
    ensures
      var res := DrainLocked(w.node, op.now, max, op.connected, op.io);
      Step(w, op, max) == World(res.node, res.status != Crashed)
  {
  }

  lemma CloserCosts(a: Node, b: Node, id: Uuid, max: u32)
    requires Closer(a, b, id) && (a.pending[id].attempts >= max ==> id !in b.pending)
    ensures id in b.pending ==> Budget(b.pending[id], max) < Budget(a.pending[id], max)
  {
  }

  /** A publish that persists its event and gets no further. */
  function MerePersist(node: Node, c: Core): Op {
    Publish(c, 0, false, if c.messageId in node.pending then [Works, Works, Fails(false)]
                         else [Works, Works, Works, Works, Fails(false)])
  }

  lemma MerelyPersisted(w: World, c: Core, max: u32)
    requires w.up && Named(w.node)
    requires c.messageId in w.node.pending ==> w.node.pending[c.messageId] == NewRecord(c)
    ensures
      var op := MerePersist(w.node, c);
      var next := Step(w, op, max);
      && c in PersistedBy(w, op, max)
      && next.up
      && next.node.pending == w.node.pending[c.messageId := NewRecord(c)]
      && next.node.dead == w.node.dead
      && next.node.acknowledged == w.node.acknowledged
      && next.node.counters.deadLettered == w.node.counters.deadLettered
  {
    hide Listing, ScanRecords, Deliver;
    var op := MerePersist(w.node, c);
    var r, io := NewRecord(c), op.io;
    if c.messageId in w.node.pending {
      assert io[1..] == [Works, Fails(false)] && io[1..][1..] == [Fails(false)];
      assert w.node.pending[c.messageId := r] == w.node.pending;
    } else {
      assert io[1..] == [Works, Works, Works, Fails(false)] && io[1..][1..] == [Works, Works, Fails(false)];
      assert io[1..][1..][1..] == [Works, Fails(false)] && io[1..][1..][1..][1..] == [Fails(false)];
    }
  }

  // ----- lost events -----

  /** The event is reported persisted by the publish `op` and gone when `more` has run. */
  ghost predicate LostBy(ops: seq<Op>, op: Op, more: seq<Op>, c: Core, max: u32) {
    c in PersistedBy(Run(ops, max), op, max) && !Accounted(Run(ops + [op] + more, max).node, c)
  }

  /** What a caller can check before publishing: the id is quarantined with other contents,
      the event was never acknowledged, and what is pending under the id, if anything, is
      the very record. */
  ghost predicate CanBeLost(node: Node, c: Core) {
    && Endangered(node, c)
    && (c.messageId in node.pending ==> node.pending[c.messageId] == NewRecord(c))
  }

  /** In every reachable world a publish can report its event persisted and the event be
      lost later if and only if `CanBeLost`. */
  lemma EventsCanBeLostExactlyWhen(ops: seq<Op>, max: u32, c: Core)
    requires Run(ops, max).up
    ensures (exists op, more :: LostBy(ops, op, more, c, max)) <==> CanBeLost(Run(ops, max).node, c)
  {
    hide Run, PersistedBy, Accounted, Endangered;
    if CanBeLost(Run(ops, max).node, c) {
      var op, more := TheLosingRun(ops, max, c);
      assert LostBy(ops, op, more, c, max);
    } else {
      forall op, more ensures !LostBy(ops, op, more, c, max) {
        if c in PersistedBy(Run(ops, max), op, max) {
          PersistedIsPendingAsIs(Run(ops, max), op, max, c);
          var all := ops + [op] + more;
          assert all[..|ops|] == ops && all[|ops|] == op;
          NothingPersistedIsLost(all, max, |ops|, c);
        }
      }
    }
  }

  lemma PersistedIsPendingAsIs(w: World, op: Op, max: u32, c: Core)
    requires Named(w.node) && c in PersistedBy(w, op, max)
    ensures c.messageId in w.node.pending ==> w.node.pending[c.messageId] == NewRecord(c)
  {
    hide PersistRecord, DrainLocked;
    PersistEffect(w.node, NewRecord(c), op.io);
  }

  lemma TheLosingRun(ops: seq<Op>, max: u32, c: Core) returns (op: Op, more: seq<Op>)
    requires Run(ops, max).up && CanBeLost(Run(ops, max).node, c)
    ensures LostBy(ops, op, more, c, max)
  {
    hide Run, Step, PersistedBy, Left;
    var w := Run(ops, max);
    op := MerePersist(w.node, c);
    MerelyPersisted(w, c, max);
    OneMoreOp(ops, op, max);
    more := EveryRecordCanBeRefused(ops + [op], max, c.messageId);
    LeftIsLost(w.node, Run(ops + [op], max).node, Run(ops + [op] + more, max).node, c);
  }

  lemma LeftIsLost(start: Node, persisted: Node, end: Node, c: Core)
    requires Endangered(start, c) && persisted.dead == start.dead && persisted.acknowledged == start.acknowledged
    requires Left(persisted, end, c.messageId)
    ensures !Accounted(end, c)
  {
  }

  // ----- the gauge of the quarantine -----

  /** The publish persists its event, and after some background drains of the running
      process the gauge and the quarantine disagree. */
  ghost predicate SkewedBy(ops: seq<Op>, op: Op, more: seq<Op>, c: Core, max: u32) {
    var w := Run(ops + [op] + more, max);
    c in PersistedBy(Run(ops, max), op, max) && OnlyTicks(more) && w.up && !DeadAgrees(w.node)
  }

  /** In every reachable world with no id both waiting and quarantined, a publish can make
      the dead-letter gauge wrong if and only if its id is quarantined already. */
  lemma GaugeCanBeSkewedExactlyWhen(ops: seq<Op>, max: u32, c: Core)
    requires Run(ops, max).up && Disjoint(Run(ops, max).node) && DeadAgrees(Run(ops, max).node)
    ensures (exists op, more :: SkewedBy(ops, op, more, c, max)) <==> c.messageId in Run(ops, max).node.dead
  {
    hide Run, PersistedBy, DeadAgrees;
    if c.messageId in Run(ops, max).node.dead {
      var op, more := TheSkewingRun(ops, max, c);
      assert SkewedBy(ops, op, more, c, max);
    } else {
      forall op, more ensures !SkewedBy(ops, op, more, c, max) {
        if c in PersistedBy(Run(ops, max), op, max) && OnlyTicks(more) {
          PersistingIsPublishing(Run(ops, max), op, max, c);
          FreshPublishKeepsTheGauge(ops, op, max);
          TicksKeepTheGauge(ops + [op], more, max);
        }
      }
    }
  }

  lemma TheSkewingRun(ops: seq<Op>, max: u32, c: Core) returns (op: Op, more: seq<Op>)
    requires Run(ops, max).up && Disjoint(Run(ops, max).node) && DeadAgrees(Run(ops, max).node)
    requires c.messageId in Run(ops, max).node.dead
    ensures SkewedBy(ops, op, more, c, max)
  {
    hide Run, Step, PersistedBy, Left;
    var w := Run(ops, max);
    op := MerePersist(w.node, c);
    MerelyPersisted(w, c, max);
    OneMoreOp(ops, op, max);
    var persisted := Run(ops + [op], max).node;
    assert Watched(persisted, c.messageId);
    more := EveryRecordCanBeRefused(ops + [op], max, c.messageId);
    LeftHasGone(persisted, Run(ops + [op] + more, max).node, c.messageId);
    OffByOne(Run(ops + [op] + more, max).node, c.messageId);
  }

  lemma LeftHasGone(a: Node, b: Node, id: Uuid)
    requires Left(a, b, id)
    ensures id !in b.pending
  {
  }

  lemma OffByOne(node: Node, id: Uuid)
    requires Watched(node, id) && id !in node.pending
    ensures !DeadAgrees(node)
  {
  }

  lemma PersistingIsPublishing(w: World, op: Op, max: u32, c: Core)
    requires Named(w.node) && c in PersistedBy(w, op, max)
    ensures op.Publish? && op.envelope == c && w.up
  {
  }

  /** Nothing clashes and, while the process runs, the gauge is right. */
  ghost predicate GaugeRight(w: World) {
    Disjoint(w.node) && (w.up ==> DeadAgrees(w.node))
  }

  lemma FreshPublishKeepsTheGauge(ops: seq<Op>, op: Op, max: u32)
    requires GaugeRight(Run(ops, max)) && op.Publish? && op.envelope.messageId !in Run(ops, max).node.dead
    ensures GaugeRight(Run(ops + [op], max))
  {
    hide Run, PublishEvent, DeadAgrees, Disjoint;
    OneMoreOp(ops, op, max);
    PublishTracks(Run(ops, max).node, NewRecord(op.envelope), op.now, max, op.connected, op.io);
  }

  lemma {:induction false} TicksKeepTheGauge(ops: seq<Op>, more: seq<Op>, max: u32)
    requires GaugeRight(Run(ops, max)) && OnlyTicks(more)
    ensures GaugeRight(Run(ops + more, max))
  {
    hide Run, DrainLocked, DeadAgrees, Disjoint;
    if more == [] {
      assert ops + more == ops;
    } else {
      var front, op := more[..|more| - 1], more[|more| - 1];
      TicksKeepTheGauge(ops, front, max);
      assert ops + more == ops + front + [op];
      OneMoreOp(ops + front, op, max);
      DrainTracks(Run(ops + front, max).node, op.now, max, op.connected, op.io);
    }
  }

  // ----- it happens -----

  /** The first start of all, on empty directories. */
  const FIRST_START := Boot(0, false, AllWork(START_CALLS))

  lemma FirstStart(max: u32)
    ensures
      var w := Run([FIRST_START], max);
      w.up && w.node.pending == map[] && w.node.dead == map[] && w.node.acknowledged == {} && DeadAgrees(w.node)
  {
    hide Start;
    assert [FIRST_START][..0] == [];
    QuietStart(Rebooted(EMPTY), max);
  }

  /** From nothing, a run that quarantines `d` and leaves the gauge right. */
  lemma QuarantinedFromNothing(d: Core, max: u32) returns (ops: seq<Op>)
    ensures
      var w := Run(ops, max);
      && w.up && Disjoint(w.node) && DeadAgrees(w.node)
      && d.messageId in w.node.dead && CoreOf(w.node.dead[d.messageId]) == d
      && (forall c :: c in w.node.acknowledged ==> c.messageId != d.messageId)
      && d.messageId !in w.node.pending
  {
    hide Run, Step, PersistedBy, Left, DeadAgrees;
    FirstStart(max);
    var start := [FIRST_START];
    var op := MerePersist(Run(start, max).node, d);
    MerelyPersisted(Run(start, max), d, max);
    OneMoreOp(start, op, max);
    FreshPublishKeepsTheGauge(start, op, max);
    var more := EveryRecordCanBeRefused(start + [op], max, d.messageId);
    TicksKeepTheGauge(start + [op], more, max);
    ops := start + [op] + more;
    LeftIsQuarantined(Run(start + [op], max).node, Run(ops, max).node, d);
  }

  lemma LeftIsQuarantined(a: Node, b: Node, d: Core)
    requires Left(a, b, d.messageId) && a.pending[d.messageId] == NewRecord(d) && d.messageId !in a.dead
    requires forall c :: c in a.acknowledged ==> c.messageId != d.messageId
    ensures d.messageId in b.dead && CoreOf(b.dead[d.messageId]) == d && d.messageId !in b.pending
    ensures forall c :: c in b.acknowledged ==> c.messageId != d.messageId
  {
  }

  /** Any two events that share an id: a run from nothing in which the second is reported
      persisted and then lost, and one in which the dead-letter gauge ends up wrong. */
  lemma ReusedIdsDoHarm(d: Core, c: Core, max: u32)
    requires c.messageId == d.messageId && c != d
    ensures exists ops, op, more :: LostBy(ops, op, more, c, max)
    ensures exists ops, op, more :: SkewedBy(ops, op, more, c, max)
  {
    hide Run, LostBy, SkewedBy, DeadAgrees;
    var ops := QuarantinedFromNothing(d, max);
    EventsCanBeLostExactlyWhen(ops, max, c);
    var op, more :| LostBy(ops, op, more, c, max);
    GaugeCanBeSkewedExactlyWhen(ops, max, c);
    var op', more' :| SkewedBy(ops, op', more', c, max);
  }
}
