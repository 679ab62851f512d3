/** What becomes of a record that has used up its attempts, over every continuation of a
    run: crashes, restarts and anything else that happens to other events. */
module OutboxExhausted {
  import opened Prelude
  import opened Outbox
  import opened OutboxEffects
  import opened OutboxSafety
  import opened OutboxOrder

  /** Either nothing has happened to the record or it is in quarantine. */
  ghost predicate Resting(before: Node, after: Node, id: Uuid) {
    SameFiles(before, after, id) || InQuarantine(after, id)
  }

  /** From `before` to `after` the id was not published and its record, at the limit or
      quarantined before, has at most moved to quarantine. */
  ghost predicate LeftAlone(before: Node, after: Node, id: Uuid) {
    && Resting(before, after, id)
    && exists published :: after.attempted == before.attempted + published && id !in published
  }

  /** At the limit, or past it. */
  ghost predicate IsSpent(node: Node, id: Uuid, max: u32) {
    AtTheLimit(node, id, max) || InQuarantine(node, id)
  }

  lemma SpentStays(a: Node, b: Node, id: Uuid, max: u32)
    requires IsSpent(a, id, max) && LeftAlone(a, b, id)
    ensures IsSpent(b, id, max)
    ensures InQuarantine(a, id) ==> InQuarantine(b, id)
  {
  }

  lemma LeftAloneChain(a: Node, b: Node, c: Node, id: Uuid)
    requires LeftAlone(a, b, id) && LeftAlone(b, c, id)
    ensures LeftAlone(a, c, id)
  {
    var first :| b.attempted == a.attempted + first && id !in first;
    var second :| c.attempted == b.attempted + second && id !in second;
    assert c.attempted == a.attempted + (first + second);
  }

  lemma NothingHappened(a: Node, b: Node, id: Uuid)
    requires SameFiles(a, b, id) && b.attempted == a.attempted
    ensures LeftAlone(a, b, id)
  {
    assert b.attempted == a.attempted + [];
  }

  // ----- one drain -----

  lemma {:induction false} ScanMovesOrLeaves(node: Node, records: seq<OutboxRecord>, due: seq<OutboxRecord>,
                                             now: i64, max: u32, io: seq<Fate>, id: Uuid)
    requires OnDisk(records, node.pending)
    ensures Resting(node, ScanRecords(node, records, due, now, max, io).res.node, id)
    decreases |records|
  {
    hide MoveToDeadLetter;
    if records != [] {
      var r := records[0];
      RestStaysOnDisk(records, node.pending);
      if r.attempts >= max {
        MoveEffect(node, r.messageId, io);
        QuarantineTouchesOne(node, r.messageId);
        var moved := MoveToDeadLetter(node, r.messageId, io);
        if moved.status == Completed {
          ScanMovesOrLeaves(moved.node, records[1..], due, now, max, moved.io, id);
        }
      } else if r.nextAttemptAtMs <= now {
        ScanMovesOrLeaves(node, records[1..], due + [r], now, max, io, id);
      } else {
        ScanMovesOrLeaves(node, records[1..], due, now, max, io, id);
      }
    }
  }

  lemma DeliveryLeaves(node: Node, due: seq<OutboxRecord>, now: i64, max: u32, io: seq<Fate>, id: Uuid)
    requires OnDisk(due, node.pending) && forall r :: r in due ==> r.messageId != id
    ensures SameFiles(node, Deliver(node, due, now, max, io).node, id)
  {
    hide Deliver;
    var k := DeliverAttemptsAPrefix(node, due, now, max, io);
    InIds(due[..k], id);
    assert due[..k] <= due;
  }

  /** A drain, failed or crashed or not, does not publish such a record; one that finishes
      leaves it in quarantine. */
  lemma DrainLeavesAlone(node: Node, now: i64, max: u32, connected: bool, io: seq<Fate>, id: Uuid)
    requires Named(node) && IsSpent(node, id, max)
    ensures
      var drained := DrainLocked(node, now, max, connected, io);
      && LeftAlone(node, drained.node, id)
      && (drained.status == Completed ==> InQuarantine(drained.node, id))
  {
    hide DrainLocked, Listing;
    var after := DrainLocked(node, now, max, connected, io).node;
    if AtTheLimit(node, id, max) {
      var published := AtTheLimitOnlyQuarantined(node, now, max, connected, io, id);
      DrainMovesOrLeaves(node, now, max, connected, io, id);
    } else {
      var k := DrainInOrder(node, now, max, connected, io);
      var due := DueOf(Listing(node.pending), now, max);
      InIds(due[..k], id);
      assert forall i :: 0 <= i < k ==> due[..k][i] in due;
    }
  }

  lemma DrainMovesOrLeaves(node: Node, now: i64, max: u32, connected: bool, io: seq<Fate>, id: Uuid)
    requires Named(node) && AtTheLimit(node, id, max)
    ensures Resting(node, DrainLocked(node, now, max, connected, io).node, id)
  {
    hide ScanRecords, Deliver, Listing, DueOf;
    var records := Listing(node.pending);
    var due := DueOf(records, now, max);
    ListingIsOnDisk(records, node.pending);
    ListedExactly(records, node.pending);
    var scan := ScanRecords(node, records, [], now, max, Rest(io));
    ScanMovesOrLeaves(node, records, [], now, max, Rest(io), id);
    if Next(io).Works? && scan.res.status == Completed && scan.due != [] && connected {
      ScanCollectsTheDue(node, records, [], now, max, Rest(io));
      assert scan.due == due;
      DueIsSortedAndExact(records, now, max);
      DueStaysOnDisk(node, scan.res.node, due, max);
      DeliveryLeaves(scan.res.node, due, now, max, scan.res.io, id);
    }
  }

  // ----- every continuation -----

  /** The drain of this step, if it got so far, ran to its end. */
  ghost predicate DrainsToTheEnd(w: World, op: Op, max: u32)
    requires WellNamed(w.node.pending)
  {
    match op
    case Publish(c, now, connected, io) =>
      w.up && PublishEvent(w.node, NewRecord(c), now, max, connected, io).0.status == Completed
    case Tick(now, connected, io) =>
      w.up && DrainLocked(w.node, now, max, connected, io).status == Completed
    case Boot(now, connected, io) =>
      Start(Rebooted(w.node), now, max, connected, io).0.status == Completed
  }

  predicate Publishes(op: Op, id: Uuid) {
    op.Publish? && op.envelope.messageId == id
  }

  lemma PublishLeavesAlone(node: Node, c: Core, now: i64, max: u32, connected: bool, io: seq<Fate>, id: Uuid)
    requires Named(node) && IsSpent(node, id, max) && c.messageId != id
    ensures
      var res := PublishEvent(node, NewRecord(c), now, max, connected, io).0;
      && LeftAlone(node, res.node, id)
      && (res.status == Completed ==> InQuarantine(res.node, id))
  {
    hide PersistRecord, DrainLocked, LeftAlone;
    var r := NewRecord(c);
    var p := PersistRecord(node, r, io);
    PersistEffect(node, r, io);
    NothingHappened(node, p.res.node, id);
    NothingHappened(node, PersistFailure(p.res.node), id);
    if p.res.status == Completed {
      DrainLeavesAlone(p.res.node, now, max, connected, p.res.io, id);
      LeftAloneChain(node, p.res.node, DrainLocked(p.res.node, now, max, connected, p.res.io).node, id);
    }
  }

  lemma StartLeavesAlone(node: Node, now: i64, max: u32, connected: bool, io: seq<Fate>, id: Uuid)
    requires Named(node) && IsSpent(node, id, max)
    ensures
      var res := Start(node, now, max, connected, io).0;
      && LeftAlone(node, res.node, id)
      && (res.status == Completed ==> InQuarantine(res.node, id))
  {
    hide DrainLocked, LeftAlone;
    var recovered := Recover(node, io);
    NothingHappened(node, recovered.node, id);
    if recovered.status == Completed {
      DrainLeavesAlone(recovered.node, now, max, connected, recovered.io, id);
      LeftAloneChain(node, recovered.node, DrainLocked(recovered.node, now, max, connected, recovered.io).node, id);
    }
  }

  lemma StepLeavesAlone(w: World, op: Op, max: u32, id: Uuid)
    requires Named(w.node) && IsSpent(w.node, id, max) && !Publishes(op, id)
    ensures LeftAlone(w.node, Step(w, op, max).node, id)
    ensures DrainsToTheEnd(w, op, max) ==> InQuarantine(Step(w, op, max).node, id)
  {
    hide DrainLocked, PublishEvent, Start, LeftAlone, InQuarantine;
    NothingHappened(w.node, w.node, id);
    match op {
      case Publish(c, now, connected, io) =>
        PublishLeavesAlone(w.node, c, now, max, connected, io, id);
      case Tick(now, connected, io) =>
        DrainLeavesAlone(w.node, now, max, connected, io, id);
      case Boot(now, connected, io) =>
        var blank := Rebooted(w.node);
        NothingHappened(w.node, blank, id);
        SpentStays(w.node, blank, id, max);
        StartLeavesAlone(blank, now, max, connected, io, id);
        LeftAloneChain(w.node, blank, Start(blank, now, max, connected, io).0.node, id);
    }
  }

  /** From the moment a record has used up its attempts it is never published again and
      its file, unchanged, at most moves to quarantine, in every continuation: whatever
      fails, crashes or restarts, unless its id is published anew. Once any drain of that
      continuation runs to its end it is in quarantine, for good. */
  lemma {:induction false} NeverPublishedAgain(ops: seq<Op>, more: seq<Op>, max: u32, id: Uuid)
    requires IsSpent(Run(ops, max).node, id, max)
    requires forall op :: op in more ==> !Publishes(op, id)
    ensures LeftAlone(Run(ops, max).node, Run(ops + more, max).node, id)
    ensures (exists k :: 0 <= k < |more| && DrainsToTheEnd(Run(ops + more[..k], max), more[k], max)) ==>
              InQuarantine(Run(ops + more, max).node, id)
  {
    hide Step, LeftAlone, DrainsToTheEnd;
    var start := Run(ops, max).node;
    if more == [] {
      assert ops + more == ops;
      NothingHappened(start, start, id);
    } else {
      var front, op := more[..|more| - 1], more[|more| - 1];
      var before := Run(ops + front, max);
      assert (ops + more)[..|ops + more| - 1] == ops + front && (ops + more)[|ops + more| - 1] == op;
      NeverPublishedAgain(ops, front, max, id);
      SpentStays(start, before.node, id, max);
      StepLeavesAlone(before, op, max, id);
      SpentStays(before.node, Run(ops + more, max).node, id, max);
      LeftAloneChain(start, before.node, Run(ops + more, max).node, id);
      forall k | 0 <= k < |more| && DrainsToTheEnd(Run(ops + more[..k], max), more[k], max)
        ensures InQuarantine(Run(ops + more, max).node, id)
      {
        if k < |front| {
          assert front[..k] == more[..k] && front[k] == more[k];
        }
      }
    }
  }
}
