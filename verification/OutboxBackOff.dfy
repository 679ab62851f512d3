/** The pause between two publishes of one record, over every run. */
module OutboxBackOff {
  import opened Prelude
  import opened Outbox
  import opened OutboxEffects
  import opened OutboxSafety
  import opened OutboxOrder
  import opened OutboxExhausted

  const LAST_MS: i64 := 0x7FFF_FFFF_FFFF_FFFF

  /** Five seconds later, or the last moment there is. */
  function FiveSecondsAfter(now: i64): i64 {
    if now + 5000 <= LAST_MS then now + 5000 else LAST_MS
  }

  /** The record is gone from the pending ones, or it is there with one attempt more, of
      which some are left, to be tried again in five seconds, and otherwise unchanged. */
  ghost predicate BackedOff(before: Node, after: Node, id: Uuid, now: i64, max: u32) {
    id in after.pending ==>
      && id in before.pending
      && after.pending[id].attempts < max
      && after.pending[id] == before.pending[id].(
           attempts := Min(before.pending[id].attempts + 1, 0xFFFF_FFFF),
           nextAttemptAtMs := FiveSecondsAfter(now))
  }

  /** The same thing, or nothing, is pending under the id. */
  predicate SamePending(a: Node, b: Node, id: Uuid) {
    && (id in a.pending <==> id in b.pending)
    && (id in a.pending ==> a.pending[id] == b.pending[id])
  }

  // ----- one drain -----

  lemma FinalizeBacksOff(node: Node, r: OutboxRecord, acknowledged: bool, now: i64, max: u32, io: seq<Fate>)
    requires r.messageId in node.pending && node.pending[r.messageId] == r
    requires FinalizeDelivery(node, r, acknowledged, now, max, io).status == Completed
    ensures
      var after := FinalizeDelivery(node, r, acknowledged, now, max, io).node;
      && after.attempted == node.attempted
      && BackedOff(node, after, r.messageId, now, max)
      && forall id :: id != r.messageId ==> SamePending(node, after, id)
  {
    hide FinalizeDelivery;
    if acknowledged {
      AcknowledgedEffect(node, r, now, max, io);
    } else {
      UnacknowledgedEffect(node, r, now, max, io);
    }
  }

  lemma OneRemovedInFront(before: Node, middle: Node, after: Node, due: seq<OutboxRecord>, more: seq<Uuid>,
                          now: i64, max: u32)
    requires due != [] && OnDisk(due, before.pending) && middle.pending == before.pending - {due[0].messageId}
    requires forall id :: id in more ==> BackedOff(middle, after, id, now, max)
    requires forall id :: id !in more ==> SamePending(middle, after, id)
    requires forall id :: id in more ==> exists i :: 0 <= i < |due[1..]| && due[1..][i].messageId == id
    ensures
      var published := [due[0].messageId] + more;
      && (forall id :: id in published ==> BackedOff(before, after, id, now, max))
      && (forall id :: id !in published ==> SamePending(before, after, id))
      && (forall id :: id in published ==> exists i :: 0 <= i < |due| && due[i].messageId == id)
  {
    var first := due[0].messageId;
    forall id | id in more ensures id != first && exists i :: 0 <= i < |due| && due[i].messageId == id {
      var i :| 0 <= i < |due[1..]| && due[1..][i].messageId == id;
      assert due[i + 1].messageId == id;
    }
    assert SamePending(middle, after, first);
    forall id | id in more ensures BackedOff(before, after, id, now, max) {
      assert BackedOff(middle, after, id, now, max);
    }
    forall id | id !in more && id != first ensures SamePending(before, after, id) {
      assert SamePending(middle, after, id);
    }
    assert due[0].messageId == first;
  }

  lemma OneRefused(node: Node, asked: Node, done: Node, after: Node, id: Uuid, now: i64, max: u32)
    requires asked.pending == node.pending && after.pending == done.pending
    requires BackedOff(asked, done, id, now, max) && forall other :: other != id ==> SamePending(asked, done, other)
    ensures BackedOff(node, after, id, now, max) && forall other :: other != id ==> SamePending(node, after, other)
  {
    forall other | other != id ensures SamePending(node, after, other) {
      assert SamePending(asked, done, other);
    }
  }

  lemma NothingMoved(node: Node)
    ensures forall id :: SamePending(node, node, id)
  {
  }

  /** A delivery loop that runs to its end has backed off from everything it published. */
  lemma {:induction false} DeliverBacksOff(node: Node, due: seq<OutboxRecord>, now: i64, max: u32, io: seq<Fate>)
    returns (published: seq<Uuid>)
    requires OnDisk(due, node.pending) && Deliver(node, due, now, max, io).status == Completed
    ensures
      var after := Deliver(node, due, now, max, io).node;
      && after.attempted == node.attempted + published
      && (forall id :: id in published ==> BackedOff(node, after, id, now, max))
      && (forall id :: id !in published ==> SamePending(node, after, id))
      && (forall id :: id in published ==> exists i :: 0 <= i < |due| && due[i].messageId == id)
    decreases |due|
  {
    hide FinalizeDelivery, BackedOff, SamePending;
    if due == [] {
      NothingMoved(node);
      published := [];
    } else {
      var r := due[0];
      var stored := match Next(io) case Works => true case Fails(s) => s case Crashes(s) => s;
      var acked := Next(io).Works?;
      var asked := Published(node, r, stored, acked);
      var done := FinalizeDelivery(asked, r, acked, now, max, Rest(io));
      FinalizeBacksOff(asked, r, acked, now, max, Rest(io));
      var after := Deliver(node, due, now, max, io).node;
      published := [r.messageId];
      if acked {
        RestStaysOnDisk(due, node.pending);
        AcknowledgedEffect(asked, r, now, max, Rest(io));
        var more := DeliverBacksOff(done.node, due[1..], now, max, done.io);
        published := published + more;
        OneRemovedInFront(node, done.node, after, due, more, now, max);
      } else {
        OneRefused(node, asked, done.node, after, r.messageId, now, max);
        assert due[0].messageId == r.messageId;
      }
    }
  }

  /** After a drain that ran to its end, every record it published is gone or due again in
      five seconds, with one attempt more. */
  lemma DrainBacksOff(node: Node, now: i64, max: u32, connected: bool, io: seq<Fate>) returns (published: seq<Uuid>)
    requires Named(node) && DrainLocked(node, now, max, connected, io).status == Completed
    ensures
      var after := DrainLocked(node, now, max, connected, io).node;
      && after.attempted == node.attempted + published
      && forall id :: id in published ==> BackedOff(node, after, id, now, max)
  {
    hide ScanRecords, Deliver, Listing, DueOf, BackedOff, SameFiles;
    var records := Listing(node.pending);
    var due := DueOf(records, now, max);
    ListingIsOnDisk(records, node.pending);
    ListedExactly(records, node.pending);
    ScanCollectsTheDue(node, records, [], now, max, Rest(io));
    DueIsSortedAndExact(records, now, max);
    var scan := ScanRecords(node, records, [], now, max, Rest(io));
    assert scan.due == due;
    published := [];
    if due != [] && connected {
      DueStaysOnDisk(node, scan.res.node, due, max);
      published := DeliverBacksOff(scan.res.node, due, now, max, scan.res.io);
      BackedOffAcrossTheScan(node, scan.res.node, Deliver(scan.res.node, due, now, max, scan.res.io).node,
                             due, published, now, max);
    }
  }

  lemma BackedOffAcrossTheScan(before: Node, scanned: Node, after: Node, due: seq<OutboxRecord>,
                               published: seq<Uuid>, now: i64, max: u32)
    requires forall id :: !AtTheLimit(before, id, max) ==> SameFiles(before, scanned, id)
    requires
      forall r :: r in due ==>
        r.messageId in before.pending && before.pending[r.messageId] == r && r.attempts < max
    requires forall id :: id in published ==> exists i :: 0 <= i < |due| && due[i].messageId == id
    requires forall id :: id in published ==> BackedOff(scanned, after, id, now, max)
    ensures forall id :: id in published ==> BackedOff(before, after, id, now, max)
  {
    forall id | id in published ensures BackedOff(before, after, id, now, max) {
      var i :| 0 <= i < |due| && due[i].messageId == id;
      assert due[i] in due;
      assert SameFiles(before, scanned, id) && BackedOff(scanned, after, id, now, max);
    }
  }

  // ----- runs -----

  /** The record is not to be tried before `t`. */
  predicate NotBefore(node: Node, id: Uuid, t: int) {
    id in node.pending ==> node.pending[id].nextAttemptAtMs >= t
  }

  /** What was published between two moments of a run. */
  function PublishedBetween(a: Node, b: Node): seq<Uuid> {
    if |a.attempted| <= |b.attempted| then b.attempted[|a.attempted|..] else []
  }

  /** The histories grow; and the record is not published before `t`, nor is its next
      attempt moved as long as it is not published. */
  ghost predicate Rests(before: Node, after: Node, id: Uuid, t: int, now: int) {
    && before.attempted <= after.attempted
    && (now < t ==> id !in PublishedBetween(before, after))
    && (id !in PublishedBetween(before, after) ==> NotBefore(after, id, t))
  }

  lemma DrainRests(node: Node, now: i64, max: u32, connected: bool, io: seq<Fate>, id: Uuid, t: int)
    requires Named(node) && NotBefore(node, id, t)
    ensures Rests(node, DrainLocked(node, now, max, connected, io).node, id, t, now)
  {
    hide DrainLocked, Listing;
    var after := DrainLocked(node, now, max, connected, io).node;
    var due := DueOf(Listing(node.pending), now, max);
    var k := DrainInOrder(node, now, max, connected, io);
    InIds(due[..k], id);
    assert PublishedBetween(node, after) == Ids(due[..k]);
    if id in Ids(due[..k]) {
      var i :| 0 <= i < k && due[..k][i].messageId == id;
      assert due[i] in due;
    } else if AtTheLimit(node, id, max) {
      DrainMovesOrLeaves(node, now, max, connected, io, id);
    } else {
      assert SameFiles(node, after, id);
    }
  }

  lemma RestsBehind(before: Node, middle: Node, after: Node, id: Uuid, t: int, now: int)
    requires middle.attempted == before.attempted && Rests(middle, after, id, t, now)
    ensures Rests(before, after, id, t, now)
  {
  }

  lemma StepRests(w: World, op: Op, max: u32, id: Uuid, t: int)
    requires Named(w.node) && NotBefore(w.node, id, t) && !Publishes(op, id)
    ensures Rests(w.node, Step(w, op, max).node, id, t, op.now)
  {
    hide DrainLocked, PersistRecord;
    match op {
      case Publish(c, now, connected, io) =>
        var p := PersistRecord(w.node, NewRecord(c), io).res;
        PersistEffect(w.node, NewRecord(c), io);
        if w.up && p.status == Completed {
          PersistIsNamed(w.node, NewRecord(c), p.node);
          DrainRests(p.node, now, max, connected, p.io, id, t);
          RestsBehind(w.node, p.node, DrainLocked(p.node, now, max, connected, p.io).node, id, t, now);
        }
      case Tick(now, connected, io) =>
        if w.up {
          DrainRests(w.node, now, max, connected, io, id, t);
        }
      case Boot(now, connected, io) =>
        var blank := Rebooted(w.node);
        var ready := Recover(blank, io);
        if ready.status == Completed {
          DrainRests(ready.node, now, max, connected, ready.io, id, t);
          RestsBehind(w.node, ready.node, DrainLocked(ready.node, now, max, connected, ready.io).node, id, t, now);
        }
    }
  }

  /** The step published `id` and its drain ran to its end. */
  ghost predicate PublishesToTheEnd(w: World, op: Op, max: u32, id: Uuid)
    requires WellNamed(w.node.pending)
  {
    DrainsToTheEnd(w, op, max) && id in PublishedBetween(w.node, Step(w, op, max).node)
  }

  lemma DrainEndsRested(before: Node, node: Node, now: i64, max: u32, connected: bool, io: seq<Fate>, id: Uuid)
    requires Named(node) && before.attempted == node.attempted
    requires DrainLocked(node, now, max, connected, io).status == Completed
    requires id in PublishedBetween(before, DrainLocked(node, now, max, connected, io).node)
    ensures NotBefore(DrainLocked(node, now, max, connected, io).node, id, FiveSecondsAfter(now))
  {
    hide DrainLocked;
    var published := DrainBacksOff(node, now, max, connected, io);
    assert BackedOff(node, DrainLocked(node, now, max, connected, io).node, id, now, max);
  }

  lemma StepEndsRested(w: World, op: Op, max: u32, id: Uuid)
    requires Named(w.node) && PublishesToTheEnd(w, op, max, id)
    ensures NotBefore(Step(w, op, max).node, id, FiveSecondsAfter(op.now))
  {
    hide DrainLocked, PersistRecord;
    match op {
      case Publish(c, now, connected, io) =>
        var p := PersistRecord(w.node, NewRecord(c), io).res;
        PersistEffect(w.node, NewRecord(c), io);
        PersistIsNamed(w.node, NewRecord(c), p.node);
        DrainEndsRested(w.node, p.node, now, max, connected, p.io, id);
      case Tick(now, connected, io) =>
        DrainEndsRested(w.node, w.node, now, max, connected, io, id);
      case Boot(now, connected, io) =>
        var ready := Recover(Rebooted(w.node), io);
        DrainEndsRested(w.node, ready.node, now, max, connected, ready.io, id);
    }
  }

  /** The rest of a run, step by step. */
  lemma {:induction false} RunRests(ops: seq<Op>, more: seq<Op>, max: u32, id: Uuid, t: int)
    requires NotBefore(Run(ops, max).node, id, t)
    requires forall op :: op in more ==> !Publishes(op, id)
    requires (forall op :: op in more ==> op.now < t)
          || id !in PublishedBetween(Run(ops, max).node, Run(ops + more, max).node)
    ensures Run(ops, max).node.attempted <= Run(ops + more, max).node.attempted
    ensures id !in PublishedBetween(Run(ops, max).node, Run(ops + more, max).node)
    ensures NotBefore(Run(ops + more, max).node, id, t)
  {
    hide Step, NotBefore;
    var start := Run(ops, max).node;
    if more == [] {
      assert ops + more == ops;
    } else {
      var front, op := more[..|more| - 1], more[|more| - 1];
      assert (ops + more)[..|ops + more| - 1] == ops + front && (ops + more)[|ops + more| - 1] == op;
      HistoryGrows(ops, front, max);
      StepHistory(Run(ops + front, max), op, max);
      RunRests(ops, front, max, id, t);
      StepRests(Run(ops + front, max), op, max, id, t);
    }
  }

  lemma StepHistory(w: World, op: Op, max: u32)
    requires Named(w.node)
    ensures w.node.attempted <= Step(w, op, max).node.attempted
  {
    hide Step;
    var id := if op.Publish? then op.envelope.messageId + 1 else 0;
    StepRests(w, op, max, id, -0x8000_0000_0000_0000);
  }

  lemma {:induction false} HistoryGrows(ops: seq<Op>, more: seq<Op>, max: u32)
    ensures Run(ops, max).node.attempted <= Run(ops + more, max).node.attempted
  {
    hide Step;
    if more == [] {
      assert ops + more == ops;
    } else {
      var front := more[..|more| - 1];
      assert (ops + more)[..|ops + more| - 1] == ops + front;
      HistoryGrows(ops, front, max);
      StepHistory(Run(ops + front, max), more[|more| - 1], max);
    }
  }

  /** After a drain that published `id` and ran to its end, nothing publishes it for five
      seconds: no drain, no request and no restart, unless the id is published anew. */
  lemma NothingRetriesTooSoon(ops: seq<Op>, first: Op, more: seq<Op>, max: u32, id: Uuid)
    requires PublishesToTheEnd(Run(ops, max), first, max, id)
    requires forall op :: op in more ==> !Publishes(op, id) && op.now < FiveSecondsAfter(first.now)
    ensures id !in PublishedBetween(Run(ops + [first], max).node, Run(ops + [first] + more, max).node)
  {
    hide Step, Run;
    RunOneMore(ops, first, max);
    StepEndsRested(Run(ops, max), first, max, id);
    RunRests(ops + [first], more, max, id, FiveSecondsAfter(first.now));
  }

  lemma RunOneMore(ops: seq<Op>, op: Op, max: u32)
    ensures Run(ops + [op], max) == Step(Run(ops, max), op, max)
  {
    assert (ops + [op])[..|ops|] == ops;
  }

  /** Two publishes of one record, one after the other, lie five seconds apart by the clock
      of the drains, if the first drain ran to its end and the id was not published anew
      in between. */
  lemma TwoPublishesAreSpaced(ops: seq<Op>, first: Op, between: seq<Op>, second: Op, max: u32, id: Uuid)
    requires PublishesToTheEnd(Run(ops, max), first, max, id)
    requires forall op :: op in between + [second] ==> !Publishes(op, id)
    requires id !in PublishedBetween(Run(ops + [first], max).node, Run(ops + [first] + between, max).node)
    requires
      var before := Run(ops + [first] + between, max);
      id in PublishedBetween(before.node, Step(before, second, max).node)
    ensures second.now >= FiveSecondsAfter(first.now)
  {
    hide Step, Run, Publishes;
    RunOneMore(ops, first, max);
    StepEndsRested(Run(ops, max), first, max, id);
    assert forall op :: op in between ==> op in between + [second];
    assert second in between + [second];
    RunRests(ops + [first], between, max, id, FiveSecondsAfter(first.now));
    StepRests(Run(ops + [first] + between, max), second, max, id, FiveSecondsAfter(first.now));
  }
}
