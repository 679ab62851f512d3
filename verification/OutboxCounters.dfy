/** What the counters of the outbox count, drain by drain. */
module OutboxCounters {
  import opened Prelude
  import opened Outbox
  import opened OutboxEffects
  import opened OutboxSafety
  import opened OutboxOrder

  /** `n` further counts, wrapping. */
  function Plus(counter: u64, n: nat): u64 {
    (counter + n) % 0x1_0000_0000_0000_0000
  }

  lemma OneMore(counter: u64, n: nat)
    ensures Plus(counter, 0) == counter && Plus(counter, 1) == WrappingInc(counter)
    ensures Plus(WrappingInc(counter), n) == Plus(counter, n + 1)
  {
  }

  /** `published` publishes of which the first `delivered` were acknowledged and their
      files removed: the counters have counted these, one failure if the drain went on
      to its end past a refusal, and one persist failure if a file call failed. */
  ghost predicate Counted(a: Counters, b: Counters, status: Status, published: nat, delivered: nat) {
    && delivered <= published <= delivered + 1
    && b.jetstreamPublished == Plus(a.jetstreamPublished, delivered)
    && b.publishFailures
       == (if status == Completed && published == delivered + 1 then WrappingInc(a.publishFailures)
           else a.publishFailures)
    && b.outboxPersistFailures
       == (if status == Errored then WrappingInc(a.outboxPersistFailures) else a.outboxPersistFailures)
    && b.outboxDeferred == a.outboxDeferred
  }

  /** The delivered records were acknowledged and are pending no more; a refused one behind
      them is pending or in quarantine when the drain has ended. */
  ghost predicate Outcomes(after: Node, status: Status, due: seq<OutboxRecord>, published: nat, delivered: nat) {
    && delivered <= published <= |due|
    && (forall i :: 0 <= i < delivered ==>
          CoreOf(due[i]) in after.acknowledged && due[i].messageId !in after.pending)
    && (status == Completed && delivered < published ==>
          due[delivered].messageId in after.pending || due[delivered].messageId in after.dead)
  }

  ghost predicate SameCounts(a: Counters, b: Counters) {
    && b.jetstreamPublished == a.jetstreamPublished && b.publishFailures == a.publishFailures
    && b.outboxPersistFailures == a.outboxPersistFailures && b.outboxDeferred == a.outboxDeferred
  }

  lemma FinalizeCounts(node: Node, r: OutboxRecord, acknowledged: bool, now: i64, max: u32, io: seq<Fate>)
    requires r.messageId in node.pending
    ensures
      var d := FinalizeDelivery(node, r, acknowledged, now, max, io);
      && d.node.attempted == node.attempted && d.node.acknowledged == node.acknowledged
      && OnlyShrinks(node, d.node)
      && (d.status == Completed && !acknowledged ==> r.messageId in d.node.pending || r.messageId in d.node.dead)
      && if acknowledged && d.status == Completed then
           && d.node.pending == node.pending - {r.messageId}
           && SameCounts(node.counters.(jetstreamPublished := WrappingInc(node.counters.jetstreamPublished)),
                         d.node.counters)
         else SameCounts(node.counters, d.node.counters)
  {
    hide FinalizeDelivery;
    if acknowledged {
      AcknowledgedEffect(node, r, now, max, io);
    } else {
      UnacknowledgedEffect(node, r, now, max, io);
    }
  }

  /** Nothing is persisted and no acknowledgement is forgotten. */
  ghost predicate OnlyShrinks(a: Node, b: Node) {
    a.acknowledged <= b.acknowledged && forall id :: id in b.pending ==> id in a.pending
  }

  lemma {:induction false} DeliverCounts(node: Node, due: seq<OutboxRecord>, now: i64, max: u32, io: seq<Fate>)
    returns (published: nat, delivered: nat)
    requires OnDisk(due, node.pending)
    ensures
      var res := Deliver(node, due, now, max, io);
      && Counted(node.counters, res.node.counters, res.status, published, delivered)
      && Outcomes(res.node, res.status, due, published, delivered)
      && res.node.attempted == node.attempted + Ids(due[..published])
      && OnlyShrinks(node, res.node)
      && (res.status == Completed && published == delivered ==> published == |due|)
    decreases |due|, 1
  {
    hide FinalizeDelivery;
    OneMore(node.counters.jetstreamPublished, 0);
    published, delivered := 0, 0;
    if due != [] {
      var r := due[0];
      assert due[..1] == [r] && Ids(due[..1]) == [r.messageId];
      var stored := match Next(io) case Works => true case Fails(s) => s case Crashes(s) => s;
      var acked := Next(io).Works?;
      var asked := Published(node, r, stored, acked);
      published := 1;
      if !Next(io).Crashes? {
        FinalizeCounts(asked, r, acked, now, max, Rest(io));
        var done := FinalizeDelivery(asked, r, acked, now, max, Rest(io));
        if acked && done.status == Completed {
          published, delivered := RestCounts(node, done.node, due, now, max, done.io);
        }
      }
    }
  }

  /** The loop behind one delivered record. */
  lemma {:induction false} RestCounts(
    node: Node, done: Node, due: seq<OutboxRecord>, now: i64, max: u32, io: seq<Fate>)
    returns (published: nat, delivered: nat)
    requires due != [] && OnDisk(due, node.pending)
    requires done.attempted == node.attempted + [due[0].messageId]
    requires done.acknowledged == node.acknowledged + {CoreOf(due[0])}
    requires done.pending == node.pending - {due[0].messageId}
    requires SameCounts(node.counters.(jetstreamPublished := WrappingInc(node.counters.jetstreamPublished)),
                        done.counters)
    ensures
      var res := Deliver(done, due[1..], now, max, io);
      && Counted(node.counters, res.node.counters, res.status, published, delivered)
      && Outcomes(res.node, res.status, due, published, delivered)
      && res.node.attempted == node.attempted + Ids(due[..published])
      && OnlyShrinks(node, res.node)
      && (res.status == Completed && published == delivered ==> published == |due|)
    decreases |due|, 0
  {
    hide Deliver, Counted, Outcomes, SameCounts;
    RestStaysOnDisk(due, node.pending);
    published, delivered := DeliverCounts(done, due[1..], now, max, io);
    var after := Deliver(done, due[1..], now, max, io);
    CountedBehind(node.counters, done.counters, after.node.counters, after.status, published, delivered);
    OutcomesBehind(after.node, after.status, due, published, delivered);
    assert due[..published + 1] == [due[0]] + due[1..][..published];
    assert Ids(due[..published + 1]) == [due[0].messageId] + Ids(due[1..][..published]);
    published, delivered := published + 1, delivered + 1;
  }

  lemma CountedBehind(a: Counters, middle: Counters, b: Counters, status: Status, published: nat, delivered: nat)
    requires SameCounts(a.(jetstreamPublished := WrappingInc(a.jetstreamPublished)), middle)
    requires Counted(middle, b, status, published, delivered)
    ensures Counted(a, b, status, published + 1, delivered + 1)
  {
    OneMore(a.jetstreamPublished, delivered);
  }

  lemma OutcomesBehind(after: Node, status: Status, due: seq<OutboxRecord>, published: nat, delivered: nat)
    requires due != [] && Outcomes(after, status, due[1..], published, delivered)
    requires CoreOf(due[0]) in after.acknowledged && due[0].messageId !in after.pending
    ensures published <= |due| - 1 && Outcomes(after, status, due, published + 1, delivered + 1)
  {
    assert forall i :: 0 < i < |due| ==> due[i] == due[1..][i - 1];
  }

  lemma {:induction false} ScanCounts(node: Node, records: seq<OutboxRecord>, due: seq<OutboxRecord>,
                                      now: i64, max: u32, io: seq<Fate>)
    requires OnDisk(records, node.pending)
    ensures
      var scan := ScanRecords(node, records, due, now, max, io).res;
      Counted(node.counters, scan.node.counters, scan.status, 0, 0)
    decreases |records|
  {
    hide MoveToDeadLetter;
    OneMore(node.counters.jetstreamPublished, 0);
    if records != [] {
      var r := records[0];
      RestStaysOnDisk(records, node.pending);
      if r.attempts >= max {
        MoveEffect(node, r.messageId, io);
        var moved := MoveToDeadLetter(node, r.messageId, io);
        if moved.status == Completed {
          ScanCounts(moved.node, records[1..], due, now, max, moved.io);
        }
      } else if r.nextAttemptAtMs <= now {
        ScanCounts(node, records[1..], due + [r], now, max, io);
      } else {
        ScanCounts(node, records[1..], due, now, max, io);
      }
    }
  }

  /** One drain: it is deferred exactly when it got through the scan with something due and
      nobody connected; otherwise its counters tell the publishes, of which all due ones
      were acknowledged unless it stopped at a failure. */
  lemma DrainCounts(node: Node, now: i64, max: u32, connected: bool, io: seq<Fate>)
    returns (published: nat, delivered: nat)
    requires Named(node)
    ensures
      var res := DrainLocked(node, now, max, connected, io);
      var due := DueOf(Listing(node.pending), now, max);
      && Outcomes(res.node, res.status, due, published, delivered)
      && res.node.attempted == node.attempted + Ids(due[..published])
      && Counted(node.counters, res.node.counters.(outboxDeferred := node.counters.outboxDeferred), res.status,
                 published, delivered)
      && res.node.counters.outboxDeferred
         == (if res.status == Completed && due != [] && !connected then WrappingInc(node.counters.outboxDeferred)
             else node.counters.outboxDeferred)
      && (connected && res.status == Completed && published == delivered ==> published == |due|)
  {
    hide ScanRecords, Deliver, Listing, DueOf, Counted, Outcomes;
    NothingCounted(node, DueOf(Listing(node.pending), now, max));
    var records := Listing(node.pending);
    var due := DueOf(records, now, max);
    assert due[..0] == [];
    ListingIsOnDisk(records, node.pending);
    ListedExactly(records, node.pending);
    ScanCollectsTheDue(node, records, [], now, max, Rest(io));
    ScanCounts(node, records, [], now, max, Rest(io));
    DueIsSortedAndExact(records, now, max);
    var scan := ScanRecords(node, records, [], now, max, Rest(io));
    published, delivered := 0, 0;
    if Next(io).Works? && scan.res.status == Completed && scan.due != [] && connected {
      assert scan.due == due;
      DueStaysOnDisk(node, scan.res.node, due, max);
      published, delivered := DeliverCounts(scan.res.node, due, now, max, scan.res.io);
      var res := Deliver(scan.res.node, due, now, max, scan.res.io);
      CountedAcross(node.counters, scan.res.node.counters, res.node.counters, res.status, published, delivered);
      AtMostTheDue(res.node, res.status, due, published, delivered);
    } else {
      NotDeferred(node.counters, scan.res.node.counters, scan.res.status, 0, 0);
    }
  }

  lemma NothingCounted(node: Node, due: seq<OutboxRecord>)
    ensures Counted(node.counters, node.counters, Completed, 0, 0)
    ensures Counted(node.counters, node.counters, Crashed, 0, 0)
    ensures Counted(node.counters, PersistFailure(node).counters, Errored, 0, 0)
    ensures forall after, status :: Outcomes(after, status, due, 0, 0)
    ensures due[..0] == [] && Ids([]) == []
  {
    OneMore(node.counters.jetstreamPublished, 0);
  }

  lemma CountedAcross(a: Counters, middle: Counters, b: Counters, status: Status, published: nat, delivered: nat)
    requires Counted(a, middle, Completed, 0, 0) && Counted(middle, b, status, published, delivered)
    ensures Counted(a, b, status, published, delivered) && b.outboxDeferred == a.outboxDeferred
  {
    OneMore(a.jetstreamPublished, 0);
  }

  lemma NotDeferred(a: Counters, b: Counters, status: Status, published: nat, delivered: nat)
    requires Counted(a, b, status, published, delivered)
    ensures b.outboxDeferred == a.outboxDeferred
  {
  }

  lemma AtMostTheDue(after: Node, status: Status, due: seq<OutboxRecord>, published: nat, delivered: nat)
    requires Outcomes(after, status, due, published, delivered)
    ensures published <= |due|
  {
  }

  // ----- a start and a request drain too -----

  /** What a connected drain over `pending` that runs to its end has published: the due
      records in order, all of them unless the last one tried was refused. */
  ghost predicate PublishedTheDue(pending: map<Uuid, OutboxRecord>, before: seq<Uuid>, after: Node, now: i64, max: u32)
    requires WellNamed(pending)
  {
    var due := DueOf(Listing(pending), now, max);
    exists published: nat, delivered: nat ::
      && Outcomes(after, Completed, due, published, delivered)
      && after.attempted == before + Ids(due[..published])
      && (published == delivered ==> published == |due|)
  }

  /** A start of a connected process that runs to its end publishes what is due. */
  lemma StartPublishes(node: Node, now: i64, max: u32, io: seq<Fate>)
    requires Named(node) && Start(node, now, max, true, io).0.status == Completed && Start(node, now, max, true, io).1
    ensures PublishedTheDue(node.pending, node.attempted, Start(node, now, max, true, io).0.node, now, max)
  {
    hide DrainLocked, Outcomes, Counted;
    var ready := Recover(node, io);
    var published, delivered := DrainCounts(ready.node, now, max, true, ready.io);
  }

  /** A request whose drain runs to its end while connected publishes what is due, its own
      event included, which is due at once. */
  lemma RequestPublishes(node: Node, c: Core, now: i64, max: u32, io: seq<Fate>)
    requires Named(node) && PublishEvent(node, NewRecord(c), now, max, true, io).0.status == Completed
    requires c.messageId !in node.pending && max > 0 && now >= 0
    ensures
      var pending := node.pending[c.messageId := NewRecord(c)];
      && WellNamed(pending)
      && NewRecord(c) in DueOf(Listing(pending), now, max)
      && PublishedTheDue(pending, node.attempted, PublishEvent(node, NewRecord(c), now, max, true, io).0.node, now, max)
  {
    hide DrainLocked, PersistRecord, Outcomes, Counted, DueOf;
    var r := NewRecord(c);
    var pending := node.pending[c.messageId := r];
    var persisted := PersistRecord(node, r, io).res;
    PersistEffect(node, r, io);
    PersistIsNamed(node, r, persisted.node);
    var published, delivered := DrainCounts(persisted.node, now, max, true, persisted.io);
    ListedExactly(Listing(pending), pending);
    DueIsSortedAndExact(Listing(pending), now, max);
  }
}
