/** What one drain does to which records, in which order, whatever fails or crashes. */
module OutboxOrder {
  import opened Prelude
  import opened Outbox
  import opened OutboxEffects

  function Ids(records: seq<OutboxRecord>): seq<Uuid> {
    if records == [] then [] else [records[0].messageId] + Ids(records[1..])
  }

  /** The records of a listing that are due: under the limit and past their next attempt. */
  function DueOf(records: seq<OutboxRecord>, now: i64, max: u32): seq<OutboxRecord> {
    if records == [] then []
    else if records[0].attempts < max && records[0].nextAttemptAtMs <= now then
      [records[0]] + DueOf(records[1..], now, max)
    else DueOf(records[1..], now, max)
  }

  /** Both directories have the same thing, or nothing, under `id`. */
  ghost predicate SameFiles(a: Node, b: Node, id: Uuid) {
    && (id in a.pending <==> id in b.pending)
    && (id in a.pending ==> a.pending[id] == b.pending[id])
    && (id in a.dead <==> id in b.dead)
    && (id in a.dead ==> a.dead[id] == b.dead[id])
  }

  /** The record has used up its attempts. */
  predicate AtTheLimit(node: Node, id: Uuid, max: u32) {
    id in node.pending && node.pending[id].attempts >= max
  }

  /** The record was acknowledged and its file removed; nothing was quarantined. */
  ghost predicate Delivered(before: Node, after: Node, r: OutboxRecord) {
    && CoreOf(r) in after.acknowledged
    && r.messageId !in after.pending
    && (r.messageId in before.dead <==> r.messageId in after.dead)
    && (r.messageId in before.dead ==> before.dead[r.messageId] == after.dead[r.messageId])
  }

  /** What the last publish of a drain may leave: the record delivered, untouched by a
      failure before its file changed, retried once more, or, at the limit, quarantined. */
  ghost predicate LastOutcome(before: Node, after: Node, r: OutboxRecord, now: i64, max: u32) {
    || Delivered(before, after, r)
    || SameFiles(before, after, r.messageId)
    || SameFiles(Rewritten(before, Retried(r, now)), after, r.messageId)
    || (Retried(r, now).attempts >= max
        && SameFiles(Quarantined(Rewritten(before, Retried(r, now)), r.messageId), after, r.messageId))
  }

  /** The account of publishing the first `k` of `due`: all but the last of them were
      acknowledged and removed, the last was delivered, untouched, retried once or, at the
      limit, quarantined; nothing else was acknowledged. */
  ghost predicate PublishedPrefix(before: Node, after: Node, due: seq<OutboxRecord>, k: nat, now: i64, max: u32) {
    && k <= |due|
    && after.attempted == before.attempted + Ids(due[..k])
    && (forall i :: 0 <= i < k - 1 ==> Delivered(before, after, due[i]))
    && (k > 0 ==> LastOutcome(before, after, due[k - 1], now, max))
    && OnlyTheseAcknowledged(before.acknowledged, after.acknowledged, due[..k])
  }

  /** The delivery loop leaves every other file as it was. */
  ghost predicate AttemptedPrefix(before: Node, after: Node, due: seq<OutboxRecord>, k: nat, now: i64, max: u32) {
    && PublishedPrefix(before, after, due, k, now, max)
    && forall id :: id !in Ids(due[..k]) ==> SameFiles(before, after, id)
  }

  ghost predicate OnlyTheseAcknowledged(before: set<Core>, after: set<Core>, records: seq<OutboxRecord>) {
    && before <= after
    && (forall c :: c in after && c !in before ==> exists i :: 0 <= i < |records| && c == CoreOf(records[i]))
  }

  lemma AcknowledgedInFront(before: set<Core>, after: set<Core>, first: OutboxRecord, rest: seq<OutboxRecord>)
    requires OnlyTheseAcknowledged(before + {CoreOf(first)}, after, rest)
    ensures OnlyTheseAcknowledged(before, after, [first] + rest)
  {
    forall c | c in after && c !in before
      ensures exists i :: 0 <= i < |[first] + rest| && c == CoreOf(([first] + rest)[i])
    {
      if c == CoreOf(first) {
        assert c == CoreOf(([first] + rest)[0]);
      } else {
        var i :| 0 <= i < |rest| && c == CoreOf(rest[i]);
        assert c == CoreOf(([first] + rest)[i + 1]);
      }
    }
  }

  lemma {:induction false} InIds(records: seq<OutboxRecord>, id: Uuid)
    ensures id in Ids(records) <==> exists i :: 0 <= i < |records| && records[i].messageId == id
  {
    if records != [] {
      InIds(records[1..], id);
      if exists i :: 0 <= i < |records| && records[i].messageId == id {
        var i :| 0 <= i < |records| && records[i].messageId == id;
        if i > 0 {
          assert records[1..][i - 1].messageId == id;
        }
      }
      if id in Ids(records[1..]) {
        var i :| 0 <= i < |records[1..]| && records[1..][i].messageId == id;
        assert records[i + 1].messageId == id;
      }
    }
  }

  lemma OneAttempt(before: Node, after: Node, due: seq<OutboxRecord>, now: i64, max: u32)
    requires due != [] && OnDisk(due, before.pending)
    requires after.attempted == before.attempted + [due[0].messageId]
    requires LastOutcome(before, after, due[0], now, max)
    requires forall id :: id != due[0].messageId ==> SameFiles(before, after, id)
    requires after.acknowledged == before.acknowledged || after.acknowledged == before.acknowledged + {CoreOf(due[0])}
    ensures AttemptedPrefix(before, after, due, 1, now, max)
  {
    assert due[..1] == [due[0]];
    assert Ids(due[..1]) == [due[0].messageId];
    assert due[..1][0] == due[0];
  }

  /** `middle` is `before` with the first record acknowledged and removed. */
  ghost predicate FirstDelivered(before: Node, middle: Node, r: OutboxRecord) {
    && middle.attempted == before.attempted + [r.messageId]
    && middle.acknowledged == before.acknowledged + {CoreOf(r)}
    && middle.pending == before.pending - {r.messageId} && middle.dead == before.dead
  }

  lemma OutcomeAcrossTheFirst(
      before: Node, middle: Node, after: Node, first: OutboxRecord, r: OutboxRecord, now: i64, max: u32)
    requires FirstDelivered(before, middle, first) && r.messageId != first.messageId
    ensures LastOutcome(middle, after, r, now, max) ==> LastOutcome(before, after, r, now, max)
    ensures Delivered(middle, after, r) ==> Delivered(before, after, r)
  {
    hide Retried;
  }

  /** One acknowledged record in front of a loop over the rest. */
  lemma OneMoreInFront(before: Node, middle: Node, after: Node, due: seq<OutboxRecord>, k: nat, now: i64, max: u32)
    requires due != [] && OnDisk(due, before.pending)
    requires FirstDelivered(before, middle, due[0])
    requires AttemptedPrefix(middle, after, due[1..], k, now, max)
    ensures AttemptedPrefix(before, after, due, k + 1, now, max)
  {
    hide Retried, LastOutcome;
    var rest := due[1..];
    assert due[..k + 1] == [due[0]] + rest[..k];
    assert Ids(due[..k + 1]) == [due[0].messageId] + Ids(rest[..k]);
    InIds(rest[..k], due[0].messageId);
    assert SameFiles(middle, after, due[0].messageId);
    assert Delivered(before, after, due[0]);
    forall i | 0 < i <= k
      ensures LastOutcome(middle, after, due[i], now, max) ==> LastOutcome(before, after, due[i], now, max)
      ensures Delivered(middle, after, due[i]) ==> Delivered(before, after, due[i])
    {
      OutcomeAcrossTheFirst(before, middle, after, due[0], due[i], now, max);
    }
    forall i | 0 <= i < k ensures Delivered(before, after, due[i]) {
      if i > 0 {
        assert Delivered(middle, after, rest[i - 1]);
      }
    }
    if k > 0 {
      assert due[k] == rest[k - 1];
    } else {
      DeliveredIsAnOutcome(before, after, due[0], now, max);
    }
    AcknowledgedInFront(before.acknowledged, after.acknowledged, due[0], rest[..k]);
  }

  lemma DeliveredIsAnOutcome(before: Node, after: Node, r: OutboxRecord, now: i64, max: u32)
    requires Delivered(before, after, r)
    ensures LastOutcome(before, after, r, now, max)
  {
  }

  lemma FinalizeTouchesOneRecord(node: Node, r: OutboxRecord, acknowledged: bool, now: i64, max: u32, io: seq<Fate>)
    requires r.messageId in node.pending && node.pending[r.messageId] == r
    requires acknowledged ==> CoreOf(r) in node.acknowledged
    ensures
      var d := FinalizeDelivery(node, r, acknowledged, now, max, io);
      && d.node.attempted == node.attempted && d.node.acknowledged == node.acknowledged
      && LastOutcome(node, d.node, r, now, max)
      && (forall id :: id != r.messageId ==> SameFiles(node, d.node, id))
      && (acknowledged && d.status == Completed ==>
            d.node.pending == node.pending - {r.messageId} && d.node.dead == node.dead)
  {
    hide FinalizeDelivery;
    if acknowledged {
      AcknowledgedEffect(node, r, now, max, io);
    } else {
      UnacknowledgedEffect(node, r, now, max, io);
    }
  }

  lemma {:induction false} DeliverAttemptsAPrefix(
    node: Node, due: seq<OutboxRecord>, now: i64, max: u32, io: seq<Fate>) returns (k: nat)
    requires OnDisk(due, node.pending)
    ensures AttemptedPrefix(node, Deliver(node, due, now, max, io).node, due, k, now, max)
    decreases |due|
  {
    hide FinalizeDelivery, AttemptedPrefix;
    if due == [] {
      NothingAttempted(node, due, now, max);
      k := 0;
    } else {
      var r := due[0];
      var stored := match Next(io) case Works => true case Fails(s) => s case Crashes(s) => s;
      var acked := Next(io).Works?;
      var asked := Published(node, r, stored, acked);
      if Next(io).Crashes? {
        OneAttempt(node, asked, due, now, max);
        k := 1;
      } else {
        FinalizeTouchesOneRecord(asked, r, acked, now, max, Rest(io));
        var done := FinalizeDelivery(asked, r, acked, now, max, Rest(io));
        if acked && done.status == Completed {
          RestStaysOnDisk(due, node.pending);
          var k' := DeliverAttemptsAPrefix(done.node, due[1..], now, max, done.io);
          OneMoreInFront(node, done.node, Deliver(done.node, due[1..], now, max, done.io).node, due, k', now, max);
          k := k' + 1;
        } else {
          var after := Deliver(node, due, now, max, io).node;
          assert after == done.node.(counters := after.counters);
          SameOutcome(node, asked, done.node, after, r, now, max);
          OneAttempt(node, after, due, now, max);
          k := 1;
        }
      }
    }
  }

  lemma NothingAttempted(node: Node, due: seq<OutboxRecord>, now: i64, max: u32)
    ensures AttemptedPrefix(node, node, due, 0, now, max)
  {
  }

  /** Asking the broker and counting do not touch files. */
  lemma SameOutcome(node: Node, asked: Node, done: Node, after: Node, r: OutboxRecord, now: i64, max: u32)
    requires asked.pending == node.pending && asked.dead == node.dead
    requires after == done.(counters := after.counters)
    requires LastOutcome(asked, done, r, now, max)
    requires forall id :: id != r.messageId ==> SameFiles(asked, done, id)
    ensures LastOutcome(node, after, r, now, max)
    ensures forall id :: id != r.messageId ==> SameFiles(node, after, id)
  {
    forall id | id != r.messageId ensures SameFiles(node, after, id) {
      assert SameFiles(asked, done, id);
    }
  }

  // ----- the scan -----

  lemma QuarantineTouchesOne(node: Node, id: Uuid)
    requires id in node.pending
    ensures forall other :: other != id ==> SameFiles(node, Quarantined(node, id), other)
  {
  }

  /** The scan collects exactly the due records, in order, and touches only records at
      the limit. */
  lemma {:induction false} ScanCollectsTheDue(node: Node, records: seq<OutboxRecord>, due: seq<OutboxRecord>,
                                              now: i64, max: u32, io: seq<Fate>)
    requires OnDisk(records, node.pending)
    ensures
      var scan := ScanRecords(node, records, due, now, max, io);
      && scan.res.node.attempted == node.attempted
      && scan.res.node.acknowledged == node.acknowledged
      && scan.res.node.broker == node.broker
      && (scan.res.status == Completed ==> scan.due == due + DueOf(records, now, max))
      && forall id :: !AtTheLimit(node, id, max) ==> SameFiles(node, scan.res.node, id)
    decreases |records|
  {
    hide MoveToDeadLetter;
    if records != [] {
      var r := records[0];
      RestStaysOnDisk(records, node.pending);
      if r.attempts >= max {
        MoveEffect(node, r.messageId, io);
        QuarantineTouchesOne(node, r.messageId);
        var moved := MoveToDeadLetter(node, r.messageId, io);
        if moved.status == Completed {
          ScanCollectsTheDue(moved.node, records[1..], due, now, max, moved.io);
        }
        var scan := ScanRecords(node, records, due, now, max, io);
        forall id | !AtTheLimit(node, id, max)
          ensures SameFiles(node, scan.res.node, id)
        {
          assert id != r.messageId;
          assert SameFiles(node, moved.node, id);
          assert !AtTheLimit(moved.node, id, max);
        }
      } else if r.nextAttemptAtMs <= now {
        ScanCollectsTheDue(node, records[1..], due + [r], now, max, io);
        assert due + [r] + DueOf(records[1..], now, max) == due + DueOf(records, now, max);
      } else {
        ScanCollectsTheDue(node, records[1..], due, now, max, io);
      }
    }
  }

  lemma {:induction false} DueIsSortedAndExact(records: seq<OutboxRecord>, now: i64, max: u32)
    requires forall i, j :: 0 <= i < j < |records| ==> Before(records[i], records[j])
    ensures
      var due := DueOf(records, now, max);
      && (forall i, j :: 0 <= i < j < |due| ==> Before(due[i], due[j]))
      && (forall r :: r in due <==> r in records && r.attempts < max && r.nextAttemptAtMs <= now)
  {
    if records != [] {
      var rest := DueOf(records[1..], now, max);
      DueIsSortedAndExact(records[1..], now, max);
      forall r | r in rest ensures Before(records[0], r) {
        var i :| 0 <= i < |records[1..]| && records[1..][i] == r;
        assert Before(records[0], records[i + 1]);
      }
    }
  }

  // ----- the whole drain -----

  /** The drain leaves every other file as it was, except for records at the limit. */
  ghost predicate DrainedPrefix(before: Node, after: Node, due: seq<OutboxRecord>, k: nat, now: i64, max: u32) {
    && PublishedPrefix(before, after, due, k, now, max)
    && forall id :: !AtTheLimit(before, id, max) && id !in Ids(due[..k]) ==> SameFiles(before, after, id)
  }

  /** One drain, under any failures and crashes. Due are exactly the records under the
      limit and past their next attempt, in order of (created_at_ms, message_id); the
      records published, and with them the acknowledged ones, are a prefix of these. */
  lemma DrainInOrder(node: Node, now: i64, max: u32, connected: bool, io: seq<Fate>) returns (k: nat)
    requires WellNamed(node.pending)
    ensures
      var due := DueOf(Listing(node.pending), now, max);
      && (forall i, j :: 0 <= i < j < |due| ==>
            || due[i].createdAtMs < due[j].createdAtMs
            || (due[i].createdAtMs == due[j].createdAtMs && due[i].messageId < due[j].messageId))
      && (forall r :: r in due <==>
            && r.messageId in node.pending && node.pending[r.messageId] == r
            && r.attempts < max && r.nextAttemptAtMs <= now)
      && DrainedPrefix(node, DrainLocked(node, now, max, connected, io).node, due, k, now, max)
  {
    hide ScanRecords, Deliver, Listing, AttemptedPrefix, DrainedPrefix;
    var records := Listing(node.pending);
    var due := DueOf(records, now, max);
    var after := DrainLocked(node, now, max, connected, io).node;
    ListingIsOnDisk(records, node.pending);
    DueIsSortedAndExact(records, now, max);
    ListedExactly(records, node.pending);
    ScanCollectsTheDue(node, records, [], now, max, Rest(io));
    var scan := ScanRecords(node, records, [], now, max, Rest(io));
    k := 0;
    if Next(io).Works? && scan.res.status == Completed && scan.due != [] && connected {
      assert scan.due == due;
      DueStaysOnDisk(node, scan.res.node, due, max);
      k := DeliverAttemptsAPrefix(scan.res.node, due, now, max, scan.res.io);
      AcrossTheScan(node, scan.res.node, after, due, k, now, max);
    } else {
      NothingDelivered(node, after, due, now, max);
    }
  }

  lemma NothingDelivered(before: Node, after: Node, due: seq<OutboxRecord>, now: i64, max: u32)
    requires after.attempted == before.attempted && after.acknowledged == before.acknowledged
    requires forall id :: !AtTheLimit(before, id, max) ==> SameFiles(before, after, id)
    ensures DrainedPrefix(before, after, due, 0, now, max)
  {
    assert due[..0] == [];
  }

  lemma ListedExactly(records: seq<OutboxRecord>, files: map<Uuid, OutboxRecord>)
    requires WellNamed(files) && IsListing(records, files)
    ensures forall r :: r in records <==> r.messageId in files && files[r.messageId] == r
  {
  }

  lemma DueStaysOnDisk(node: Node, scanned: Node, due: seq<OutboxRecord>, max: u32)
    requires forall i, j :: 0 <= i < j < |due| ==> Before(due[i], due[j])
    requires forall r :: r in due ==> r.messageId in node.pending && node.pending[r.messageId] == r && r.attempts < max
    requires forall id :: !AtTheLimit(node, id, max) ==> SameFiles(node, scanned, id)
    ensures OnDisk(due, scanned.pending)
  {
    forall i | 0 <= i < |due|
      ensures due[i].messageId in scanned.pending && scanned.pending[due[i].messageId] == due[i]
    {
      assert due[i] in due;
      assert SameFiles(node, scanned, due[i].messageId);
    }
    forall i, j | 0 <= i < j < |due| ensures due[i].messageId != due[j].messageId {
      assert Before(due[i], due[j]) && due[i] in due && due[j] in due;
    }
  }

  lemma AcrossTheScan(node: Node, scanned: Node, after: Node, due: seq<OutboxRecord>, k: nat, now: i64, max: u32)
    requires AttemptedPrefix(scanned, after, due, k, now, max)
    requires scanned.attempted == node.attempted && scanned.acknowledged == node.acknowledged
    requires forall r :: r in due ==> r.messageId in node.pending && node.pending[r.messageId] == r && r.attempts < max
    requires forall id :: !AtTheLimit(node, id, max) ==> SameFiles(node, scanned, id)
    ensures DrainedPrefix(node, after, due, k, now, max)
  {
    forall i | 0 <= i < k - 1 ensures Delivered(node, after, due[i]) {
      assert due[i] in due && Delivered(scanned, after, due[i]);
      assert SameFiles(node, scanned, due[i].messageId);
    }
    if k > 0 {
      assert due[k - 1] in due;
      assert SameFiles(node, scanned, due[k - 1].messageId);
    }
    forall id | !AtTheLimit(node, id, max) && id !in Ids(due[..k])
      ensures SameFiles(node, after, id)
    {
      assert SameFiles(node, scanned, id) && SameFiles(scanned, after, id);
    }
  }

  // ----- records at the limit -----

  ghost predicate InQuarantine(node: Node, id: Uuid) {
    id !in node.pending && id in node.dead
  }

  /** A scan that gets through has quarantined every listed record at the limit. */
  lemma {:induction false} ScanQuarantinesTheExhausted(node: Node, records: seq<OutboxRecord>, due: seq<OutboxRecord>,
                                                       now: i64, max: u32, io: seq<Fate>)
    requires OnDisk(records, node.pending)
    requires ScanRecords(node, records, due, now, max, io).res.status == Completed
    ensures
      var after := ScanRecords(node, records, due, now, max, io).res.node;
      && (forall r :: r in records && r.attempts >= max ==> InQuarantine(after, r.messageId))
      && (forall id :: InQuarantine(node, id) ==> InQuarantine(after, id))
    decreases |records|
  {
    hide MoveToDeadLetter;
    if records != [] {
      var r := records[0];
      RestStaysOnDisk(records, node.pending);
      if r.attempts >= max {
        MoveEffect(node, r.messageId, io);
        var moved := MoveToDeadLetter(node, r.messageId, io);
        ScanQuarantinesTheExhausted(moved.node, records[1..], due, now, max, moved.io);
      } else if r.nextAttemptAtMs <= now {
        ScanQuarantinesTheExhausted(node, records[1..], due + [r], now, max, io);
      } else {
        ScanQuarantinesTheExhausted(node, records[1..], due, now, max, io);
      }
      forall other | other in records && other.attempts >= max
        ensures InQuarantine(ScanRecords(node, records, due, now, max, io).res.node, other.messageId)
      {
        if other != r {
          var i :| 0 <= i < |records| && records[i] == other;
          assert records[1..][i - 1] == other;
        }
      }
    }
  }

  /** A record already at the limit is never published again, whatever happens; a drain
      that runs to its end has quarantined it, even when a crash once fell between the
      write that reached the limit and the move. */
  lemma AtTheLimitOnlyQuarantined(node: Node, now: i64, max: u32, connected: bool, io: seq<Fate>, id: Uuid)
    returns (published: seq<Uuid>)
    requires WellNamed(node.pending) && AtTheLimit(node, id, max)
    ensures DrainLocked(node, now, max, connected, io).node.attempted == node.attempted + published
    ensures id !in published
    ensures DrainLocked(node, now, max, connected, io).status == Completed ==>
              InQuarantine(DrainLocked(node, now, max, connected, io).node, id)
  {
    hide DrainLocked, Listing;
    var due := DueOf(Listing(node.pending), now, max);
    var k := DrainInOrder(node, now, max, connected, io);
    published := Ids(due[..k]);
    InIds(due[..k], id);
    forall i | 0 <= i < k ensures due[..k][i].messageId != id {
      assert due[i] in due;
    }
    if DrainLocked(node, now, max, connected, io).status == Completed {
      ExhaustedLeaves(node, now, max, connected, io, id);
    }
  }

  lemma QuarantineSurvivesDelivery(node: Node, due: seq<OutboxRecord>, now: i64, max: u32, io: seq<Fate>, id: Uuid)
    requires OnDisk(due, node.pending) && InQuarantine(node, id)
    ensures InQuarantine(Deliver(node, due, now, max, io).node, id)
  {
    hide Deliver;
    var k := DeliverAttemptsAPrefix(node, due, now, max, io);
    InIds(due[..k], id);
    assert SameFiles(node, Deliver(node, due, now, max, io).node, id);
  }

  lemma ExhaustedLeaves(node: Node, now: i64, max: u32, connected: bool, io: seq<Fate>, id: Uuid)
    requires WellNamed(node.pending) && AtTheLimit(node, id, max)
    requires DrainLocked(node, now, max, connected, io).status == Completed
    ensures InQuarantine(DrainLocked(node, now, max, connected, io).node, id)
  {
    hide ScanRecords, Deliver, Listing, DueOf;
    var records := Listing(node.pending);
    var due := DueOf(records, now, max);
    ListingIsOnDisk(records, node.pending);
    ListedExactly(records, node.pending);
    assert node.pending[id] in records;
    var scan := ScanRecords(node, records, [], now, max, Rest(io));
    ScanQuarantinesTheExhausted(node, records, [], now, max, Rest(io));
    if scan.due != [] && connected {
      DueIsSortedAndExact(records, now, max);
      ScanCollectsTheDue(node, records, [], now, max, Rest(io));
      assert scan.due == due;
      DueStaysOnDisk(node, scan.res.node, due, max);
      QuarantineSurvivesDelivery(scan.res.node, due, now, max, scan.res.io, id);
    }
  }
}
