/** Delivery ends: with nothing new persisted, no crash and no file error, every attempt
    uses up some of a finite budget, whatever the broker answers. */
module OutboxTermination {
  import opened Prelude
  import opened Outbox
  import opened OutboxEffects
  import opened OutboxSafety
  import opened OutboxOrder

  // ----- the budget -----

  /** How many more times a record may be published, plus one for leaving. */
  function Budget(r: OutboxRecord, max: u32): nat {
    if r.attempts < max then max - r.attempts + 1 else 1
  }

  ghost function TotalBudget(pending: map<Uuid, OutboxRecord>, max: u32): nat
    decreases |pending|
  {
    if pending == map[] then 0
    else
      var id :| id in pending;
      Smaller(pending, id);
      Budget(pending[id], max) + TotalBudget(pending - {id}, max)
  }

  lemma {:induction false} BudgetWithout(pending: map<Uuid, OutboxRecord>, id: Uuid, max: u32)
    requires id in pending
    ensures TotalBudget(pending, max) == Budget(pending[id], max) + TotalBudget(pending - {id}, max)
    decreases |pending|
  {
    var first :| first in pending && TotalBudget(pending, max)
                 == Budget(pending[first], max) + TotalBudget(pending - {first}, max);
    if first != id {
      Smaller(pending, first);
      Smaller(pending, id);
      BudgetWithout(pending - {first}, id, max);
      BudgetWithout(pending - {id}, first, max);
      assert pending - {first} - {id} == pending - {id} - {first};
    }
  }

  lemma BudgetRewritten(pending: map<Uuid, OutboxRecord>, r: OutboxRecord, max: u32)
    requires r.messageId in pending
    ensures TotalBudget(pending[r.messageId := r], max)
         == TotalBudget(pending, max) - Budget(pending[r.messageId], max) + Budget(r, max)
  {
    BudgetWithout(pending, r.messageId, max);
    BudgetWithout(pending[r.messageId := r], r.messageId, max);
    assert pending[r.messageId := r] - {r.messageId} == pending - {r.messageId};
  }

  // ----- what publishes cost -----

  function Times(ids: seq<Uuid>, id: Uuid): nat {
    if ids == [] then 0 else Times(ids[..|ids| - 1], id) + if ids[|ids| - 1] == id then 1 else 0
  }

  lemma {:induction false} TimesConcat(a: seq<Uuid>, b: seq<Uuid>, id: Uuid)
    ensures Times(a + b, id) == Times(a, id) + Times(b, id)
  {
    if b == [] {
      assert a + b == a;
    } else {
      TimesConcat(a, b[..|b| - 1], id);
      assert (a + b)[..|a + b| - 1] == a + b[..|b| - 1];
    }
  }

  lemma TimesOne(x: Uuid, id: Uuid)
    ensures Times([x], id) == if id == x then 1 else 0
  {
    assert [x][..0] == [];
  }

  /** How many publishes a file may still cost. */
  function Allowance(pending: map<Uuid, OutboxRecord>, id: Uuid, max: u32): nat {
    if id in pending && pending[id].attempts < max then max - pending[id].attempts else 0
  }

  /** From `a` to `b` at the price of publishing `ids`: the budget has paid for each, the
      attempts of what is left count them, and no record was published beyond its limit. */
  ghost predicate Spent(a: map<Uuid, OutboxRecord>, b: map<Uuid, OutboxRecord>, ids: seq<Uuid>, now: i64, max: u32) {
    && TotalBudget(b, max) + |ids| <= TotalBudget(a, max)
    && (forall id :: id in b ==>
          && id in a
          && b[id].attempts == a[id].attempts + Times(ids, id)
          && (b[id].nextAttemptAtMs == a[id].nextAttemptAtMs
              || b[id].nextAttemptAtMs <= SaturatingAddMs(now, OUTBOX_RETRY_MS)))
    && (forall id :: Times(ids, id) <= Allowance(a, id, max))
  }

  lemma SpentNothing(a: map<Uuid, OutboxRecord>, now: i64, max: u32)
    ensures Spent(a, a, [], now, max)
  {
  }

  lemma SpentChain(a: map<Uuid, OutboxRecord>, b: map<Uuid, OutboxRecord>, c: map<Uuid, OutboxRecord>,
                   first: seq<Uuid>, second: seq<Uuid>, now: i64, later: i64, max: u32)
    requires Spent(a, b, first, now, max) && Spent(b, c, second, later, max) && now <= later
    ensures Spent(a, c, first + second, later, max)
  {
    forall id ensures Times(first + second, id) == Times(first, id) + Times(second, id) {
      TimesConcat(first, second, id);
    }
  }

  lemma SpentOnRemoval(a: map<Uuid, OutboxRecord>, id: Uuid, now: i64, max: u32)
    requires id in a
    ensures Spent(a, a - {id}, [], now, max)
    ensures TotalBudget(a - {id}, max) < TotalBudget(a, max)
    ensures a[id].attempts < max ==> Spent(a, a - {id}, [id], now, max)
  {
    BudgetWithout(a, id, max);
    forall other ensures Times([id], other) == if other == id then 1 else 0 {
      TimesOne(id, other);
    }
  }

  lemma SpentOnRetry(a: map<Uuid, OutboxRecord>, r: OutboxRecord, now: i64, max: u32)
    requires r.messageId in a && a[r.messageId] == r && r.attempts < max
    ensures Spent(a, a[r.messageId := Retried(r, now)], [r.messageId], now, max)
  {
    BudgetRewritten(a, Retried(r, now), max);
    forall other ensures Times([r.messageId], other) == if other == r.messageId then 1 else 0 {
      TimesOne(r.messageId, other);
    }
  }

  // ----- one drain -----

  /** A finished delivery of one record has paid for its publish. */
  lemma FinalizeSpends(node: Node, r: OutboxRecord, acknowledged: bool, now: i64, max: u32, io: seq<Fate>)
    requires r.messageId in node.pending && node.pending[r.messageId] == r && r.attempts < max
    requires FinalizeDelivery(node, r, acknowledged, now, max, io).status == Completed
    ensures Spent(node.pending, FinalizeDelivery(node, r, acknowledged, now, max, io).node.pending,
                  [r.messageId], now, max)
  {
    hide FinalizeDelivery, Spent;
    SpentOnRemoval(node.pending, r.messageId, now, max);
    SpentOnRetry(node.pending, r, now, max);
    if acknowledged {
      AcknowledgedEffect(node, r, now, max, io);
    } else {
      UnacknowledgedEffect(node, r, now, max, io);
      var written := Rewritten(node, Retried(r, now));
      SpentOnRemoval(written.pending, r.messageId, now, max);
      if Retried(r, now).attempts >= max {
        assert written.pending - {r.messageId} == node.pending - {r.messageId};
      }
    }
  }

  lemma {:induction false} DeliverSpends(node: Node, due: seq<OutboxRecord>, now: i64, max: u32, io: seq<Fate>)
    returns (published: seq<Uuid>)
    requires OnDisk(due, node.pending) && forall i :: 0 <= i < |due| ==> due[i].attempts < max
    requires Deliver(node, due, now, max, io).status == Completed
    ensures
      var after := Deliver(node, due, now, max, io).node;
      && after.attempted == node.attempted + published
      && Spent(node.pending, after.pending, published, now, max)
      && (due != [] ==> published != [])
    decreases |due|
  {
    hide FinalizeDelivery, Spent;
    if due == [] {
      published := [];
      SpentNothing(node.pending, now, max);
    } else {
      var r := due[0];
      var stored := match Next(io) case Works => true case Fails(s) => s case Crashes(s) => s;
      var acked := Next(io).Works?;
      var asked := Published(node, r, stored, acked);
      var done := FinalizeDelivery(asked, r, acked, now, max, Rest(io));
      FinalizeSpends(asked, r, acked, now, max, Rest(io));
      FinalizeTouchesOneRecord(asked, r, acked, now, max, Rest(io));
      if acked {
        RestStaysOnDisk(due, node.pending);
        var more := DeliverSpends(done.node, due[1..], now, max, done.io);
        published := [r.messageId] + more;
        SpentChain(node.pending, done.node.pending, Deliver(done.node, due[1..], now, max, done.io).node.pending,
                   [r.messageId], more, now, now, max);
      } else {
        published := [r.messageId];
      }
    }
  }

  lemma {:induction false} ScanSpends(node: Node, records: seq<OutboxRecord>, due: seq<OutboxRecord>,
                                      now: i64, max: u32, io: seq<Fate>)
    requires OnDisk(records, node.pending)
    requires ScanRecords(node, records, due, now, max, io).res.status == Completed
    ensures
      var after := ScanRecords(node, records, due, now, max, io).res.node;
      && Spent(node.pending, after.pending, [], now, max)
      && ((exists i :: 0 <= i < |records| && records[i].attempts >= max) ==>
            TotalBudget(after.pending, max) < TotalBudget(node.pending, max))
    decreases |records|
  {
    hide MoveToDeadLetter, Spent;
    if records == [] {
      SpentNothing(node.pending, now, max);
    } else {
      var r := records[0];
      RestStaysOnDisk(records, node.pending);
      assert forall i :: 0 < i < |records| ==> records[i] == records[1..][i - 1];
      if r.attempts >= max {
        MoveEffect(node, r.messageId, io);
        var moved := MoveToDeadLetter(node, r.messageId, io);
        SpentOnRemoval(node.pending, r.messageId, now, max);
        ScanSpends(moved.node, records[1..], due, now, max, moved.io);
        var after := ScanRecords(moved.node, records[1..], due, now, max, moved.io).res.node;
        SpentChain(node.pending, moved.node.pending, after.pending, [], [], now, now, max);
        SpentIsPaid(moved.node.pending, after.pending, [], now, max);
      } else if r.nextAttemptAtMs <= now {
        ScanSpends(node, records[1..], due + [r], now, max, io);
      } else {
        ScanSpends(node, records[1..], due, now, max, io);
      }
    }
  }

  /** Whether a drain at `now` finds something to do. */
  ghost predicate SomethingToDo(pending: map<Uuid, OutboxRecord>, now: i64, max: u32, connected: bool) {
    exists id :: id in pending && (pending[id].attempts >= max || (connected && pending[id].nextAttemptAtMs <= now))
  }

  /** A drain that runs to its end has paid for what it published, and has spent some of
      the budget whenever there was something to do. */
  lemma DrainSpends(node: Node, now: i64, max: u32, connected: bool, io: seq<Fate>) returns (published: seq<Uuid>)
    requires Named(node) && DrainLocked(node, now, max, connected, io).status == Completed
    ensures
      var after := DrainLocked(node, now, max, connected, io).node;
      && after.attempted == node.attempted + published
      && Spent(node.pending, after.pending, published, now, max)
      && (SomethingToDo(node.pending, now, max, connected) ==>
            TotalBudget(after.pending, max) < TotalBudget(node.pending, max))
  {
    hide ScanRecords, Deliver, Listing, DueOf, Spent;
    var records := Listing(node.pending);
    var due := DueOf(records, now, max);
    ListingIsOnDisk(records, node.pending);
    ListedExactly(records, node.pending);
    var scan := ScanRecords(node, records, [], now, max, Rest(io));
    ScanSpends(node, records, [], now, max, Rest(io));
    ScanCollectsTheDue(node, records, [], now, max, Rest(io));
    DueIsSortedAndExact(records, now, max);
    assert scan.due == due;
    SpentIsPaid(node.pending, scan.res.node.pending, [], now, max);
    published := [];
    if due != [] && connected {
      DueStaysOnDisk(node, scan.res.node, due, max);
      forall i | 0 <= i < |due| ensures due[i].attempts < max {
        assert due[i] in due;
      }
      published := DeliverSpends(scan.res.node, due, now, max, scan.res.io);
      var after := Deliver(scan.res.node, due, now, max, scan.res.io).node;
      SpentChain(node.pending, scan.res.node.pending, after.pending, [], published, now, now, max);
      assert [] + published == published;
      SpentIsPaid(scan.res.node.pending, after.pending, published, now, max);
    }
    if SomethingToDo(node.pending, now, max, connected) {
      SomethingListed(node.pending, records, due, now, max, connected);
    }
  }

  lemma SpentIsPaid(a: map<Uuid, OutboxRecord>, b: map<Uuid, OutboxRecord>, ids: seq<Uuid>, now: i64, max: u32)
    requires Spent(a, b, ids, now, max)
    ensures TotalBudget(b, max) + |ids| <= TotalBudget(a, max)
  {
  }

  lemma SomethingListed(pending: map<Uuid, OutboxRecord>, records: seq<OutboxRecord>, due: seq<OutboxRecord>,
                        now: i64, max: u32, connected: bool)
    requires WellNamed(pending) && SomethingToDo(pending, now, max, connected)
    requires forall r :: r in records <==> r.messageId in pending && pending[r.messageId] == r
    requires forall r :: r in due <==> r in records && r.attempts < max && r.nextAttemptAtMs <= now
    ensures (exists i :: 0 <= i < |records| && records[i].attempts >= max) || (connected && due != [])
  {
    var id :| id in pending && (pending[id].attempts >= max || (connected && pending[id].nextAttemptAtMs <= now));
    assert pending[id] in records;
    if pending[id].attempts < max {
      assert pending[id] in due;
    }
  }

  // ----- many drains -----

  /** One tick of the background loop. */
  datatype Pass = Pass(now: i64, connected: bool, io: seq<Fate>)

  /** The node after a row of background drains and nothing else. */
  ghost function Passes(node: Node, ps: seq<Pass>, max: u32): (after: Node)
    requires Named(node)
    ensures Named(after)
  {
    if ps == [] then node
    else
      var before := Passes(node, ps[..|ps| - 1], max);
      var p := ps[|ps| - 1];
      DrainKeeps(before, p.now, max, p.connected, p.io);
      DrainLocked(before, p.now, max, p.connected, p.io).node
  }

  /** No pass crashed or met a file error. The broker may have answered anything. */
  ghost predicate Quiet(node: Node, ps: seq<Pass>, max: u32)
    requires Named(node)
  {
    ps == [] ||
    (var p := ps[|ps| - 1];
     && Quiet(node, ps[..|ps| - 1], max)
     && DrainLocked(Passes(node, ps[..|ps| - 1], max), p.now, max, p.connected, p.io).status == Completed)
  }

  lemma SpentLater(
      a: map<Uuid, OutboxRecord>, b: map<Uuid, OutboxRecord>, ids: seq<Uuid>, now: i64, later: i64, max: u32)
    requires Spent(a, b, ids, now, max) && now <= later
    ensures Spent(a, b, ids, later, max)
  {
  }

  /** Over any quiet row of drains each record is published at most as often as it had
      attempts left, whoever is connected and whatever is acknowledged; a record still
      waiting has counted exactly its publishes; and all publishes together have been
      paid for out of the budget. */
  lemma {:induction false} PublishesAreBounded(node: Node, ps: seq<Pass>, max: u32) returns (published: seq<Uuid>)
    requires Named(node) && Quiet(node, ps, max)
    ensures
      var after := Passes(node, ps, max);
      && after.attempted == node.attempted + published
      && Spent(node.pending, after.pending, published, 0x7FFF_FFFF_FFFF_FFFF, max)
  {
    hide DrainLocked, Spent;
    if ps == [] {
      published := [];
      SpentNothing(node.pending, 0x7FFF_FFFF_FFFF_FFFF, max);
    } else {
      var p := ps[|ps| - 1];
      var before := Passes(node, ps[..|ps| - 1], max);
      var first := PublishesAreBounded(node, ps[..|ps| - 1], max);
      var last := DrainSpends(before, p.now, max, p.connected, p.io);
      var after := Passes(node, ps, max);
      published := first + last;
      SpentLater(before.pending, after.pending, last, p.now, 0x7FFF_FFFF_FFFF_FFFF, max);
      SpentChain(node.pending, before.pending, after.pending, first, last,
                 0x7FFF_FFFF_FFFF_FFFF, 0x7FFF_FFFF_FFFF_FFFF, max);
    }
  }

  // ----- emptiness -----

  ghost predicate WaitingUntil(pending: map<Uuid, OutboxRecord>, now: i64) {
    forall id :: id in pending ==> pending[id].nextAttemptAtMs <= now
  }

  /** Every pass is connected, the first comes when everything waiting may be retried,
      and each later one at least a retry interval after the one before. */
  ghost predicate Spaced(pending: map<Uuid, OutboxRecord>, ps: seq<Pass>) {
    && (forall i :: 0 <= i < |ps| ==> ps[i].connected)
    && (ps != [] ==> WaitingUntil(pending, ps[0].now))
    && (forall i, j :: 0 <= i < j < |ps| ==> SaturatingAddMs(ps[i].now, OUTBOX_RETRY_MS) <= ps[j].now)
  }

  lemma NoBudgetNoRecords(pending: map<Uuid, OutboxRecord>, max: u32)
    ensures TotalBudget(pending, max) == 0 <==> pending == map[]
  {
    if pending != map[] {
      var id :| id in pending;
      BudgetWithout(pending, id, max);
    }
  }

  lemma StillWaiting(
      a: map<Uuid, OutboxRecord>, b: map<Uuid, OutboxRecord>, ids: seq<Uuid>, now: i64, later: i64, max: u32)
    requires Spent(a, b, ids, now, max) && WaitingUntil(a, now)
    requires SaturatingAddMs(now, OUTBOX_RETRY_MS) <= later && now <= later
    ensures WaitingUntil(b, later)
  {
  }

  /** Each of `n` spaced passes spends until nothing is left. */
  lemma {:induction false} EachPassSpends(node: Node, ps: seq<Pass>, max: u32)
    requires Named(node) && Quiet(node, ps, max) && Spaced(node.pending, ps)
    ensures
      var after := Passes(node, ps, max);
      && (after.pending == map[] || TotalBudget(after.pending, max) + |ps| <= TotalBudget(node.pending, max))
      && (ps != [] ==> forall later: i64 :: SaturatingAddMs(ps[|ps| - 1].now, OUTBOX_RETRY_MS) <= later ==>
            WaitingUntil(after.pending, later))
  {
    hide DrainLocked, Spent;
    if ps != [] {
      var front := ps[..|ps| - 1];
      var p := ps[|ps| - 1];
      var before := Passes(node, front, max);
      EachPassSpends(node, front, max);
      var published := DrainSpends(before, p.now, max, p.connected, p.io);
      var after := Passes(node, ps, max);
      assert WaitingUntil(before.pending, p.now) by {
        if front != [] {
          assert front[|front| - 1] == ps[|ps| - 2];
        }
      }
      if before.pending != map[] {
        var id :| id in before.pending;
        assert SomethingToDo(before.pending, p.now, max, p.connected);
      }
      SpentIsPaid(before.pending, after.pending, published, p.now, max);
      NoBudgetNoRecords(before.pending, max);
      NoBudgetNoRecords(after.pending, max);
      forall later: i64 | SaturatingAddMs(p.now, OUTBOX_RETRY_MS) <= later ensures WaitingUntil(after.pending, later) {
        StillWaiting(before.pending, after.pending, published, p.now, later, max);
      }
    }
  }

  /** Once as many spaced passes have run quietly as the budget allows, the outbox is
      empty: everything was acknowledged or quarantined. */
  lemma EverythingLeavesTheOutbox(node: Node, ps: seq<Pass>, max: u32)
    requires Named(node) && Quiet(node, ps, max) && Spaced(node.pending, ps)
    requires |ps| >= TotalBudget(node.pending, max)
    ensures Passes(node, ps, max).pending == map[]
  {
    hide Passes;
    EachPassSpends(node, ps, max);
    NoBudgetNoRecords(Passes(node, ps, max).pending, max);
  }
}
