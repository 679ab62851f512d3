/** From acceptance on the bus to storage at the broker, in one run of one worker and its
    restarts: what the two guards against duplicates, the bus and the idempotency key,
    give together, and where they stop. */
module EventDelivery {
  import opened Prelude
  import opened DeliveryKeys
  import Bus = EventBus
  import opened Outbox
  import opened OutboxEffects
  import opened OutboxSafety
  import opened OutboxBroker

  // ----- one worker: its bus, its spawned publishers, its outbox -----

  /** What is fixed for a worker: the outbox limit and subject, the tenant scoping of keys,
      and how an event becomes the payload of an envelope. */
  datatype Config = Config(
    max: u32,
    subject: string,
    scope: string -> string,
    encode: (string, Bus.StoredEvent, Uuid) -> Payload)

  datatype Accepted = Accepted(task: string, stored: Bus.StoredEvent)

  /** An emit, a collection, the publisher spawned by the emit at position `emit` getting
      its turn with a new envelope, a background drain, and a (re)start of the process. */
  datatype SysOp =
    | Emit(task: string, stored: Bus.StoredEvent)
    | Collect(task: string)
    | Hand(emit: nat, messageId: Uuid, createdAtMs: i64, now: i64, connected: bool, io: seq<Fate>)
    | Drain(now: i64, connected: bool, io: seq<Fate>)
    | Restart(now: i64, connected: bool, io: seq<Fate>)

  /** The bus, the publishers that have not had their turn, the outbox with its process,
      and two histories: the emits accepted, by position in the run, and the envelopes
      handed to the outbox for them. */
  datatype System = System(
    log: Bus.Log,
    spawned: set<nat>,
    world: World,
    accepted: map<nat, Accepted>,
    handed: map<nat, Core>)

  const NEW_SYSTEM := System(map[], {}, NOTHING_YET, map[], map[])

  function KeyOf(a: Accepted): string {
    Key(a.task, a.stored.seqNo)
  }

  function EnvelopeOf(cfg: Config, a: Accepted, messageId: Uuid, createdAtMs: i64): Core {
    Core(messageId, cfg.subject, cfg.scope(KeyOf(a)), cfg.encode(a.task, a.stored, messageId), createdAtMs)
  }

  /** The outbox operation an operation of the worker amounts to, if any. */
  function OutboxOp(cfg: Config, s: System, op: SysOp): Option<Op> {
    match op
    case Hand(k, id, at, now, connected, io) =>
      if s.world.up && k in s.spawned && k in s.accepted
      then Some(Publish(EnvelopeOf(cfg, s.accepted[k], id, at), now, connected, io)) else None
    case Drain(now, connected, io) => if s.world.up then Some(Tick(now, connected, io)) else None
    case Restart(now, connected, io) => Some(Boot(now, connected, io))
    case _ => None
  }

  predicate Accepts(s: System, op: SysOp) {
    op.Emit? && s.world.up && Bus.Accepts(s.log, op.task, op.stored)
  }

  /** The `n`th operation. Nothing happens on the bus of a process that is down, and a
      restart begins with an empty bus and no publishers. */
  ghost function SysStep(cfg: Config, s: System, op: SysOp, n: nat): System
    requires WellNamed(s.world.node.pending)
  {
    var outbox := OutboxOp(cfg, s, op);
    System(
      match op
      case Emit(task, stored) => if s.world.up then Bus.Emitted(s.log, task, stored) else s.log
      case Collect(task) => if s.world.up then s.log - {task} else s.log
      case Restart(_, _, _) => map[]
      case _ => s.log,
      if op.Restart? then {} else if Accepts(s, op) then s.spawned + {n}
      else if outbox.Some? && op.Hand? then s.spawned - {op.emit} else s.spawned,
      if outbox.Some? then Step(s.world, outbox.value, cfg.max) else s.world,
      if Accepts(s, op) then s.accepted[n := Accepted(op.task, op.stored)] else s.accepted,
      if outbox.Some? && op.Hand? then s.handed[op.emit := outbox.value.envelope] else s.handed)
  }

  ghost function SystemAfter(cfg: Config, ops: seq<SysOp>): (s: System)
    ensures Named(s.world.node)
  {
    if ops == [] then NEW_SYSTEM
    else
      var before := SystemAfter(cfg, ops[..|ops| - 1]);
      var op := ops[|ops| - 1];
      var outbox := OutboxOp(cfg, before, op);
      assert outbox.Some? ==> Named(Step(before.world, outbox.value, cfg.max).node) by {
        if outbox.Some? {
          StepKeeps(before.world, outbox.value, cfg.max);
        }
      }
      SysStep(cfg, before, op, |ops| - 1)
  }

  lemma OneMoreStep(cfg: Config, ops: seq<SysOp>, op: SysOp)
    ensures SystemAfter(cfg, ops + [op]) == SysStep(cfg, SystemAfter(cfg, ops), op, |ops|)
  {
    assert (ops + [op])[..|ops|] == ops;
  }

  // ----- the outbox inside the worker -----

  /** The outbox operations of a run. */
  ghost function OutboxPart(cfg: Config, ops: seq<SysOp>): seq<Op> {
    if ops == [] then []
    else
      var front := ops[..|ops| - 1];
      OutboxPart(cfg, front) + AtTheOutbox(cfg, SystemAfter(cfg, front), ops[|ops| - 1])
  }

  /** While the process runs, a drain is a tick of the outbox and a publisher that gets its
      turn publishes its event; a restart always boots the outbox; nothing else reaches it. */
  function AtTheOutbox(cfg: Config, s: System, op: SysOp): seq<Op> {
    match op
    case Hand(k, id, at, now, connected, io) =>
      if !s.world.up || k !in s.spawned || k !in s.accepted then []
      else
        var a := s.accepted[k];
        [Publish(Core(id, cfg.subject, cfg.scope(Key(a.task, a.stored.seqNo)), cfg.encode(a.task, a.stored, id), at),
                 now, connected, io)]
    case Drain(now, connected, io) => if s.world.up then [Tick(now, connected, io)] else []
    case Restart(now, connected, io) => [Boot(now, connected, io)]
    case Emit(_, _) => []
    case Collect(_) => []
  }

  lemma AtTheOutboxIs(cfg: Config, s: System, op: SysOp)
    ensures
      var outbox := OutboxOp(cfg, s, op);
      AtTheOutbox(cfg, s, op) == if outbox.Some? then [outbox.value] else []
  {
  }

  /** The worker's outbox runs as the outbox alone would. */
  lemma {:induction false} OutboxRunsInside(cfg: Config, ops: seq<SysOp>)
    ensures SystemAfter(cfg, ops).world == Run(OutboxPart(cfg, ops), cfg.max)
  {
    if ops != [] {
      var front, op := ops[..|ops| - 1], ops[|ops| - 1];
      OutboxRunsInside(cfg, front);
      var outbox := OutboxOp(cfg, SystemAfter(cfg, front), op);
      AtTheOutboxIs(cfg, SystemAfter(cfg, front), op);
      hide Step, OutboxOp, AtTheOutbox;
      if outbox.Some? {
        var part := OutboxPart(cfg, front);
        assert (part + [outbox.value])[..|part|] == part;
      } else {
        assert OutboxPart(cfg, front) + [] == OutboxPart(cfg, front);
      }
    }
  }

  ghost predicate IsHanded(s: System, c: Core) {
    exists k :: k in s.handed && s.handed[k] == c
  }

  /** The envelope carries the event on the worker's subject under the scoped key. */
  ghost predicate Carries(cfg: Config, c: Core, a: Accepted) {
    && c.subject == cfg.subject && c.dedupId == cfg.scope(Key(a.task, a.stored.seqNo))
    && c.payload == cfg.encode(a.task, a.stored, c.messageId)
  }

  /** Every envelope at the outbox is that of an accepted emit, under its scoped key. */
  ghost predicate HandedForAccepted(cfg: Config, s: System) {
    && (forall k :: k in s.spawned ==> k in s.accepted && k !in s.handed)
    && (forall k :: k in s.handed ==> k in s.accepted && Carries(cfg, s.handed[k], s.accepted[k]))
  }

  lemma HandedStep(cfg: Config, s: System, op: SysOp, n: nat)
    requires Named(s.world.node) && HandedForAccepted(cfg, s)
    requires forall k :: k in s.accepted ==> k < n
    ensures
      var next := SysStep(cfg, s, op, n);
      && HandedForAccepted(cfg, next)
      && (forall k :: k in next.accepted ==> k < n + 1)
      && (forall c :: IsHanded(next, c)
            <==> IsHanded(s, c) || (OutboxOp(cfg, s, op).Some? && op.Hand? && OutboxOp(cfg, s, op).value.envelope == c))
  {
    hide Step, Key;
    var next := SysStep(cfg, s, op, n);
    forall c | IsHanded(s, c) ensures IsHanded(next, c) {
      var k :| k in s.handed && s.handed[k] == c;
      assert k in next.handed && next.handed[k] == c;
    }
    var outbox := OutboxOp(cfg, s, op);
    if outbox.Some? && op.Hand? {
      assert next.handed[op.emit] == outbox.value.envelope;
    }
  }

  lemma {:induction false} EnvelopesAreHanded(cfg: Config, ops: seq<SysOp>)
    ensures HandedForAccepted(cfg, SystemAfter(cfg, ops))
    ensures forall k :: k in SystemAfter(cfg, ops).accepted ==> k < |ops|
    ensures forall c :: c in Envelopes(OutboxPart(cfg, ops)) <==> IsHanded(SystemAfter(cfg, ops), c)
  {
    if ops != [] {
      var front, op := ops[..|ops| - 1], ops[|ops| - 1];
      EnvelopesAreHanded(cfg, front);
      var s := SystemAfter(cfg, front);
      hide SysStep, HandedForAccepted, IsHanded;
      HandedStep(cfg, s, op, |front|);
      var part, outbox := OutboxPart(cfg, front), OutboxOp(cfg, s, op);
      AtTheOutboxIs(cfg, s, op);
      if outbox.Some? {
        assert (part + [outbox.value])[..|part|] == part;
      } else {
        assert part + [] == part;
      }
    }
  }

  // ----- acceptance -----

  /** Whether a number was emitted for a task since the bus last forgot the task. */
  ghost predicate EmittedSince(cfg: Config, ops: seq<SysOp>, task: string, n: i64) {
    ops != [] &&
    var front := ops[..|ops| - 1];
    var up := SystemAfter(cfg, front).world.up;
    match ops[|ops| - 1]
    case Emit(t, stored) => (up && t == task && stored.seqNo == n) || EmittedSince(cfg, front, task, n)
    case Collect(t) => !(up && t == task) && EmittedSince(cfg, front, task, n)
    case Restart(_, _, _) => false
    case _ => EmittedSince(cfg, front, task, n)
  }

  lemma {:induction false} BusHoldsWhatWasEmitted(cfg: Config, ops: seq<SysOp>, task: string, n: i64)
    ensures Bus.HasSeq(Bus.SentTo(SystemAfter(cfg, ops).log, task), n) <==> EmittedSince(cfg, ops, task, n)
  {
    hide Step, OutboxOp;
    if ops != [] {
      var front := ops[..|ops| - 1];
      BusHoldsWhatWasEmitted(cfg, front, task, n);
      if ops[|ops| - 1].Emit? {
        var stored := ops[|ops| - 1].stored;
        BusHoldsWhatWasEmitted(cfg, front, task, stored.seqNo);
        Bus.OneMore(Bus.SentTo(SystemAfter(cfg, front).log, task), stored);
      }
    }
  }

  /** An emit of a running process is accepted exactly when its number was not emitted for
      its task since the bus last forgot the task. */
  lemma AcceptedExactlyOncePerEntry(cfg: Config, ops: seq<SysOp>, op: SysOp)
    requires op.Emit?
    ensures |ops| in SystemAfter(cfg, ops + [op]).accepted
            <==> SystemAfter(cfg, ops).world.up && !EmittedSince(cfg, ops, op.task, op.stored.seqNo)
  {
    hide Step, OutboxOp;
    OneMoreStep(cfg, ops, op);
    EnvelopesAreHanded(cfg, ops);
    BusHoldsWhatWasEmitted(cfg, ops, op.task, op.stored.seqNo);
  }

  /** Operations that do not make the bus forget `task`. */
  predicate KeepsEntry(ops: seq<SysOp>, task: string) {
    forall i :: 0 <= i < |ops| ==> !ops[i].Restart? && (ops[i].Collect? ==> ops[i].task != task)
  }

  /** Accepted emits are what they were, and only the last operation adds one. */
  lemma AcceptedStep(cfg: Config, ops: seq<SysOp>)
    requires ops != []
    ensures
      var front, op := ops[..|ops| - 1], ops[|ops| - 1];
      var before, after := SystemAfter(cfg, front), SystemAfter(cfg, ops);
      && (forall k :: k in after.accepted && k != |front| ==> k in before.accepted)
      && (forall k :: k in before.accepted ==> k in after.accepted && after.accepted[k] == before.accepted[k])
      && (|front| in after.accepted ==> Accepts(before, op) && after.accepted[|front|] == Accepted(op.task, op.stored))
  {
    hide Step, OutboxOp, Accepts;
    EnvelopesAreHanded(cfg, ops[..|ops| - 1]);
  }

  lemma {:induction false} StaysEmitted(cfg: Config, ops: seq<SysOp>, p: nat)
    requires p in SystemAfter(cfg, ops).accepted && p < |ops|
    requires KeepsEntry(ops[p..], SystemAfter(cfg, ops).accepted[p].task)
    ensures
      var a := SystemAfter(cfg, ops).accepted[p];
      EmittedSince(cfg, ops, a.task, a.stored.seqNo)
  {
    var front, op := ops[..|ops| - 1], ops[|ops| - 1];
    AcceptedStep(cfg, ops);
    hide SysStep;
    assert ops[p..][|ops| - 1 - p] == op;
    if p < |front| {
      var a := SystemAfter(cfg, ops).accepted[p];
      assert front[p..] == ops[p..][..|front| - p];
      StaysEmitted(cfg, front, p);
    }
  }

  /** While a task's entry is kept, no number of it is accepted twice. */
  lemma {:induction false} AcceptedOnceWhileKept(cfg: Config, ops: seq<SysOp>, p: nat, q: nat)
    requires p < q < |ops|
    requires p in SystemAfter(cfg, ops).accepted && q in SystemAfter(cfg, ops).accepted
    requires KeyOf(SystemAfter(cfg, ops).accepted[p]) == KeyOf(SystemAfter(cfg, ops).accepted[q])
    ensures !KeepsEntry(ops[p..q], SystemAfter(cfg, ops).accepted[p].task)
  {
    var front := ops[..|ops| - 1];
    AcceptedStep(cfg, ops);
    hide SysStep, Key;
    if q < |front| {
      assert front[p..q] == ops[p..q];
      AcceptedOnceWhileKept(cfg, front, p, q);
    } else {
      var a, b := SystemAfter(cfg, ops).accepted[p], SystemAfter(cfg, ops).accepted[q];
      KeyIsInjective(a.task, a.stored.seqNo, b.task, b.stored.seqNo);
      BusHoldsWhatWasEmitted(cfg, front, a.task, a.stored.seqNo);
      assert front[p..] == ops[p..q];
      if KeepsEntry(ops[p..q], a.task) {
        StaysEmitted(cfg, front, p);
      }
    }
  }

  /** No other emit of the same task and number was accepted. */
  predicate OnlyAcceptance(s: System, k: nat)
    requires k in s.accepted
  {
    forall q :: q in s.accepted && KeyOf(s.accepted[q]) == KeyOf(s.accepted[k]) ==> q == k
  }

  /** All emits of a number of a task lie within one lifetime of the task's entry. */
  predicate InOneLifetime(ops: seq<SysOp>, task: string, n: i64, from: nat, to: nat) {
    && from <= to <= |ops|
    && KeepsEntry(ops[from..to], task)
    && (forall i :: 0 <= i < |ops| && ops[i].Emit? && ops[i].task == task && ops[i].stored.seqNo == n
          ==> from <= i < to)
  }

  lemma {:induction false} AcceptedAreEmits(cfg: Config, ops: seq<SysOp>, k: nat)
    requires k in SystemAfter(cfg, ops).accepted
    ensures k < |ops| && ops[k].Emit?
    ensures SystemAfter(cfg, ops).accepted[k] == Accepted(ops[k].task, ops[k].stored)
  {
    EnvelopesAreHanded(cfg, ops);
    AcceptedStep(cfg, ops);
    hide SysStep;
    if k < |ops| - 1 {
      AcceptedAreEmits(cfg, ops[..|ops| - 1], k);
    }
  }

  /** Whatever restarts and collections come before and after, one lifetime of the task's
      entry around the emits of a number accepts it once. */
  lemma OneLifetimeOneAcceptance(cfg: Config, ops: seq<SysOp>, k: nat, from: nat, to: nat)
    requires k in SystemAfter(cfg, ops).accepted
    requires
      var a := SystemAfter(cfg, ops).accepted[k];
      InOneLifetime(ops, a.task, a.stored.seqNo, from, to)
    ensures OnlyAcceptance(SystemAfter(cfg, ops), k)
  {
    hide Key, SystemAfter;
    var s := SystemAfter(cfg, ops);
    var a := s.accepted[k];
    AcceptedAreEmits(cfg, ops, k);
    forall q | q in s.accepted && KeyOf(s.accepted[q]) == KeyOf(a) ensures q == k {
      var b := s.accepted[q];
      AcceptedAreEmits(cfg, ops, q);
      KeyIsInjective(a.task, a.stored.seqNo, b.task, b.stored.seqNo);
      if q != k {
        var low, high := if q < k then q else k, if q < k then k else q;
        KeptInBetween(ops, from, to, low, high, a.task);
        AcceptedOnceWhileKept(cfg, ops, low, high);
      }
    }
  }

  lemma KeptInBetween(ops: seq<SysOp>, from: nat, to: nat, p: nat, q: nat, task: string)
    requires from <= p <= q <= to <= |ops| && KeepsEntry(ops[from..to], task)
    ensures KeepsEntry(ops[p..q], task)
  {
    assert forall i :: 0 <= i < q - p ==> ops[p..q][i] == ops[from..to][p - from + i];
  }

  // ----- storage -----

  predicate ScopedAlike(scope: string -> string, a: string, b: string) {
    scope(a) == scope(b)
  }

  ghost predicate Injective(scope: string -> string) {
    forall a, b :: ScopedAlike(scope, a, b) ==> a == b
  }

  ghost predicate OnlyItself(broker: seq<Delivery>, c: Core) {
    forall i :: 0 <= i < |broker| && broker[i].dedupId == c.dedupId ==> broker[i] == MessageOf(c)
  }

  /** An envelope whose event was accepted once has its key to itself. */
  lemma OnlyAcceptanceOwnKey(cfg: Config, s: System, k: nat, c: Core)
    requires Injective(cfg.scope) && HandedForAccepted(cfg, s) && k in s.handed && k in s.accepted
    requires OnlyAcceptance(s, k) && IsHanded(s, c) && c.dedupId == s.handed[k].dedupId
    ensures c == s.handed[k]
  {
    hide Key;
    var q :| q in s.handed && s.handed[q] == c;
    assert ScopedAlike(cfg.scope, KeyOf(s.accepted[q]), KeyOf(s.accepted[k]));
  }

  /** Over every run of a worker, with crashes anywhere, restarts, collections, lost
      acknowledgements and redelivery after a restart: the envelope of an accepted emit
      carries its scoped key, the broker stores that key at most once, and, if the emit is
      the only accepted one of its task and number, an acknowledged envelope is stored
      exactly once and as itself. */
  lemma EachAcceptedEventIsStoredAtMostOnce(cfg: Config, ops: seq<SysOp>, k: nat)
    requires Injective(cfg.scope) && k in SystemAfter(cfg, ops).handed
    ensures
      var s := SystemAfter(cfg, ops);
      var c := s.handed[k];
      && k in s.accepted && c.dedupId == cfg.scope(KeyOf(s.accepted[k]))
      && Copies(s.world.node.broker, c.dedupId) <= 1
      && (OnlyAcceptance(s, k) ==>
            && OnlyItself(s.world.node.broker, c)
            && (c in s.world.node.acknowledged ==> Copies(s.world.node.broker, c.dedupId) == 1))
  {
    hide SystemAfter, Run, Sound, Injective, HandedForAccepted, KeyOf, OnlyAcceptance;
    var s, part := SystemAfter(cfg, ops), OutboxPart(cfg, ops);
    var c := s.handed[k];
    EnvelopesAreHanded(cfg, ops);
    HandedMeans(cfg, s, k);
    OutboxRunsInside(cfg, ops);
    StoredAtMostOnce(part, cfg.max, c);
    RunIsSound(part, cfg.max);
    if OnlyAcceptance(s, k) {
      OnlyItsMessage(cfg, s, Envelopes(part), k);
    }
  }

  lemma HandedMeans(cfg: Config, s: System, k: nat)
    requires HandedForAccepted(cfg, s) && k in s.handed
    ensures k in s.accepted && s.handed[k].dedupId == cfg.scope(KeyOf(s.accepted[k])) && IsHanded(s, s.handed[k])
  {
  }

  lemma OnlyItsMessage(cfg: Config, s: System, envelopes: set<Core>, k: nat)
    requires Injective(cfg.scope) && HandedForAccepted(cfg, s) && k in s.handed && k in s.accepted
    requires OnlyAcceptance(s, k) && Sound(s.world.node, envelopes)
    requires forall c :: c in envelopes <==> IsHanded(s, c)
    ensures OnlyItself(s.world.node.broker, s.handed[k])
  {
    hide HandedForAccepted, Injective, OnlyAcceptance;
    var broker, c := s.world.node.broker, s.handed[k];
    forall i | 0 <= i < |broker| && broker[i].dedupId == c.dedupId ensures broker[i] == MessageOf(c) {
      assert FromSome(broker[i], envelopes);
      var d :| d in envelopes && broker[i] == MessageOf(d);
      OnlyAcceptanceOwnKey(cfg, s, k, d);
    }
  }

  /** In particular for every event all of whose emits fall into one lifetime of its task's
      entry: what restarts and collections happen before and after does not matter. */
  lemma EventsOfOneLifetimeAreStoredAsThemselves(cfg: Config, ops: seq<SysOp>, k: nat, from: nat, to: nat)
    requires Injective(cfg.scope)
    requires k in SystemAfter(cfg, ops).handed && k < |ops| && ops[k].Emit?
    requires InOneLifetime(ops, ops[k].task, ops[k].stored.seqNo, from, to)
    ensures
      var node := SystemAfter(cfg, ops).world.node;
      var c := SystemAfter(cfg, ops).handed[k];
      && OnlyItself(node.broker, c)
      && (c in node.acknowledged ==> Copies(node.broker, c.dedupId) == 1)
  {
    hide SystemAfter, Injective, OnlyItself, OnlyAcceptance;
    EachAcceptedEventIsStoredAtMostOnce(cfg, ops, k);
    AcceptedAreEmits(cfg, ops, k);
    OneLifetimeOneAcceptance(cfg, ops, k, from, to);
  }

  // ----- keys that come again -----

  /** What a caller can check before an acknowledged publish: the broker remembers no other
      message under the record's key. Exactly then is the message there afterwards. */
  lemma AcknowledgedIsStoredExactlyWhen(node: Node, r: OutboxRecord)
    requires DistinctIds(node.broker)
    ensures MessageOf(CoreOf(r)) in Published(node, r, true, true).broker <==> OnlyItself(node.broker, CoreOf(r))
  {
    var m, after := MessageOf(CoreOf(r)), Published(node, r, true, true).broker;
    if Remembered(node.broker, r.dedupId) {
      var i :| 0 <= i < |node.broker| && node.broker[i].dedupId == r.dedupId;
      assert after == node.broker;
      forall j | 0 <= j < |node.broker| && node.broker[j].dedupId == r.dedupId ensures j == i {
      }
      assert m in after <==> after[i] == m;
      assert OnlyItself(node.broker, CoreOf(r)) <==> node.broker[i] == m;
    } else {
      assert after == node.broker + [m];
      assert after[|node.broker|] == m;
      assert OnlyItself(node.broker, CoreOf(r));
    }
  }

  /** Operations that make the bus forget a task and, on an empty outbox, do no more. */
  predicate QuietlyForgets(op: SysOp, task: string) {
    op == Collect(task) || op == FIRST_RESTART
  }

  /** A worker whose process is up with nothing waiting. */
  ghost predicate Idle(s: System) {
    s.world.up && s.world.node.pending == map[]
  }

  lemma QuietEmit(cfg: Config, s: System, task: string, stored: Bus.StoredEvent, n: nat)
    requires Named(s.world.node) && Idle(s) && task !in s.log
    ensures
      var next := SysStep(cfg, s, Emit(task, stored), n);
      && next == s.(log := s.log[task := [stored]], spawned := s.spawned + {n},
                    accepted := s.accepted[n := Accepted(task, stored)])
  {
    assert [] + [stored] == [stored];
  }

  lemma QuietHand(cfg: Config, s: System, k: nat, id: Uuid, n: nat)
    requires Named(s.world.node) && Idle(s) && k in s.spawned && k in s.accepted && cfg.max > 0
    ensures
      var next := SysStep(cfg, s, Hand(k, id, 0, 0, true, AllWork(PUBLISH_CALLS)), n);
      var c := EnvelopeOf(cfg, s.accepted[k], id, 0);
      && Idle(next)
      && next.log == s.log && next.spawned == s.spawned - {k}
      && next.accepted == s.accepted && next.handed == s.handed[k := c]
      && next.world.node.broker == Store(s.world.node.broker, NewRecord(c))
      && next.world.node.acknowledged == s.world.node.acknowledged + {c}
  {
    hide PublishEvent, EnvelopeOf, Store;
    QuietPublish(s.world.node, EnvelopeOf(cfg, s.accepted[k], id, 0), cfg.max);
  }

  lemma QuietForget(cfg: Config, s: System, op: SysOp, task: string, n: nat)
    requires Named(s.world.node) && Idle(s) && QuietlyForgets(op, task)
    ensures
      var next := SysStep(cfg, s, op, n);
      && Idle(next) && task !in next.log && next.accepted == s.accepted && next.handed == s.handed
      && next.world.node.broker == s.world.node.broker
      && next.world.node.acknowledged == s.world.node.acknowledged
  {
    hide Start;
    QuietStart(Rebooted(s.world.node), cfg.max);
  }

  const FIRST_RESTART := Restart(0, false, AllWork(START_CALLS))

  lemma FirstRestart(cfg: Config)
    ensures
      var s := SystemAfter(cfg, [FIRST_RESTART]);
      Idle(s) && s.log == map[] && s.world.node.broker == []
  {
    hide Start;
    assert [FIRST_RESTART][..0] == [];
    QuietStart(Rebooted(EMPTY), cfg.max);
  }

  /** An event emitted as operation `n`, handed on as the next, everything working. */
  function Life(n: nat, task: string, stored: Bus.StoredEvent, id: Uuid): seq<SysOp> {
    [Emit(task, stored), Hand(n, id, 0, 0, true, AllWork(PUBLISH_CALLS))]
  }

  lemma LifeOfAnEvent(cfg: Config, ops: seq<SysOp>, task: string, stored: Bus.StoredEvent, id: Uuid)
    requires Idle(SystemAfter(cfg, ops)) && task !in SystemAfter(cfg, ops).log && cfg.max > 0
    ensures
      var s := SystemAfter(cfg, ops);
      var next := SystemAfter(cfg, ops + Life(|ops|, task, stored, id));
      var c := EnvelopeOf(cfg, Accepted(task, stored), id, 0);
      && Idle(next) && next.handed == s.handed[|ops| := c]
      && next.world.node.broker == Store(s.world.node.broker, NewRecord(c))
      && next.world.node.acknowledged == s.world.node.acknowledged + {c}
  {
    hide SysStep, SystemAfter, EnvelopeOf, Store;
    var emit, hand := Emit(task, stored), Hand(|ops|, id, 0, 0, true, AllWork(PUBLISH_CALLS));
    OneMoreStep(cfg, ops, emit);
    QuietEmit(cfg, SystemAfter(cfg, ops), task, stored, |ops|);
    OneMoreStep(cfg, ops + [emit], hand);
    QuietHand(cfg, SystemAfter(cfg, ops + [emit]), |ops|, id, |ops| + 1);
    assert ops + Life(|ops|, task, stored, id) == ops + [emit] + [hand];
  }

  /** A whole run from nothing: the bus forgets the task between two events of one number. */
  function TwoLives(task: string, first: Bus.StoredEvent, forget: SysOp, second: Bus.StoredEvent): seq<SysOp> {
    [FIRST_RESTART] + Life(1, task, first, 1) + [forget] + Life(4, task, second, 2)
  }

  lemma StoredFirst(r: OutboxRecord, again: OutboxRecord)
    requires r.dedupId == again.dedupId
    ensures Store([], r) == [MessageOf(CoreOf(r))] && Store(Store([], r), again) == Store([], r)
  {
    assert Store([], r)[0].dedupId == again.dedupId;
  }

  /** Collected or restarted in between, the key comes again: the second event is accepted,
      handed on and acknowledged, and the broker holds the first one only. */
  lemma ForgottenKeysSwallowEvents(
    cfg: Config, task: string, first: Bus.StoredEvent, forget: SysOp, second: Bus.StoredEvent)
    requires cfg.max > 0 && first.seqNo == second.seqNo && QuietlyForgets(forget, task)
    requires cfg.encode(task, first, 1) != cfg.encode(task, second, 2)
    ensures
      var s := SystemAfter(cfg, TwoLives(task, first, forget, second));
      && 1 in s.handed && s.handed[1] == EnvelopeOf(cfg, Accepted(task, first), 1, 0)
      && 4 in s.handed && s.handed[4] == EnvelopeOf(cfg, Accepted(task, second), 2, 0)
      && s.handed[1] in s.world.node.acknowledged && s.handed[4] in s.world.node.acknowledged
      && s.world.node.broker == [MessageOf(s.handed[1])]
      && MessageOf(s.handed[4]) != MessageOf(s.handed[1])
  {
    hide SysStep, SystemAfter, Key, Store, Life;
    var c, d := EnvelopeOf(cfg, Accepted(task, first), 1, 0), EnvelopeOf(cfg, Accepted(task, second), 2, 0);
    var one := [FIRST_RESTART] + Life(1, task, first, 1);
    assert |one| == 3 by { LifeLength(1, task, first, 1); }
    FirstRestart(cfg);
    LifeOfAnEvent(cfg, [FIRST_RESTART], task, first, 1);
    OneMoreStep(cfg, one, forget);
    QuietForget(cfg, SystemAfter(cfg, one), forget, task, |one|);
    LifeOfAnEvent(cfg, one + [forget], task, second, 2);
    StoredFirst(NewRecord(c), NewRecord(d));
  }

  lemma LifeLength(n: nat, task: string, stored: Bus.StoredEvent, id: Uuid)
    ensures |Life(n, task, stored, id)| == 2
  {
  }
}
