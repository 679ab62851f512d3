/** The replay and fan-out buffer of src/event_bus.rs. A task's channel is a function of
    one thing, the events accepted since it was opened; the class keeps it in step. */
module EventBus {
  import opened Prelude

  const REPLAY_CAP := 2000

  /** An event after sanitizing; `kind` is empty when the event has none. */
  datatype Event = Event(kind: string, body: string)

  datatype StoredEvent = StoredEvent(seqNo: i64, event: Event)

  predicate IsDone(s: StoredEvent) {
    s.event.kind == "done"
  }

  /** `TaskChannel`; the broadcast sender is represented by all it has sent. */
  datatype TaskChannel = TaskChannel(history: seq<StoredEvent>, seqs: set<i64>, sent: seq<StoredEvent>, done: bool)

  datatype Subscription = Subscription(history: seq<StoredEvent>, receiver: nat, done: bool)

  // ----- what a channel is -----

  predicate AnyDone(sent: seq<StoredEvent>) {
    exists i :: 0 <= i < |sent| && IsDone(sent[i])
  }

  predicate HasSeq(sent: seq<StoredEvent>, n: i64) {
    exists i :: 0 <= i < |sent| && sent[i].seqNo == n
  }

  /** No sequence number twice. */
  predicate Distinct(sent: seq<StoredEvent>) {
    forall i, j :: 0 <= i < j < |sent| ==> sent[i].seqNo != sent[j].seqNo
  }

  /** The events a late subscriber can still be given. */
  function Retained(sent: seq<StoredEvent>): seq<StoredEvent> {
    if |sent| > REPLAY_CAP then sent[|sent| - REPLAY_CAP..] else sent
  }

  /** The events after a sequence number, in order. */
  function Above(events: seq<StoredEvent>, after: i64): seq<StoredEvent> {
    if events == [] then []
    else Above(events[..|events| - 1], after) +
         if events[|events| - 1].seqNo > after then [events[|events| - 1]] else []
  }

  /** The channel that has accepted exactly `sent`. */
  ghost predicate IsChannelOf(ch: TaskChannel, sent: seq<StoredEvent>) {
    && ch.sent == sent
    && ch.history == Retained(sent)
    && (forall n: i64 :: n in ch.seqs <==> HasSeq(sent, n))
    && (ch.done <==> AnyDone(sent))
    && Distinct(sent)
  }

  /** What the bus has accepted per task since the task's channel was opened. */
  type Log = map<string, seq<StoredEvent>>

  function SentTo(log: Log, task: string): seq<StoredEvent> {
    if task in log then log[task] else []
  }

  /** Whether `emit` takes an event; an exact duplicate is dropped. */
  predicate Accepts(log: Log, task: string, s: StoredEvent) {
    !HasSeq(SentTo(log, task), s.seqNo)
  }

  function Emitted(log: Log, task: string, s: StoredEvent): Log {
    if Accepts(log, task, s) then log[task := SentTo(log, task) + [s]] else log
  }

  ghost predicate ValidLog(log: Log) {
    forall task :: task in log ==> Distinct(log[task])
  }

  lemma EmittedIsValid(log: Log, task: string, s: StoredEvent)
    requires ValidLog(log)
    ensures ValidLog(Emitted(log, task, s))
  {
  }

  // ----- the bus -----

  class EventBus {
    var tasks: map<string, TaskChannel>
    var emitted: u64

    ghost predicate Valid()
      reads this
    {
      forall task :: task in tasks ==> IsChannelOf(tasks[task], tasks[task].sent)
    }

    ghost function View(): (log: Log)
      reads this
    {
      map task | task in tasks :: tasks[task].sent
    }

    constructor ()
      ensures Valid() && View() == map[] && emitted == 0
    {
      tasks := map[];
      emitted := 0;
    }

    /** `emit` up to its side channels, which start exactly when it returns true. */
    method Emit(taskId: string, stored: StoredEvent) returns (accepted: bool)
      requires Valid()
      modifies this
      ensures Valid()
      ensures accepted == Accepts(old(View()), taskId, stored)
      ensures View() == Emitted(old(View()), taskId, stored)
      ensures emitted == if accepted then WrappingInc(old(emitted)) else old(emitted)
    {
      hide Retained, AnyDone, Distinct, HasSeq;
      NothingSent();
      var ch := if taskId in tasks then tasks[taskId] else TaskChannel([], {}, [], false);
      ghost var sent := ch.sent;
      if stored.seqNo in ch.seqs {
        return false;
      }
      ch := ch.(seqs := ch.seqs + {stored.seqNo});
      ch := ch.(history := ch.history + [stored]);
      if |ch.history| > REPLAY_CAP {
        var overflow := |ch.history| - REPLAY_CAP;
        ch := ch.(history := ch.history[overflow..]);
      }
      ch := ch.(sent := ch.sent + [stored]);
      if stored.event.kind == "done" {
        ch := ch.(done := true);
      }
      OneMore(sent, stored);
      OneMoreIsDistinct(sent, stored);
      assert IsChannelOf(ch, sent + [stored]);
      hide IsChannelOf;
      tasks := tasks[taskId := ch];
      emitted := WrappingInc(emitted);
      return true;
    }

    /** `subscribe`: the retained events after a sequence number, a receiver placed behind
        everything sent so far, and whether the task was already done. */
    method Subscribe(taskId: string, after: i64) returns (sub: Option<Subscription>)
      requires Valid()
      ensures sub.None? <==> taskId !in View()
      ensures sub.Some? ==> sub.value == Subscribed(View()[taskId], after)
    {
      if taskId !in tasks {
        return None;
      }
      var ch := tasks[taskId];
      return Some(Subscription(Above(ch.history, after), |ch.sent|, ch.done));
    }

    /** `gc_task`. */
    method GcTask(taskId: string)
      requires Valid()
      modifies this
      ensures Valid()
      ensures View() == old(View()) - {taskId}
      ensures emitted == old(emitted)
    {
      tasks := tasks - {taskId};
    }
  }

  function Subscribed(sent: seq<StoredEvent>, after: i64): Subscription {
    Subscription(Above(Retained(sent), after), |sent|, AnyDone(sent))
  }

  lemma OneMore(sent: seq<StoredEvent>, s: StoredEvent)
    ensures forall n: i64 :: HasSeq(sent + [s], n) <==> HasSeq(sent, n) || n == s.seqNo
    ensures AnyDone(sent + [s]) <==> AnyDone(sent) || IsDone(s)
    ensures Retained(sent + [s])
         == if |Retained(sent)| + 1 > REPLAY_CAP
            then (Retained(sent) + [s])[|Retained(sent)| + 1 - REPLAY_CAP..]
            else Retained(sent) + [s]
  {
    hide HasSeq, AnyDone, Retained;
    forall n: i64 ensures HasSeq(sent + [s], n) <==> HasSeq(sent, n) || n == s.seqNo {
      OneMoreNumber(sent, s, n);
    }
    OneMoreDone(sent, s);
    OneMoreRetained(sent, s);
  }

  lemma OneMoreNumber(sent: seq<StoredEvent>, s: StoredEvent, n: i64)
    ensures HasSeq(sent + [s], n) <==> HasSeq(sent, n) || n == s.seqNo
  {
    var more := sent + [s];
    assert more[|sent|] == s;
    if i :| 0 <= i < |sent| && sent[i].seqNo == n {
      assert more[i].seqNo == n;
    }
  }

  lemma OneMoreDone(sent: seq<StoredEvent>, s: StoredEvent)
    ensures AnyDone(sent + [s]) <==> AnyDone(sent) || IsDone(s)
  {
    var more := sent + [s];
    assert more[|sent|] == s;
    if i :| 0 <= i < |sent| && IsDone(sent[i]) {
      assert IsDone(more[i]);
    }
  }

  lemma OneMoreRetained(sent: seq<StoredEvent>, s: StoredEvent)
    ensures Retained(sent + [s])
         == if |Retained(sent)| + 1 > REPLAY_CAP
            then (Retained(sent) + [s])[|Retained(sent)| + 1 - REPLAY_CAP..]
            else Retained(sent) + [s]
  {
  }

  lemma OneMoreIsDistinct(sent: seq<StoredEvent>, s: StoredEvent)
    requires Distinct(sent) && !HasSeq(sent, s.seqNo)
    ensures Distinct(sent + [s])
  {
  }

  lemma NothingSent()
    ensures IsChannelOf(TaskChannel([], {}, [], false), [])
  {
  }
}
