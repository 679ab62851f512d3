/** Reclaiming finished tasks (src/state.rs): the task map, the sessions and the event bus
    let go of exactly the same tasks. */
module AppState {
  import opened Prelude
  import Bus = EventBus

  datatype TaskState = TaskState(sessionId: string, finished: bool, finishedAt: Option<i64>)

  datatype ThreadSession = ThreadSession(taskIds: seq<string>, runningTaskId: Option<string>)

  /** Finished before the cutoff. */
  predicate Expired(task: TaskState, cutoff: int) {
    task.finished && task.finishedAt.Some? && task.finishedAt.value < cutoff
  }

  function ExpiredIds(tasks: map<string, TaskState>, cutoff: int): set<string> {
    set id | id in tasks && Expired(tasks[id], cutoff)
  }

  /** A list without certain entries, the others in order. */
  function Without(ids: seq<string>, gone: set<string>): seq<string> {
    if ids == [] then []
    else Without(ids[..|ids| - 1], gone) + if ids[|ids| - 1] in gone then [] else [ids[|ids| - 1]]
  }

  function OfSession(tasks: map<string, TaskState>, ids: set<string>, sessionId: string): set<string> {
    set id | id in ids && id in tasks && tasks[id].sessionId == sessionId
  }

  /** Each session without those of `gone` that belong to it. */
  function Detached(sessions: map<string, ThreadSession>, tasks: map<string, TaskState>, gone: set<string>)
    : map<string, ThreadSession>
  {
    map s | s in sessions :: sessions[s].(taskIds := Without(sessions[s].taskIds, OfSession(tasks, gone, s)))
  }

  predicate InUse(session: ThreadSession) {
    session.taskIds != [] || session.runningTaskId.Some?
  }

  function UsedOnly(sessions: map<string, ThreadSession>): map<string, ThreadSession> {
    map s | s in sessions && InUse(sessions[s]) :: sessions[s]
  }

  lemma {:induction false} WithoutTwice(ids: seq<string>, a: set<string>, b: set<string>)
    ensures Without(Without(ids, a), b) == Without(ids, a + b)
  {
    if ids != [] {
      var front, last := ids[..|ids| - 1], ids[|ids| - 1];
      WithoutTwice(front, a, b);
      if last in a {
        assert Without(ids, a) == Without(front, a);
      } else {
        assert Without(ids, a)[..|Without(ids, a)| - 1] == Without(front, a);
      }
    }
  }

  lemma {:induction false} WithoutNone(ids: seq<string>)
    ensures Without(ids, {}) == ids
  {
    if ids != [] {
      WithoutNone(ids[..|ids| - 1]);
    }
  }

  lemma {:induction false} WithoutKeepsTheRest(ids: seq<string>, gone: set<string>, id: string)
    ensures id in Without(ids, gone) <==> id in ids && id !in gone
  {
    if ids != [] {
      var front := ids[..|ids| - 1];
      WithoutKeepsTheRest(front, gone, id);
      assert ids == front + [ids[|ids| - 1]];
    }
  }

  lemma DetachedNone(sessions: map<string, ThreadSession>, tasks: map<string, TaskState>)
    ensures Detached(sessions, tasks, {}) == sessions
  {
    forall s | s in sessions ensures Detached(sessions, tasks, {})[s] == sessions[s] {
      assert OfSession(tasks, {}, s) == {};
      WithoutNone(sessions[s].taskIds);
    }
  }

  function WithoutTask(sessions: map<string, ThreadSession>, own: string, id: string): map<string, ThreadSession> {
    if own in sessions then sessions[own := sessions[own].(taskIds := Without(sessions[own].taskIds, {id}))]
    else sessions
  }

  /** Detaching one more task touches its own session only. */
  lemma DetachedOneMore(
      sessions: map<string, ThreadSession>, tasks: map<string, TaskState>, gone: set<string>, id: string)
    requires id in tasks
    ensures
      var before := Detached(sessions, tasks, gone);
      var own := tasks[id].sessionId;
      Detached(sessions, tasks, gone + {id}) == WithoutTask(before, own, id)
  {
    var own := tasks[id].sessionId;
    forall s | s in sessions
      ensures Detached(sessions, tasks, gone + {id})[s].taskIds
           == if s == own then Without(Without(sessions[s].taskIds, OfSession(tasks, gone, s)), {id})
              else Without(sessions[s].taskIds, OfSession(tasks, gone, s))
    {
      if s == own {
        assert OfSession(tasks, gone + {id}, s) == OfSession(tasks, gone, s) + {id};
        WithoutTwice(sessions[s].taskIds, OfSession(tasks, gone, s), {id});
      } else {
        assert OfSession(tasks, gone + {id}, s) == OfSession(tasks, gone, s);
      }
    }
  }

  function Removed<V>(m: map<string, V>, gone: set<string>): map<string, V> {
    m - gone
  }

  lemma RemovedTogether<V>(m: map<string, V>, gone: set<string>, id: string)
    ensures Removed(m, gone) - {id} == Removed(m, gone + {id})
    ensures Removed(m, {}) == m
    ensures Removed(m, gone) == m - gone
    ensures id in m && id !in gone ==> id in Removed(m, gone)
  {
  }

  lemma SameTask<V>(m: map<string, V>, gone: set<string>, id: string)
    requires id in m && id !in gone
    ensures id in Removed(m, gone) && Removed(m, gone)[id] == m[id]
  {
  }

  class AppState {
    var tasks: map<string, TaskState>
    var sessions: map<string, ThreadSession>
    const bus: Bus.EventBus

    constructor (bus: Bus.EventBus)
      ensures this.bus == bus && tasks == map[] && sessions == map[]
    {
      this.bus := bus;
      tasks, sessions := map[], map[];
    }

    /** One task leaves the task map, its session's list and the bus. */
    method Reclaim(id: string)
      requires id in tasks && bus.Valid()
      modifies this, bus
      ensures bus.Valid() && bus.View() == old(bus.View()) - {id}
      ensures tasks == old(tasks) - {id}
      ensures sessions == WithoutTask(old(sessions), old(tasks)[id].sessionId, id)
    {
      hide Without, Bus.IsChannelOf;
      var own := tasks[id].sessionId;
      tasks := tasks - {id};
      if own in sessions {
        sessions := sessions[own := sessions[own].(taskIds := Without(sessions[own].taskIds, {id}))];
      }
      bus.GcTask(id);
    }

    /** The loop over the expired tasks. */
    method ReclaimAll(expired: set<string>)
      requires expired <= tasks.Keys && bus.Valid()
      modifies this, bus
      ensures bus.Valid() && bus.View() == old(bus.View()) - expired
      ensures tasks == old(tasks) - expired
      ensures sessions == Detached(old(sessions), old(tasks), expired)
    {
      ghost var before, log := tasks, bus.View();
      ghost var gone: set<string> := {};
      var rest := expired;
      DetachedNone(sessions, tasks);
      RemovedTogether(before, {}, "");
      RemovedTogether(log, {}, "");
      hide Detached, WithoutTask, Removed, Bus.EventBus.Valid, Bus.EventBus.View;
      while rest != {}
        invariant rest + gone == expired && rest !! gone
        invariant bus.Valid()
        invariant tasks == Removed(before, gone) && bus.View() == Removed(log, gone)
        invariant sessions == Detached(old(sessions), before, gone)
        decreases rest
      {
        var id :| id in rest;
        DetachedOneMore(old(sessions), before, gone, id);
        RemovedTogether(before, gone, id);
        RemovedTogether(log, gone, id);
        SameTask(before, gone, id);
        Reclaim(id);
        rest := rest - {id};
        gone := gone + {id};
      }
      assert gone == expired;
      RemovedTogether(before, gone, "");
      RemovedTogether(log, gone, "");
    }

    /** `gc_finished`: the expired tasks, and no others, leave the task map, the sessions'
        lists and the bus; then sessions with nothing left are dropped. */
    method GcFinished(now: i64, retainMs: i64) returns (reclaimed: nat)
      requires bus.Valid()
      modifies this, bus
      ensures bus.Valid()
      ensures
        var gone := ExpiredIds(old(tasks), now - if retainMs > 0 then retainMs else 0);
        && reclaimed == |gone|
        && tasks == old(tasks) - gone
        && bus.View() == old(bus.View()) - gone
        && sessions == UsedOnly(Detached(old(sessions), old(tasks), gone))
      ensures forall id :: id in tasks <==>
                id in old(tasks) &&
                var task := old(tasks)[id];
                !(task.finished && task.finishedAt.Some?
                  && task.finishedAt.value < now - if retainMs > 0 then retainMs else 0)
    {
      var cutoff := now - if retainMs > 0 then retainMs else 0;
      var expired := ExpiredIds(tasks, cutoff);
      ReclaimAll(expired);
      sessions := UsedOnly(sessions);
      reclaimed := |expired|;
    }
  }

  /** Finished, at a known time, and that before the cutoff. */
  ghost predicate Reclaimed(tasks: map<string, TaskState>, cutoff: int, id: string) {
    id in tasks && tasks[id].finished && exists at :: tasks[id].finishedAt == Some(at) && at < cutoff
  }

  /** Collection never drops a session a surviving task is listed in, nor the listing. */
  lemma SurvivorsStayListed(tasks: map<string, TaskState>, sessions: map<string, ThreadSession>, cutoff: int,
                            sessionId: string, id: string)
    requires sessionId in sessions && id in sessions[sessionId].taskIds
    ensures
      var kept := UsedOnly(Detached(sessions, tasks, ExpiredIds(tasks, cutoff)));
      (sessionId in kept && id in kept[sessionId].taskIds)
      <==> !(Reclaimed(tasks, cutoff, id) && tasks[id].sessionId == sessionId)
  {
    WithoutKeepsTheRest(sessions[sessionId].taskIds, OfSession(tasks, ExpiredIds(tasks, cutoff), sessionId), id);
  }

  /** A session stays exactly while it runs something or lists a task that stays. */
  lemma SessionsStayWhileUsed(tasks: map<string, TaskState>, sessions: map<string, ThreadSession>, cutoff: int,
                              sessionId: string)
    requires sessionId in sessions
    ensures
      var kept := UsedOnly(Detached(sessions, tasks, ExpiredIds(tasks, cutoff)));
      && (sessionId in kept <==>
            || sessions[sessionId].runningTaskId.Some?
            || exists id :: id in sessions[sessionId].taskIds
                            && !(Reclaimed(tasks, cutoff, id) && tasks[id].sessionId == sessionId))
      && (sessionId in kept ==> kept[sessionId].runningTaskId == sessions[sessionId].runningTaskId)
  {
    var gone := OfSession(tasks, ExpiredIds(tasks, cutoff), sessionId);
    var ids := sessions[sessionId].taskIds;
    forall id ensures id in Without(ids, gone) <==> id in ids && id !in gone {
      WithoutKeepsTheRest(ids, gone, id);
    }
    forall id ensures id in gone <==> Reclaimed(tasks, cutoff, id) && tasks[id].sessionId == sessionId {
    }
    hide Reclaimed, Without;
    var left := Without(ids, gone);
    if left != [] {
      assert left[0] in left;
    }
  }
}
