/** Heartbeats, cron slots and idempotency keys over whole runs: each answer as a function
    of the calls before it. */
module LivenessRuns {
  import opened Prelude
  import opened Coordination

  // ----- heartbeats -----

  /** When the last heartbeat of `worker` runs out, if it ever sent one. */
  function LastBeat(calls: seq<Call>, worker: string): Option<u64> {
    if calls == [] then None
    else
      var before, last := calls[..|calls| - 1], calls[|calls| - 1];
      if last.CallHeartbeat? && last.worker == worker && last.ttl > 0
      then Some(SaturatingAdd(Run(INITIAL, before).now, last.ttl))
      else LastBeat(before, worker)
  }

  lemma BeatStep(s: State, c: Call, worker: string)
    ensures
      var s' := Exec(s, c).state;
      if c.CallHeartbeat? && c.worker == worker && c.ttl > 0
      then worker in s'.heartbeats && s'.heartbeats[worker] == SaturatingAdd(s.now, c.ttl)
      else
        && (worker in s'.heartbeats <==> worker in s.heartbeats)
        && (worker in s.heartbeats ==> s'.heartbeats[worker] == s.heartbeats[worker])
  {
  }

  lemma {:induction false} BeatsAreRemembered(calls: seq<Call>, worker: string)
    ensures
      var s := Run(INITIAL, calls);
      LastBeat(calls, worker) == if worker in s.heartbeats then Some(s.heartbeats[worker]) else None
  {
    hide Exec;
    if calls != [] {
      BeatsAreRemembered(calls[..|calls| - 1], worker);
      BeatStep(Run(INITIAL, calls[..|calls| - 1]), calls[|calls| - 1], worker);
    }
  }

  /** A worker is reported alive exactly while its last heartbeat has not run out. */
  lemma AliveExactlyUntilTheLastBeatRunsOut(calls: seq<Call>, worker: string)
    ensures
      var s := Run(INITIAL, calls);
      var beat := LastBeat(calls, worker);
      Exec(s, CallIsAlive(worker)).reply == Flag(beat.Some? && s.now < beat.value)
  {
    hide Run;
    BeatsAreRemembered(calls, worker);
  }

  // ----- cron slots -----

  /** Whether a slot has fired in the run. */
  predicate Fired(calls: seq<Call>, job: string, scheduledAt: u64) {
    calls != [] &&
    (var before, last := calls[..|calls| - 1], calls[|calls| - 1];
     || Fired(before, job, scheduledAt)
     || (last.CallFireCron? && last.job == job && last.scheduledAt == scheduledAt
         && Exec(Run(INITIAL, before), last).reply == Flag(true)))
  }

  lemma FireStep(s: State, c: Call, job: string, scheduledAt: u64)
    ensures (job, scheduledAt) in Exec(s, c).state.cronFires
            <==> (job, scheduledAt) in s.cronFires
                 || (c.CallFireCron? && c.job == job && c.scheduledAt == scheduledAt && Exec(s, c).reply == Flag(true))
  {
  }

  lemma {:induction false} FiresAreRemembered(calls: seq<Call>, job: string, scheduledAt: u64)
    ensures (job, scheduledAt) in Run(INITIAL, calls).cronFires <==> Fired(calls, job, scheduledAt)
  {
    hide Exec;
    if calls != [] {
      FiresAreRemembered(calls[..|calls| - 1], job, scheduledAt);
      FireStep(Run(INITIAL, calls[..|calls| - 1]), calls[|calls| - 1], job, scheduledAt);
    }
  }

  /** A slot fires exactly when the caller's authority is current and it has not fired
      before, under whichever leader. */
  lemma CronFiresExactlyWhen(calls: seq<Call>, c: Call)
    requires c.CallFireCron?
    ensures Exec(Run(INITIAL, calls), c).reply
         == Flag(Current(Run(INITIAL, calls), c.resource, c.holder, c.token) && !Fired(calls, c.job, c.scheduledAt))
  {
    hide Run;
    FiresAreRemembered(calls, c.job, c.scheduledAt);
  }

  // ----- idempotency keys -----

  predicate Performed(calls: seq<Call>, idempotencyKey: string) {
    exists i :: 0 <= i < |calls| && calls[i].CallSideEffect? && calls[i].idempotencyKey == idempotencyKey
  }

  lemma EffectStep(s: State, c: Call, idempotencyKey: string)
    ensures idempotencyKey in Exec(s, c).state.sideEffects
            <==> idempotencyKey in s.sideEffects || (c.CallSideEffect? && c.idempotencyKey == idempotencyKey)
  {
  }

  lemma {:induction false} EffectsAreRemembered(calls: seq<Call>, idempotencyKey: string)
    ensures idempotencyKey in Run(INITIAL, calls).sideEffects <==> Performed(calls, idempotencyKey)
  {
    hide Exec;
    if calls != [] {
      var before, last := calls[..|calls| - 1], calls[|calls| - 1];
      EffectsAreRemembered(before, idempotencyKey);
      EffectStep(Run(INITIAL, before), last, idempotencyKey);
      assert calls == before + [last];
      if Performed(before, idempotencyKey) {
        var i :| 0 <= i < |before| && before[i].CallSideEffect? && before[i].idempotencyKey == idempotencyKey;
        assert calls[i] == before[i];
      }
    }
  }

  /** A side effect is carried out exactly the first time its key is used. */
  lemma EffectHappensExactlyTheFirstTime(calls: seq<Call>, idempotencyKey: string, payload: string)
    ensures Exec(Run(INITIAL, calls), CallSideEffect(idempotencyKey, payload)).reply
         == Flag(!Performed(calls, idempotencyKey))
  {
    hide Run, Performed;
    EffectsAreRemembered(calls, idempotencyKey);
  }
}
