/** The coordinator's counters over whole runs, judged against the replies its callers
    saw. */
module MetricsRuns {
  import opened Prelude
  import opened Coordination

  /** What a caller can observe of one call. */
  datatype Observation =
    | ClaimGranted | ClaimRejected
    | RenewalGranted | RenewalRejected
    | FencedCallRefused
    | SlotDenied | QuotaDenied
    | CasConflict | SideEffectSuppressed

  predicate Observed(o: Observation, c: Call, reply: Reply) {
    match o
    case ClaimGranted => reply.Granted?
    case ClaimRejected => reply.Refused?
    case RenewalGranted => c.CallRenew? && reply == Flag(true)
    case RenewalRejected => c.CallRenew? && reply == Flag(false)
    case FencedCallRefused => (c.CallCommit? || c.CallFireCron?) && reply == Flag(false)
    case SlotDenied => c.CallAcquire? && reply == Flag(false)
    case QuotaDenied => c.CallConsume? && reply == Flag(false)
    case CasConflict => reply.Conflict?
    case SideEffectSuppressed => c.CallSideEffect? && reply == Flag(false)
  }

  /** How often `o` was observed in the run. */
  function Times(o: Observation, s: State, calls: seq<Call>): nat {
    if calls == [] then 0
    else
      var before := calls[..|calls| - 1];
      var last := calls[|calls| - 1];
      Times(o, s, before) + if Observed(o, last, Exec(Run(s, before), last).reply) then 1 else 0
  }

  /** Lapses as an observer counts them: a worker that sent a heartbeat is owed one
      report when it is next found dead. */
  datatype Watch = Watch(owed: set<string>, lapses: nat)

  function Watched(s: State, calls: seq<Call>): Watch {
    if calls == [] then Watch({}, 0)
    else
      var before := calls[..|calls| - 1];
      var last := calls[|calls| - 1];
      Noted(Watched(s, before), last, Exec(Run(s, before), last).reply)
  }

  function Noted(w: Watch, c: Call, reply: Reply): Watch {
    if c.CallHeartbeat? && reply == Done then w.(owed := w.owed + {c.worker})
    else if c.CallIsAlive? && reply == Flag(false) && c.worker in w.owed then
      Watch(w.owed - {c.worker}, w.lapses + 1)
    else w
  }

  function Count(n: nat): u64 {
    n % 0x1_0000_0000_0000_0000
  }

  lemma CountStep(n: nat, event: bool)
    ensures BumpIf(event, Count(n)) == Count(n + if event then 1 else 0)
  {
  }

  /** The two counters a refused fenced call may land in. */
  function FencedRefusals(m: Metrics): nat {
    m.staleCommitsRejected + m.cronDuplicateSuppressed
  }

  lemma LeaseCountersStep(s: State, c: Call)
    ensures
      var Outcome(s', reply) := Exec(s, c);
      var m, m' := s.metrics, s'.metrics;
      && m'.claimsGranted == BumpIf(Observed(ClaimGranted, c, reply), m.claimsGranted)
      && m'.claimsRejected == BumpIf(Observed(ClaimRejected, c, reply), m.claimsRejected)
      && m'.renewalsGranted == BumpIf(Observed(RenewalGranted, c, reply), m.renewalsGranted)
      && m'.renewalsRejected == BumpIf(Observed(RenewalRejected, c, reply), m.renewalsRejected)
  {
  }

  lemma PoolCountersStep(s: State, c: Call)
    ensures
      var Outcome(s', reply) := Exec(s, c);
      && s'.metrics.semaphoreDenied == BumpIf(Observed(SlotDenied, c, reply), s.metrics.semaphoreDenied)
      && s'.metrics.quotaDenied == BumpIf(Observed(QuotaDenied, c, reply), s.metrics.quotaDenied)
  {
  }

  lemma StoreCountersStep(s: State, c: Call)
    ensures
      var Outcome(s', reply) := Exec(s, c);
      && s'.metrics.casConflicts == BumpIf(Observed(CasConflict, c, reply), s.metrics.casConflicts)
      && s'.metrics.sideEffectDuplicatesSuppressed
         == BumpIf(Observed(SideEffectSuppressed, c, reply), s.metrics.sideEffectDuplicatesSuppressed)
  {
  }

  lemma RefusalCountersStep(s: State, c: Call)
    ensures
      var Outcome(s', reply) := Exec(s, c);
      var m, m' := s.metrics, s'.metrics;
      && m'.semaphoreDenied == BumpIf(Observed(SlotDenied, c, reply), m.semaphoreDenied)
      && m'.quotaDenied == BumpIf(Observed(QuotaDenied, c, reply), m.quotaDenied)
      && m'.casConflicts == BumpIf(Observed(CasConflict, c, reply), m.casConflicts)
      && m'.sideEffectDuplicatesSuppressed
         == BumpIf(Observed(SideEffectSuppressed, c, reply), m.sideEffectDuplicatesSuppressed)
  {
    hide Exec, Observed;
    PoolCountersStep(s, c);
    StoreCountersStep(s, c);
  }

  lemma FencedStep(s: State, c: Call)
    ensures
      var Outcome(s', reply) := Exec(s, c);
      var m, m' := s.metrics, s'.metrics;
      if Observed(FencedCallRefused, c, reply) then
        var stale := !Current(s, c.resource, c.holder, c.token);
        && m'.staleCommitsRejected == BumpIf(stale, m.staleCommitsRejected)
        && m'.cronDuplicateSuppressed == BumpIf(!stale, m.cronDuplicateSuppressed)
      else
        && m'.staleCommitsRejected == m.staleCommitsRejected
        && m'.cronDuplicateSuppressed == m.cronDuplicateSuppressed
  {
  }

  lemma HeartbeatStep(s: State, c: Call, w: Watch)
    requires w.owed == s.heartbeats.Keys - s.expiredHeartbeatsRecorded
    ensures
      var Outcome(s', reply) := Exec(s, c);
      var w' := Noted(w, c, reply);
      && w'.owed == s'.heartbeats.Keys - s'.expiredHeartbeatsRecorded
      && s'.metrics.heartbeatExpired == BumpIf(w'.lapses == w.lapses + 1, s.metrics.heartbeatExpired)
      && (w'.lapses == w.lapses || w'.lapses == w.lapses + 1)
      && (c.CallIsAlive? ==>
            (reply == Flag(true) <==> c.worker in s.heartbeats && s.now < s.heartbeats[c.worker]))
  {
  }

  /** Every counter is the number of times its callers saw the event, modulo 2^64. */
  lemma {:induction false} CountersAreTheRepliesSeen(calls: seq<Call>)
    ensures
      var m := Run(INITIAL, calls).metrics;
      && m.claimsGranted == Count(Times(ClaimGranted, INITIAL, calls))
      && m.claimsRejected == Count(Times(ClaimRejected, INITIAL, calls))
      && m.renewalsGranted == Count(Times(RenewalGranted, INITIAL, calls))
      && m.renewalsRejected == Count(Times(RenewalRejected, INITIAL, calls))
      && m.semaphoreDenied == Count(Times(SlotDenied, INITIAL, calls))
      && m.quotaDenied == Count(Times(QuotaDenied, INITIAL, calls))
      && m.casConflicts == Count(Times(CasConflict, INITIAL, calls))
      && m.sideEffectDuplicatesSuppressed == Count(Times(SideEffectSuppressed, INITIAL, calls))
  {
    hide Exec, Observed, Count;
    if calls == [] {
      NothingCounted();
    } else {
      var before := calls[..|calls| - 1];
      CountersAreTheRepliesSeen(before);
      LeaseCountersStep(Run(INITIAL, before), calls[|calls| - 1]);
      RefusalCountersStep(Run(INITIAL, before), calls[|calls| - 1]);
      forall o: Observation {
        TimesStep(o, calls);
      }
    }
  }

  lemma TimesStep(o: Observation, calls: seq<Call>)
    requires calls != []
    ensures
      var before := calls[..|calls| - 1];
      var last := calls[|calls| - 1];
      Count(Times(o, INITIAL, calls))
      == BumpIf(Observed(o, last, Exec(Run(INITIAL, before), last).reply), Count(Times(o, INITIAL, before)))
  {
    hide Exec, Observed, Count;
    var before := calls[..|calls| - 1];
    var last := calls[|calls| - 1];
    CountStep(Times(o, INITIAL, before), Observed(o, last, Exec(Run(INITIAL, before), last).reply));
  }

  /** Every refused fenced call lands in exactly one of the two counters for it: the
      stale one if the caller's authority was gone, the duplicate one otherwise. */
  lemma {:induction false} FencedRefusalsAreCountedOnce(calls: seq<Call>)
    ensures Count(FencedRefusals(Run(INITIAL, calls).metrics)) == Count(Times(FencedCallRefused, INITIAL, calls))
  {
    hide Exec, Count;
    if calls == [] {
      NothingCounted();
    } else {
      var s := Run(INITIAL, calls[..|calls| - 1]);
      var last := calls[|calls| - 1];
      FencedRefusalsAreCountedOnce(calls[..|calls| - 1]);
      FencedStep(s, last);
      TimesStep(FencedCallRefused, calls);
      if Observed(FencedCallRefused, last, Exec(s, last).reply) {
        CountOfTwo(s.metrics.staleCommitsRejected, s.metrics.cronDuplicateSuppressed,
                   !Current(s, last.resource, last.holder, last.token));
      }
    }
  }

  lemma CountOfTwo(a: u64, b: u64, first: bool)
    ensures Count(BumpIf(first, a) + BumpIf(!first, b)) == BumpIf(true, Count(a + b))
  {
  }

  /** A worker is reported lapsed once per heartbeat, however often it is polled. */
  lemma {:induction false} LapsesAreCountedOnce(calls: seq<Call>)
    ensures
      var s := Run(INITIAL, calls);
      var w := Watched(INITIAL, calls);
      && w.owed == s.heartbeats.Keys - s.expiredHeartbeatsRecorded
      && s.metrics.heartbeatExpired == Count(w.lapses)
  {
    hide Exec, Noted, Count;
    if calls == [] {
      NothingCounted();
    } else {
      var before := calls[..|calls| - 1];
      LapsesAreCountedOnce(before);
      HeartbeatStep(Run(INITIAL, before), calls[|calls| - 1], Watched(INITIAL, before));
      CountStep(Watched(INITIAL, before).lapses,
                Watched(INITIAL, calls).lapses == Watched(INITIAL, before).lapses + 1);
    }
  }

  lemma NothingCounted()
    ensures Run(INITIAL, []) == INITIAL && Count(0) == 0
  {
  }
}
