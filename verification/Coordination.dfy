/** The fencing coordinator of tools/reference-fleet: its state as a value, every
    operation as a transition on that value, which module FleetCoordinator carries out
    in place. A failed `assert!` of `Coordinator` is the reply `Panicked`; every one
    of them fires before the state is touched. */
module Coordination {
  import opened Prelude

  datatype Lease = Lease(holder: string, fencingToken: u64, expiresAt: u64)

  datatype ClaimError = HeldBy(holder: string, expiresAt: u64)

  datatype CasError = RevisionMismatch(expected: u64, actual: u64)

  datatype KvValue = KvValue(revision: u64, value: string)

  datatype WatchEvent = WatchEvent(key: string, revision: u64, value: string)

  datatype Semaphore = Semaphore(capacity: u64, holders: map<string, u64>)

  datatype RateWindow = RateWindow(capacity: u64, windowSeconds: u64, startsAt: u64, used: u64)

  datatype Metrics = Metrics(
    claimsGranted: u64,
    claimsRejected: u64,
    renewalsGranted: u64,
    renewalsRejected: u64,
    staleCommitsRejected: u64,
    semaphoreDenied: u64,
    quotaDenied: u64,
    heartbeatExpired: u64,
    cronDuplicateSuppressed: u64,
    casConflicts: u64,
    sideEffectDuplicatesSuppressed: u64)

  datatype State = State(
    now: u64,
    nextFencingToken: u64,
    leases: map<string, Lease>,
    semaphores: map<string, Semaphore>,
    rateWindows: map<string, RateWindow>,
    heartbeats: map<string, u64>,
    expiredHeartbeatsRecorded: set<string>,
    cronFires: set<(string, u64)>,
    kv: map<string, KvValue>,
    watchEvents: seq<WatchEvent>,
    sideEffects: map<string, string>,
    metrics: Metrics)

  const NO_METRICS := Metrics(0, 0, 0, 0, 0, 0, 0, 0, 0, 0, 0)

  const INITIAL := State(0, 0, map[], map[], map[], map[], {}, {}, map[], [], map[], NO_METRICS)

  datatype Reply =
    | Done
    | Granted(lease: Lease)
    | Refused(claimError: ClaimError)
    | Flag(accepted: bool)
    | Stored(entry: KvValue)
    | Conflict(casError: CasError)
    | Panicked

  datatype Outcome = Outcome(state: State, reply: Reply)

  // ----- the operations -----

  /** A metric that counts the calls for which `event` holds. */
  function BumpIf(event: bool, counter: u64): u64 {
    if event then WrappingInc(counter) else counter
  }

  function Advance(s: State, seconds: u64): Outcome {
    Outcome(s.(now := SaturatingAdd(s.now, seconds)), Done)
  }

  /** Some lease on `resource` has not expired. */
  predicate Active(s: State, resource: string) {
    resource in s.leases && s.leases[resource].expiresAt > s.now
  }

  /** `holder` owns `resource` under exactly `token`, now. */
  predicate Current(s: State, resource: string, holder: string, token: u64) {
    && Active(s, resource)
    && s.leases[resource].holder == holder
    && s.leases[resource].fencingToken == token
  }

  function Claim(s: State, resource: string, holder: string, ttl: u64): Outcome {
    var free := !Active(s, resource);
    var token := SaturatingAdd(s.nextFencingToken, 1);
    var lease := Lease(holder, token, SaturatingAdd(s.now, ttl));
    Outcome(
      s.(nextFencingToken := if free then token else s.nextFencingToken,
         leases := if free then s.leases[resource := lease] else s.leases,
         metrics := s.metrics.(claimsGranted := BumpIf(free, s.metrics.claimsGranted),
                               claimsRejected := BumpIf(!free, s.metrics.claimsRejected))),
      if free then Granted(lease)
      else Refused(HeldBy(s.leases[resource].holder, s.leases[resource].expiresAt)))
  }

  function Renew(s: State, resource: string, holder: string, token: u64, ttl: u64): Outcome {
    var current := Current(s, resource, holder, token);
    Outcome(
      s.(leases := if current
                   then s.leases[resource := s.leases[resource].(expiresAt := SaturatingAdd(s.now, ttl))]
                   else s.leases,
         metrics := s.metrics.(renewalsGranted := BumpIf(current, s.metrics.renewalsGranted),
                               renewalsRejected := BumpIf(!current, s.metrics.renewalsRejected))),
      Flag(current))
  }

  function CommitIfCurrent(s: State, resource: string, holder: string, token: u64): Outcome {
    var current := Current(s, resource, holder, token);
    Outcome(
      s.(metrics := s.metrics.(staleCommitsRejected := BumpIf(!current, s.metrics.staleCommitsRejected))),
      Flag(current))
  }

  /** `HashMap::retain(|_, expiry| *expiry > now)`. */
  function Unexpired(holders: map<string, u64>, now: u64): map<string, u64> {
    map h | h in holders && holders[h] > now :: holders[h]
  }

  /** The capacity assertion of `acquire_slot`. */
  predicate PoolAgrees(s: State, pool: string, capacity: u64) {
    pool in s.semaphores ==> s.semaphores[pool].capacity == capacity
  }

  /** The holders left in `pool` once the expired ones are dropped. */
  function HoldersAt(s: State, pool: string): map<string, u64> {
    if pool in s.semaphores then Unexpired(s.semaphores[pool].holders, s.now) else map[]
  }

  function AcquireSlot(s: State, pool: string, holder: string, capacity: u64, ttl: u64): Outcome {
    var holders := HoldersAt(s, pool);
    var free := holder in holders || |holders| < capacity;
    var after := if free then holders[holder := SaturatingAdd(s.now, ttl)] else holders;
    Outcome(
      s.(semaphores := s.semaphores[pool := Semaphore(capacity, after)],
         metrics := s.metrics.(semaphoreDenied := BumpIf(!free, s.metrics.semaphoreDenied))),
      Flag(free))
  }

  /** The two window assertions of `consume_quota`. */
  predicate QuotaAgrees(s: State, quota: string, capacity: u64, windowSeconds: u64) {
    quota in s.rateWindows ==>
      s.rateWindows[quota].capacity == capacity && s.rateWindows[quota].windowSeconds == windowSeconds
  }

  /** The window that a call at `s.now` is charged to: the open one, or a fresh one. */
  function WindowAt(s: State, quota: string, capacity: u64, windowSeconds: u64): RateWindow {
    if quota in s.rateWindows && s.now < SaturatingAdd(s.rateWindows[quota].startsAt, windowSeconds)
    then s.rateWindows[quota]
    else RateWindow(capacity, windowSeconds, s.now, 0)
  }

  function ConsumeQuota(s: State, quota: string, units: u64, capacity: u64, windowSeconds: u64): Outcome {
    var window := WindowAt(s, quota, capacity, windowSeconds);
    var fits := units <= SaturatingSub(capacity, window.used);
    var after := if fits then window.(used := SaturatingAdd(window.used, units)) else window;
    Outcome(
      s.(rateWindows := s.rateWindows[quota := after],
         metrics := s.metrics.(quotaDenied := BumpIf(!fits, s.metrics.quotaDenied))),
      Flag(fits))
  }

  function Heartbeat(s: State, worker: string, ttl: u64): Outcome {
    Outcome(
      s.(heartbeats := s.heartbeats[worker := SaturatingAdd(s.now, ttl)],
         expiredHeartbeatsRecorded := s.expiredHeartbeatsRecorded - {worker}),
      Done)
  }

  predicate Alive(s: State, worker: string) {
    worker in s.heartbeats && s.heartbeats[worker] > s.now
  }

  function WorkerIsAlive(s: State, worker: string): Outcome {
    var lapsed := !Alive(s, worker) && worker in s.heartbeats && worker !in s.expiredHeartbeatsRecorded;
    Outcome(
      s.(expiredHeartbeatsRecorded := s.expiredHeartbeatsRecorded + if lapsed then {worker} else {},
         metrics := s.metrics.(heartbeatExpired := BumpIf(lapsed, s.metrics.heartbeatExpired))),
      Flag(Alive(s, worker)))
  }

  function FireCronOnce(s: State, resource: string, leader: string, token: u64, job: string, scheduledAt: u64)
    : Outcome
  {
    var current := Current(s, resource, leader, token);
    var duplicate := (job, scheduledAt) in s.cronFires;
    Outcome(
      s.(cronFires := s.cronFires + if current then {(job, scheduledAt)} else {},
         metrics := s.metrics.(
           staleCommitsRejected := BumpIf(!current, s.metrics.staleCommitsRejected),
           cronDuplicateSuppressed := BumpIf(current && duplicate, s.metrics.cronDuplicateSuppressed))),
      Flag(current && !duplicate))
  }

  function Revision(s: State, key: string): u64 {
    if key in s.kv then s.kv[key].revision else 0
  }

  function Cas(s: State, key: string, expected: u64, value: string): Outcome {
    var actual := Revision(s, key);
    var matches := actual == expected;
    var next := KvValue(SaturatingAdd(actual, 1), value);
    Outcome(
      s.(kv := if matches then s.kv[key := next] else s.kv,
         watchEvents := s.watchEvents + if matches then [WatchEvent(key, next.revision, value)] else [],
         metrics := s.metrics.(casConflicts := BumpIf(!matches, s.metrics.casConflicts))),
      if matches then Stored(next) else Conflict(RevisionMismatch(expected, actual)))
  }

  function PerformSideEffectOnce(s: State, idempotencyKey: string, payload: string): Outcome {
    var first := idempotencyKey !in s.sideEffects;
    Outcome(
      s.(sideEffects := if first then s.sideEffects[idempotencyKey := payload] else s.sideEffects,
         metrics := s.metrics.(
           sideEffectDuplicatesSuppressed := BumpIf(!first, s.metrics.sideEffectDuplicatesSuppressed))),
      Flag(first))
  }

  // ----- calls and runs -----

  datatype Call =
    | CallAdvance(seconds: u64)
    | CallClaim(resource: string, holder: string, ttl: u64)
    | CallRenew(resource: string, holder: string, token: u64, ttl: u64)
    | CallCommit(resource: string, holder: string, token: u64)
    | CallAcquire(pool: string, holder: string, capacity: u64, ttl: u64)
    | CallConsume(quota: string, units: u64, capacity: u64, windowSeconds: u64)
    | CallHeartbeat(worker: string, ttl: u64)
    | CallIsAlive(worker: string)
    | CallFireCron(resource: string, holder: string, token: u64, job: string, scheduledAt: u64)
    | CallCas(key: string, expected: u64, value: string)
    | CallSideEffect(idempotencyKey: string, payload: string)

  /** The arguments pass every `assert!` of the operation called. */
  predicate Asserts(s: State, c: Call) {
    match c
    case CallClaim(_, _, ttl) => ttl > 0
    case CallRenew(_, _, _, ttl) => ttl > 0
    case CallAcquire(pool, _, capacity, ttl) => capacity > 0 && ttl > 0 && PoolAgrees(s, pool, capacity)
    case CallConsume(quota, _, capacity, window) =>
      capacity > 0 && window > 0 && QuotaAgrees(s, quota, capacity, window)
    case CallHeartbeat(_, ttl) => ttl > 0
    case _ => true
  }

  /** One call, from any caller, on any arguments. */
  function Exec(s: State, c: Call): Outcome {
    if !Asserts(s, c) then Outcome(s, Panicked) else
    match c
    case CallAdvance(seconds) => Advance(s, seconds)
    case CallClaim(resource, holder, ttl) => Claim(s, resource, holder, ttl)
    case CallRenew(resource, holder, token, ttl) => Renew(s, resource, holder, token, ttl)
    case CallCommit(resource, holder, token) => CommitIfCurrent(s, resource, holder, token)
    case CallAcquire(pool, holder, capacity, ttl) => AcquireSlot(s, pool, holder, capacity, ttl)
    case CallConsume(quota, units, capacity, window) => ConsumeQuota(s, quota, units, capacity, window)
    case CallHeartbeat(worker, ttl) => Heartbeat(s, worker, ttl)
    case CallIsAlive(worker) => WorkerIsAlive(s, worker)
    case CallFireCron(resource, holder, token, job, at) => FireCronOnce(s, resource, holder, token, job, at)
    case CallCas(key, expected, value) => Cas(s, key, expected, value)
    case CallSideEffect(key, payload) => PerformSideEffectOnce(s, key, payload)
  }

  /** The state after a whole run of calls, in order. */
  function Run(s: State, calls: seq<Call>): State {
    if calls == [] then s
    else Exec(Run(s, calls[..|calls| - 1]), calls[|calls| - 1]).state
  }

  /** The reply the `i`-th call of the run receives. */
  function ReplyAt(s: State, calls: seq<Call>, i: nat): Reply
    requires i < |calls|
  {
    Exec(Run(s, calls[..i]), calls[i]).reply
  }

  lemma {:induction false} RunConcat(s: State, a: seq<Call>, b: seq<Call>)
    ensures Run(s, a + b) == Run(Run(s, a), b)
  {
    if b == [] {
      assert a + b == a;
    } else {
      RunConcat(s, a, b[..|b| - 1]);
      assert (a + b)[..|a + b| - 1] == a + b[..|b| - 1];
    }
  }
}
