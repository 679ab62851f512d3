/** Every reply of the coordinator as a function of the calls before it: what a caller who
    has watched all of them could have foretold, with no look at the state. */
module Answers {
  import opened Prelude
  import opened Coordination
  import opened ClockRuns
  import opened QuotaRuns
  import opened SemaphoreRuns
  import opened LivenessRuns
  import opened StoreRuns

  // ----- authority -----

  /** A claim as the calls tell it: who was granted it, under which token, and when it
      runs out, renewals included. */
  datatype Authority = Authority(holder: string, token: u64, until: u64)

  function Later(now: u64, ttl: u64): u64 {
    Min(now + ttl, U64_MAX)
  }

  /** The latest claim on a resource. */
  function LatestClaim(calls: seq<Call>, resource: string): Option<Authority>
    decreases |calls|, 0
  {
    if calls == [] then None
    else
      var before, last := calls[..|calls| - 1], calls[|calls| - 1];
      match last
      case CallClaim(r, holder, ttl) =>
        if r == resource && ttl > 0 && !Claimed(before, resource)
        then Some(Authority(holder, Min(Grants(before) + 1, U64_MAX), Later(Clock(before), ttl)))
        else LatestClaim(before, resource)
      case CallRenew(r, holder, token, ttl) =>
        if r == resource && ttl > 0 && Holds(before, resource, holder, token)
        then Some(Authority(holder, token, Later(Clock(before), ttl)))
        else LatestClaim(before, resource)
      case _ => LatestClaim(before, resource)
  }

  /** Somebody's claim on the resource has not run out. */
  predicate Claimed(calls: seq<Call>, resource: string)
    decreases |calls|, 1
  {
    var claim := LatestClaim(calls, resource);
    claim.Some? && Clock(calls) < claim.value.until
  }

  predicate Holds(calls: seq<Call>, resource: string, holder: string, token: u64)
    decreases |calls|, 2
  {
    && Claimed(calls, resource)
    && LatestClaim(calls, resource).value.holder == holder && LatestClaim(calls, resource).value.token == token
  }

  /** How many claims were granted, on any resource. */
  function Grants(calls: seq<Call>): nat
    decreases |calls|, 3
  {
    if calls == [] then 0
    else
      var before, last := calls[..|calls| - 1], calls[|calls| - 1];
      Grants(before) + if last.CallClaim? && last.ttl > 0 && !Claimed(before, last.resource) then 1 else 0
  }

  ghost predicate LeaseIs(s: State, resource: string, claim: Option<Authority>) {
    match claim
    case None => resource !in s.leases
    case Some(a) => resource in s.leases && s.leases[resource] == Lease(a.holder, a.token, a.until)
  }

  lemma LeaseStep(s: State, c: Call, resource: string)
    ensures
      var s' := Exec(s, c).state;
      match c
      case CallClaim(r, holder, ttl) =>
        if ttl > 0 && !Active(s, r) then
          && s'.nextFencingToken == SaturatingAdd(s.nextFencingToken, 1)
          && s'.leases == s.leases[r := Lease(holder, s'.nextFencingToken, SaturatingAdd(s.now, ttl))]
        else s'.leases == s.leases && s'.nextFencingToken == s.nextFencingToken
      case CallRenew(r, holder, token, ttl) =>
        && s'.nextFencingToken == s.nextFencingToken
        && s'.leases == if ttl > 0 && Current(s, r, holder, token)
                        then s.leases[r := Lease(holder, token, SaturatingAdd(s.now, ttl))] else s.leases
      case _ => s'.leases == s.leases && s'.nextFencingToken == s.nextFencingToken
  {
  }

  lemma ClaimsStep(calls: seq<Call>, c: Call, resource: string)
    ensures
      LatestClaim(calls + [c], resource)
      == if c.CallClaim? && c.resource == resource && c.ttl > 0 && !Claimed(calls, resource) then
           Some(Authority(c.holder, Min(Grants(calls) + 1, U64_MAX), Later(Clock(calls), c.ttl)))
         else if c.CallRenew? && c.resource == resource && c.ttl > 0 && Holds(calls, resource, c.holder, c.token) then
           Some(Authority(c.holder, c.token, Later(Clock(calls), c.ttl)))
         else LatestClaim(calls, resource)
    ensures Grants(calls + [c])
         == Grants(calls) + if c.CallClaim? && c.ttl > 0 && !Claimed(calls, c.resource) then 1 else 0
  {
    assert (calls + [c])[..|calls|] == calls;
    hide Clock;
  }

  lemma AuthorityOf(s: State, calls: seq<Call>, resource: string)
    requires LeaseIs(s, resource, LatestClaim(calls, resource)) && s.now == Clock(calls)
    ensures Active(s, resource) <==> Claimed(calls, resource)
    ensures forall holder, token :: Current(s, resource, holder, token) <==> Holds(calls, resource, holder, token)
  {
    hide Clock, LatestClaim;
  }

  lemma {:induction false} LeasesAreTheClaims(calls: seq<Call>, resource: string)
    ensures LeaseIs(Run(INITIAL, calls), resource, LatestClaim(calls, resource))
    ensures Run(INITIAL, calls).nextFencingToken == Min(Grants(calls), U64_MAX)
    decreases |calls|
  {
    if calls == [] {
      assert LeaseIs(Run(INITIAL, calls), resource, LatestClaim(calls, resource));
    } else {
      var before, last := calls[..|calls| - 1], calls[|calls| - 1];
      assert calls == before + [last];
      hide Exec, Clock, LatestClaim, Grants, Claimed, Holds, Active, Current;
      var s := Run(INITIAL, before);
      LeasesAreTheClaims(before, resource);
      ClockIsTheTimePassed(before);
      LeaseStep(s, last, resource);
      ClaimsStep(before, last, resource);
      AuthorityOf(s, before, resource);
      if last.CallClaim? {
        LeasesAreTheClaims(before, last.resource);
        AuthorityOf(s, before, last.resource);
      }
    }
  }

  lemma AuthorityIsTheClaims(calls: seq<Call>, resource: string, holder: string, token: u64)
    ensures Active(Run(INITIAL, calls), resource) <==> Claimed(calls, resource)
    ensures Current(Run(INITIAL, calls), resource, holder, token) <==> Holds(calls, resource, holder, token)
  {
    hide Run, Clock;
    ClockIsTheTimePassed(calls);
    LeasesAreTheClaims(calls, resource);
  }

  // ----- pools and revisions -----

  /** The capacity a pool was first used with; a call that names another one panics. */
  function PoolCapacity(calls: seq<Call>, pool: string): Option<u64> {
    if calls == [] then None
    else
      var before, last := calls[..|calls| - 1], calls[|calls| - 1];
      var capacity := PoolCapacity(before, pool);
      if last.CallAcquire? && last.pool == pool && last.capacity > 0 && last.ttl > 0 && capacity.None?
      then Some(last.capacity)
      else capacity
  }

  ghost predicate PoolIs(s: State, pool: string, capacity: Option<u64>) {
    match capacity
    case None => pool !in s.semaphores
    case Some(n) => pool in s.semaphores && s.semaphores[pool].capacity == n
  }

  lemma PoolStep(s: State, c: Call, pool: string)
    ensures
      var s' := Exec(s, c).state;
      if c.CallAcquire? && c.pool == pool && Asserts(s, c) then
        pool in s'.semaphores && s'.semaphores[pool].capacity == c.capacity
      else
        && (pool in s'.semaphores <==> pool in s.semaphores)
        && (pool in s.semaphores ==> s'.semaphores[pool] == s.semaphores[pool])
  {
    if c.CallAcquire? && c.pool == pool && Asserts(s, c) {
      AcquireUpdatesThePool(s, c, map[]);
    } else {
      OtherCallsLeaveThePool(s, c, map[], pool);
    }
  }

  lemma {:induction false} PoolsKeepTheirCapacity(calls: seq<Call>, pool: string)
    ensures PoolIs(Run(INITIAL, calls), pool, PoolCapacity(calls, pool))
  {
    hide Exec;
    if calls != [] {
      var before, last := calls[..|calls| - 1], calls[|calls| - 1];
      PoolsKeepTheirCapacity(before, pool);
      PoolStep(Run(INITIAL, before), last, pool);
    }
  }

  /** How many writes to a key went through; it is the key's revision. */
  function Writes(calls: seq<Call>, key: string): nat {
    if calls == [] then 0
    else
      var before, last := calls[..|calls| - 1], calls[|calls| - 1];
      Writes(before, key) +
      if last.CallCas? && last.key == key && last.expected == Min(Writes(before, key), U64_MAX) then 1 else 0
  }

  lemma {:induction false} RevisionsCountTheWrites(calls: seq<Call>, key: string)
    ensures Revision(Run(INITIAL, calls), key) == Min(Writes(calls, key), U64_MAX)
  {
    hide Exec, Revision;
    if calls == [] {
      EmptyStore(key);
    } else {
      var before, last := calls[..|calls| - 1], calls[|calls| - 1];
      var s := Run(INITIAL, before);
      RevisionsCountTheWrites(before, key);
      StoreStep(s, last);
      RevisionFrame(s, Exec(s, last).state, key);
      if last.CallCas? {
        OnlyStoredOrConflict(s, last);
      }
    }
  }

  /** The writes that went through, in order, as watchers are told of them. */
  function Told(calls: seq<Call>): seq<WatchEvent> {
    if calls == [] then []
    else
      var before, last := calls[..|calls| - 1], calls[|calls| - 1];
      Told(before) +
      if last.CallCas? && last.expected == Min(Writes(before, last.key), U64_MAX)
      then [WatchEvent(last.key, Later(last.expected, 1), last.value)] else []
  }

  /** The watch log is exactly the writes that went through. */
  lemma {:induction false} WatchersAreToldEveryWrite(calls: seq<Call>)
    ensures Run(INITIAL, calls).watchEvents == Told(calls)
  {
    hide Exec, Revision, Writes;
    if calls != [] {
      var before, last := calls[..|calls| - 1], calls[|calls| - 1];
      var s := Run(INITIAL, before);
      WatchersAreToldEveryWrite(before);
      StoreStep(s, last);
      if last.CallCas? {
        OnlyStoredOrConflict(s, last);
        RevisionsCountTheWrites(before, last.key);
      }
    }
  }

  // ----- what is answered -----

  /** What the coordinator replies to `c` behind `calls`. */
  ghost function Answer(calls: seq<Call>, c: Call): Reply {
    var now := Clock(calls);
    match c
    case CallAdvance(_) => Done
    case CallClaim(resource, holder, ttl) =>
      if ttl == 0 then Panicked
      else if Claimed(calls, resource) then
        var claim := LatestClaim(calls, resource).value;
        Refused(HeldBy(claim.holder, claim.until))
      else Granted(Lease(holder, Min(Grants(calls) + 1, U64_MAX), Later(now, ttl)))
    case CallRenew(resource, holder, token, ttl) =>
      if ttl == 0 then Panicked else Flag(Holds(calls, resource, holder, token))
    case CallCommit(resource, holder, token) => Flag(Holds(calls, resource, holder, token))
    case CallAcquire(pool, holder, capacity, ttl) =>
      if capacity == 0 || ttl == 0 || PoolCapacity(calls, pool) !in {None, Some(capacity)} then Panicked
      else
        var live := LiveHolders(LatestGrants(INITIAL, calls, pool), now);
        Flag(holder in live || |live| < capacity)
    case CallConsume(quota, units, capacity, window) =>
      if capacity == 0 || window == 0 || OtherTerms(calls, quota, capacity, window) then Panicked
      else
        var k := Opening(calls + [c], quota);
        Flag(k.Some? && UnitsFrom(calls, quota, k.value) + units <= capacity)
    case CallHeartbeat(_, ttl) => if ttl == 0 then Panicked else Done
    case CallIsAlive(worker) =>
      var beat := LastBeat(calls, worker);
      Flag(beat.Some? && now < beat.value)
    case CallFireCron(resource, leader, token, job, at) =>
      Flag(Holds(calls, resource, leader, token) && !Fired(calls, job, at))
    case CallCas(key, expected, value) =>
      var actual := Min(Writes(calls, key), U64_MAX);
      if actual == expected then Stored(KvValue(Later(actual, 1), value))
      else Conflict(RevisionMismatch(expected, actual))
    case CallSideEffect(key, _) => Flag(!Performed(calls, key))
  }

  /** The quota's current window has another capacity or length. */
  predicate OtherTerms(calls: seq<Call>, quota: string, capacity: u64, window: u64) {
    var k := Opening(calls, quota);
    k.Some? && (calls[k.value].capacity != capacity || calls[k.value].windowSeconds != window)
  }

  lemma FencedAnswers(calls: seq<Call>, c: Call)
    requires c.CallClaim? || c.CallRenew? || c.CallCommit? || c.CallFireCron?
    ensures Exec(Run(INITIAL, calls), c).reply == Answer(calls, c)
  {
    hide Run, Clock, LatestClaim, Claimed, Holds, Grants, Fired;
    ClockIsTheTimePassed(calls);
    LeasesAreTheClaims(calls, c.resource);
    AuthorityIsTheClaims(calls, c.resource, c.holder, if c.CallClaim? then 0 else c.token);
    if c.CallFireCron? {
      CronFiresExactlyWhen(calls, c);
    }
  }

  lemma SharedAnswers(calls: seq<Call>, c: Call)
    requires c.CallAcquire? || c.CallConsume?
    ensures Exec(Run(INITIAL, calls), c).reply == Answer(calls, c)
  {
    hide Run, Clock, LatestGrants, LiveHolders, UnitsFrom, Exec;
    var s := Run(INITIAL, calls);
    ClockIsTheTimePassed(calls);
    PanicsAreReplied(s, c);
    if c.CallAcquire? {
      PoolsKeepTheirCapacity(calls, c.pool);
      if Asserts(s, c) {
        SlotsAreNeverOversubscribed(calls, c.pool);
        DeniedExactlyWhenOthersFillThePool(calls, c);
      }
    } else {
      DeniedExactlyWhenItDoesNotFit(calls, c);
    }
  }

  lemma StoreAnswers(calls: seq<Call>, c: Call)
    requires c.CallCas?
    ensures Exec(Run(INITIAL, calls), c).reply == Answer(calls, c)
  {
    hide Run, Writes, Exec, Revision;
    StoreStep(Run(INITIAL, calls), c);
    OnlyStoredOrConflict(Run(INITIAL, calls), c);
    RevisionsCountTheWrites(calls, c.key);
  }

  /** Over every run of calls by any callers, saturation included, each reply is the one
      that can be told from the calls alone. */
  lemma EveryReplyCanBeForetold(calls: seq<Call>, c: Call)
    ensures Exec(Run(INITIAL, calls), c).reply == Answer(calls, c)
  {
    hide Run, Clock, Fired, Performed, LastBeat;
    match c {
      case CallClaim(_, _, _) => FencedAnswers(calls, c);
      case CallRenew(_, _, _, _) => FencedAnswers(calls, c);
      case CallCommit(_, _, _) => FencedAnswers(calls, c);
      case CallFireCron(_, _, _, _, _) => FencedAnswers(calls, c);
      case CallAcquire(_, _, _, _) => SharedAnswers(calls, c);
      case CallConsume(_, _, _, _) => SharedAnswers(calls, c);
      case CallCas(_, _, _) => StoreAnswers(calls, c);
      case CallIsAlive(worker) =>
        ClockIsTheTimePassed(calls);
        AliveExactlyUntilTheLastBeatRunsOut(calls, worker);
      case CallSideEffect(key, payload) => EffectHappensExactlyTheFirstTime(calls, key, payload);
      case _ =>
    }
  }

  // ----- why fenced calls were refused -----

  /** A commit or cron fire without authority. */
  predicate Stale(calls: seq<Call>, c: Call) {
    (c.CallCommit? || c.CallFireCron?) && !Holds(calls, c.resource, c.holder, c.token)
  }

  /** A cron fire under authority for a slot that has fired. */
  predicate Duplicate(calls: seq<Call>, c: Call) {
    c.CallFireCron? && Holds(calls, c.resource, c.holder, c.token) && Fired(calls, c.job, c.scheduledAt)
  }

  function StaleCalls(calls: seq<Call>): nat {
    if calls == [] then 0
    else
      var before := calls[..|calls| - 1];
      StaleCalls(before) + if Stale(before, calls[|calls| - 1]) then 1 else 0
  }

  function DuplicateFires(calls: seq<Call>): nat {
    if calls == [] then 0
    else
      var before := calls[..|calls| - 1];
      DuplicateFires(before) + if Duplicate(before, calls[|calls| - 1]) then 1 else 0
  }

  lemma RefusalStep(s: State, c: Call)
    ensures
      var s' := Exec(s, c).state;
      var fenced := c.CallCommit? || c.CallFireCron?;
      && s'.metrics.staleCommitsRejected
         == (if fenced && !Current(s, c.resource, c.holder, c.token) then WrappingInc(s.metrics.staleCommitsRejected)
             else s.metrics.staleCommitsRejected)
      && s'.metrics.cronDuplicateSuppressed
         == (if c.CallFireCron? && Current(s, c.resource, c.holder, c.token) && (c.job, c.scheduledAt) in s.cronFires
             then WrappingInc(s.metrics.cronDuplicateSuppressed) else s.metrics.cronDuplicateSuppressed)
  {
  }

  lemma CountOne(n: nat)
    ensures WrappingInc(n % 0x1_0000_0000_0000_0000) == (n + 1) % 0x1_0000_0000_0000_0000
  {
  }

  /** Each of the two counters counts its own cause of refusal. */
  lemma {:induction false} RefusalsAreCountedByCause(calls: seq<Call>)
    ensures Run(INITIAL, calls).metrics.staleCommitsRejected == StaleCalls(calls) % 0x1_0000_0000_0000_0000
    ensures Run(INITIAL, calls).metrics.cronDuplicateSuppressed == DuplicateFires(calls) % 0x1_0000_0000_0000_0000
  {
    hide Exec, Holds, Fired, WrappingInc, Current;
    if calls == [] {
      NothingRefusedYet();
    } else {
      var before, last := calls[..|calls| - 1], calls[|calls| - 1];
      var s := Run(INITIAL, before);
      RefusalsAreCountedByCause(before);
      RefusalStep(s, last);
      CountOne(StaleCalls(before));
      CountOne(DuplicateFires(before));
      if last.CallCommit? || last.CallFireCron? {
        AuthorityIsTheClaims(before, last.resource, last.holder, last.token);
      }
      if last.CallFireCron? {
        FiresAreRemembered(before, last.job, last.scheduledAt);
      }
    }
  }

  lemma NothingRefusedYet()
    ensures Run(INITIAL, []).metrics.staleCommitsRejected == 0 == Run(INITIAL, []).metrics.cronDuplicateSuppressed
  {
  }
}
