/** Expiring semaphores over whole runs, judged against the history of grants rather
    than against the coordinator's own bookkeeping. */
module SemaphoreRuns {
  import opened Prelude
  import opened Coordination

  /** For every holder ever granted a slot of `pool`, when its latest grant expires. */
  function LatestGrants(s: State, calls: seq<Call>, pool: string): map<string, u64> {
    if calls == [] then map[]
    else
      var before := calls[..|calls| - 1];
      Recorded(LatestGrants(s, before, pool), Run(s, before), calls[|calls| - 1], pool)
  }

  function Recorded(grants: map<string, u64>, s: State, c: Call, pool: string): map<string, u64> {
    if c.CallAcquire? && c.pool == pool && Exec(s, c).reply == Flag(true)
    then grants[c.holder := SaturatingAdd(s.now, c.ttl)]
    else grants
  }

  /** The holders whose latest grant has not expired at `now`. */
  function LiveHolders(grants: map<string, u64>, now: u64): set<string> {
    set h | h in grants && grants[h] > now
  }

  /** The bookkeeping of one pool against the history: it lists no expiry the history
      does not have, and what it forgot has expired. */
  ghost predicate PoolTellsHistory(s: State, grants: map<string, u64>, pool: string) {
    if pool in s.semaphores then
      var semaphore := s.semaphores[pool];
      && |semaphore.holders| <= semaphore.capacity
      && (forall h :: h in semaphore.holders ==> h in grants && grants[h] == semaphore.holders[h])
      && (forall h :: h in grants && h !in semaphore.holders ==> grants[h] <= s.now)
    else
      grants == map[]
  }

  lemma HoldersAtAreTheLiveOnes(s: State, grants: map<string, u64>, pool: string)
    requires PoolTellsHistory(s, grants, pool)
    ensures HoldersAt(s, pool).Keys == LiveHolders(grants, s.now)
    ensures forall h :: h in HoldersAt(s, pool) ==> HoldersAt(s, pool)[h] == grants[h]
    ensures |LiveHolders(grants, s.now)| == |HoldersAt(s, pool)|
    ensures pool in s.semaphores ==> |HoldersAt(s, pool)| <= s.semaphores[pool].capacity
    ensures pool !in s.semaphores ==> |HoldersAt(s, pool)| == 0
  {
    if pool in s.semaphores {
      var all := s.semaphores[pool].holders;
      assert HoldersAt(s, pool).Keys <= all.Keys;
      SubsetIsNoLarger(HoldersAt(s, pool).Keys, all.Keys);
    }
  }

  lemma {:induction false} SubsetIsNoLarger<T>(a: set<T>, b: set<T>)
    requires a <= b
    ensures |a| <= |b|
  {
    if a != {} {
      var x :| x in a;
      SubsetIsNoLarger(a - {x}, b - {x});
    }
  }

  lemma OtherCallsLeaveThePool(s: State, c: Call, grants: map<string, u64>, pool: string)
    requires !(c.CallAcquire? && c.pool == pool) || !Asserts(s, c)
    ensures Recorded(grants, s, c, pool) == grants
    ensures s.now <= Exec(s, c).state.now
    ensures pool in s.semaphores <==> pool in Exec(s, c).state.semaphores
    ensures pool in s.semaphores ==> Exec(s, c).state.semaphores[pool] == s.semaphores[pool]
  {
  }

  lemma AcquireUpdatesThePool(s: State, c: Call, grants: map<string, u64>)
    requires c.CallAcquire? && Asserts(s, c)
    ensures
      var holders := HoldersAt(s, c.pool);
      var free := c.holder in holders || |holders| < c.capacity;
      var Outcome(s', reply) := Exec(s, c);
      && reply == Flag(free)
      && s'.now == s.now
      && c.pool in s'.semaphores
      && s'.semaphores[c.pool]
         == Semaphore(c.capacity, if free then holders[c.holder := SaturatingAdd(s.now, c.ttl)] else holders)
      && Recorded(grants, s, c, c.pool) == if free then grants[c.holder := SaturatingAdd(s.now, c.ttl)] else grants
  {
  }

  lemma StepKeepsThePool(s: State, c: Call, grants: map<string, u64>, pool: string)
    requires PoolTellsHistory(s, grants, pool)
    ensures PoolTellsHistory(Exec(s, c).state, Recorded(grants, s, c, pool), pool)
  {
    hide Exec, Recorded, HoldersAt;
    if c.CallAcquire? && c.pool == pool && Asserts(s, c) {
      HoldersAtAreTheLiveOnes(s, grants, pool);
      AcquireUpdatesThePool(s, c, grants);
      var holders := HoldersAt(s, pool);
      if c.holder in holders {
        assert holders[c.holder := SaturatingAdd(s.now, c.ttl)].Keys == holders.Keys;
        assert |holders[c.holder := SaturatingAdd(s.now, c.ttl)]| == |holders|;
      }
    } else {
      OtherCallsLeaveThePool(s, c, grants, pool);
    }
  }

  lemma {:induction false} RunKeepsThePool(calls: seq<Call>, pool: string)
    ensures PoolTellsHistory(Run(INITIAL, calls), LatestGrants(INITIAL, calls, pool), pool)
  {
    hide Exec, Recorded;
    if calls != [] {
      var before := calls[..|calls| - 1];
      RunKeepsThePool(before, pool);
      StepKeepsThePool(Run(INITIAL, before), calls[|calls| - 1], LatestGrants(INITIAL, before, pool), pool);
    }
  }

  /** At every moment of every run, the holders whose latest grant is unexpired number at
      most the pool's capacity. */
  lemma SlotsAreNeverOversubscribed(calls: seq<Call>, pool: string)
    ensures
      var s := Run(INITIAL, calls);
      var live := LiveHolders(LatestGrants(INITIAL, calls, pool), s.now);
      if pool in s.semaphores then |live| <= s.semaphores[pool].capacity else live == {}
  {
    hide Run, LatestGrants;
    RunKeepsThePool(calls, pool);
    HoldersAtAreTheLiveOnes(Run(INITIAL, calls), LatestGrants(INITIAL, calls, pool), pool);
  }

  /** A request is denied exactly when the requester holds no live slot and exactly
      `capacity` others do. */
  lemma DeniedExactlyWhenOthersFillThePool(calls: seq<Call>, c: Call)
    requires c.CallAcquire? && Asserts(Run(INITIAL, calls), c)
    ensures
      var s := Run(INITIAL, calls);
      var live := LiveHolders(LatestGrants(INITIAL, calls, c.pool), s.now);
      && (Exec(s, c).reply == Flag(false) <==> c.holder !in live && |live| == c.capacity)
      && (Exec(s, c).reply == Flag(true) <==> c.holder in live || |live| < c.capacity)
  {
    hide Run, LatestGrants, Exec, Recorded;
    var s := Run(INITIAL, calls);
    var grants := LatestGrants(INITIAL, calls, c.pool);
    RunKeepsThePool(calls, c.pool);
    HoldersAtAreTheLiveOnes(s, grants, c.pool);
    AcquireUpdatesThePool(s, c, grants);
  }
}
