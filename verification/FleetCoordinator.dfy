/** The coordinator object: fields updated in place, each method proved against the
    transition of the same name on the object's value. */
module FleetCoordinator {
  import opened Prelude
  import opened Coordination

  class Coordinator {
    var now: u64
    var nextFencingToken: u64
    var leases: map<string, Lease>
    var semaphores: map<string, Semaphore>
    var rateWindows: map<string, RateWindow>
    var heartbeats: map<string, u64>
    var expiredHeartbeatsRecorded: set<string>
    var cronFires: set<(string, u64)>
    var kv: map<string, KvValue>
    var watchEvents: seq<WatchEvent>
    var sideEffects: map<string, string>
    var metrics: Metrics

    /** The object's state as the value the theorems speak about. */
    ghost function View(): State
      reads this
    {
      State(now, nextFencingToken, leases, semaphores, rateWindows, heartbeats,
            expiredHeartbeatsRecorded, cronFires, kv, watchEvents, sideEffects, metrics)
    }

    constructor ()
      ensures View() == INITIAL
    {
      now, nextFencingToken := 0, 0;
      leases, semaphores, rateWindows, heartbeats := map[], map[], map[], map[];
      expiredHeartbeatsRecorded, cronFires := {}, {};
      kv, watchEvents, sideEffects := map[], [], map[];
      metrics := NO_METRICS;
    }

    method Advance(seconds: u64)
      modifies this`now
      ensures Outcome(View(), Done) == Coordination.Advance(old(View()), seconds)
    {
      now := SaturatingAdd(now, seconds);
    }

    method Claim(resource: string, holder: string, ttl: u64) returns (r: Result<Lease, ClaimError>)
      requires ttl > 0
      modifies this
      ensures Outcome(View(), match r case Ok(l) => Granted(l) case Err(e) => Refused(e))
           == Coordination.Claim(old(View()), resource, holder, ttl)
    {
      if resource in leases {
        var lease := leases[resource];
        if lease.expiresAt > now {
          metrics := metrics.(claimsRejected := WrappingInc(metrics.claimsRejected));
          return Err(HeldBy(lease.holder, lease.expiresAt));
        }
      }
      nextFencingToken := SaturatingAdd(nextFencingToken, 1);
      var lease := Lease(holder, nextFencingToken, SaturatingAdd(now, ttl));
      leases := leases[resource := lease];
      metrics := metrics.(claimsGranted := WrappingInc(metrics.claimsGranted));
      return Ok(lease);
    }

    method Renew(resource: string, holder: string, token: u64, ttl: u64) returns (ok: bool)
      requires ttl > 0
      modifies this
      ensures Outcome(View(), Flag(ok)) == Coordination.Renew(old(View()), resource, holder, token, ttl)
    {
      if resource !in leases {
        metrics := metrics.(renewalsRejected := WrappingInc(metrics.renewalsRejected));
        return false;
      }
      var lease := leases[resource];
      if lease.expiresAt <= now || lease.holder != holder || lease.fencingToken != token {
        metrics := metrics.(renewalsRejected := WrappingInc(metrics.renewalsRejected));
        return false;
      }
      leases := leases[resource := lease.(expiresAt := SaturatingAdd(now, ttl))];
      metrics := metrics.(renewalsGranted := WrappingInc(metrics.renewalsGranted));
      return true;
    }

    method CommitIfCurrent(resource: string, holder: string, token: u64) returns (current: bool)
      modifies this`metrics
      ensures Outcome(View(), Flag(current)) == Coordination.CommitIfCurrent(old(View()), resource, holder, token)
    {
      current := resource in leases
      && leases[resource].expiresAt > now
      && leases[resource].holder == holder
      && leases[resource].fencingToken == token;
      if !current {
        metrics := metrics.(staleCommitsRejected := WrappingInc(metrics.staleCommitsRejected));
      }
    }

    method AcquireSlot(pool: string, holder: string, capacity: u64, ttl: u64) returns (ok: bool)
      requires capacity > 0 && ttl > 0
      requires PoolAgrees(View(), pool, capacity)
      modifies this
      ensures Outcome(View(), Flag(ok)) == Coordination.AcquireSlot(old(View()), pool, holder, capacity, ttl)
    {
      if pool !in semaphores {
        semaphores := semaphores[pool := Semaphore(capacity, map[])];
      }
      semaphores := semaphores[pool := semaphores[pool].(holders := Unexpired(semaphores[pool].holders, now))];
      var semaphore := semaphores[pool];
      assert semaphore.holders ==
             if pool in old(semaphores) then Unexpired(old(semaphores)[pool].holders, now) else map[];
      if holder in semaphore.holders {
        var renewed := semaphore.holders[holder := SaturatingAdd(now, ttl)];
        semaphores := semaphores[pool := semaphore.(holders := renewed)];
        assert semaphores == old(semaphores)[pool := Semaphore(capacity, renewed)];
        return true;
      }
      if |semaphore.holders| >= semaphore.capacity {
        metrics := metrics.(semaphoreDenied := WrappingInc(metrics.semaphoreDenied));
        assert semaphores == old(semaphores)[pool := semaphore];
        return false;
      }
      var grown := semaphore.holders[holder := SaturatingAdd(now, ttl)];
      semaphores := semaphores[pool := semaphore.(holders := grown)];
      assert semaphores == old(semaphores)[pool := Semaphore(capacity, grown)];
      return true;
    }

    method ConsumeQuota(quota: string, units: u64, capacity: u64, windowSeconds: u64) returns (ok: bool)
      requires capacity > 0 && windowSeconds > 0
      requires QuotaAgrees(View(), quota, capacity, windowSeconds)
      modifies this
      ensures Outcome(View(), Flag(ok)) == Coordination.ConsumeQuota(old(View()), quota, units, capacity, windowSeconds)
    {
      if quota !in rateWindows {
        rateWindows := rateWindows[quota := RateWindow(capacity, windowSeconds, now, 0)];
      }
      var window := rateWindows[quota];
      if now >= SaturatingAdd(window.startsAt, window.windowSeconds) {
        window := window.(startsAt := now, used := 0);
        rateWindows := rateWindows[quota := window];
      }
      if units > SaturatingSub(window.capacity, window.used) {
        metrics := metrics.(quotaDenied := WrappingInc(metrics.quotaDenied));
        assert rateWindows == old(rateWindows)[quota := window];
        return false;
      }
      rateWindows := rateWindows[quota := window.(used := window.used + units)];
      assert rateWindows == old(rateWindows)[quota := window.(used := window.used + units)];
      return true;
    }

    method Heartbeat(worker: string, ttl: u64)
      requires ttl > 0
      modifies this
      ensures Outcome(View(), Done) == Coordination.Heartbeat(old(View()), worker, ttl)
    {
      heartbeats := heartbeats[worker := SaturatingAdd(now, ttl)];
      expiredHeartbeatsRecorded := expiredHeartbeatsRecorded - {worker};
    }

    method WorkerIsAlive(worker: string) returns (alive: bool)
      modifies this
      ensures Outcome(View(), Flag(alive)) == Coordination.WorkerIsAlive(old(View()), worker)
    {
      alive := worker in heartbeats && heartbeats[worker] > now;
      if !alive && worker in heartbeats && worker !in expiredHeartbeatsRecorded {
        expiredHeartbeatsRecorded := expiredHeartbeatsRecorded + {worker};
        metrics := metrics.(heartbeatExpired := WrappingInc(metrics.heartbeatExpired));
      }
    }

    method FireCronOnce(resource: string, leader: string, token: u64, job: string, scheduledAt: u64)
      returns (ok: bool)
      modifies this
      ensures Outcome(View(), Flag(ok))
           == Coordination.FireCronOnce(old(View()), resource, leader, token, job, scheduledAt)
    {
      var current := CommitIfCurrent(resource, leader, token);
      if !current {
        return false;
      }
      if (job, scheduledAt) in cronFires {
        metrics := metrics.(cronDuplicateSuppressed := WrappingInc(metrics.cronDuplicateSuppressed));
        return false;
      }
      cronFires := cronFires + {(job, scheduledAt)};
      return true;
    }

    method Cas(key: string, expected: u64, value: string) returns (r: Result<KvValue, CasError>)
      modifies this
      ensures Outcome(View(), match r case Ok(v) => Stored(v) case Err(e) => Conflict(e))
           == Coordination.Cas(old(View()), key, expected, value)
    {
      var actual: u64 := if key in kv then kv[key].revision else 0;
      if actual != expected {
        metrics := metrics.(casConflicts := WrappingInc(metrics.casConflicts));
        return Err(RevisionMismatch(expected, actual));
      }
      var next := KvValue(SaturatingAdd(actual, 1), value);
      kv := kv[key := next];
      watchEvents := watchEvents + [WatchEvent(key, next.revision, next.value)];
      return Ok(next);
    }

    method PerformSideEffectOnce(idempotencyKey: string, payload: string) returns (first: bool)
      modifies this
      ensures Outcome(View(), Flag(first)) == Coordination.PerformSideEffectOnce(old(View()), idempotencyKey, payload)
    {
      if idempotencyKey in sideEffects {
        metrics := metrics.(
          sideEffectDuplicatesSuppressed := WrappingInc(metrics.sideEffectDuplicatesSuppressed));
        return false;
      }
      sideEffects := sideEffects[idempotencyKey := payload];
      return true;
    }
  }
}
