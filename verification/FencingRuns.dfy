/** Leases and fencing tokens over whole runs of the coordinator: who may hold
    authority, which tokens are handed out, and exactly when lost authority can come
    back at the edge of the 64-bit token counter. */
module FencingRuns {
  import opened Prelude
  import opened Coordination

  /** Every lease carries a token the counter has already reached. */
  ghost predicate TokensIssued(s: State) {
    forall r :: r in s.leases ==> 1 <= s.leases[r].fencingToken <= s.nextFencingToken
  }

  lemma StepKeepsTokensIssued(s: State, c: Call)
    requires TokensIssued(s)
    ensures TokensIssued(Exec(s, c).state)
    ensures s.nextFencingToken <= Exec(s, c).state.nextFencingToken
    ensures s.now <= Exec(s, c).state.now
  {
  }

  lemma {:induction false} RunKeepsTokensIssued(s: State, calls: seq<Call>)
    requires TokensIssued(s)
    ensures TokensIssued(Run(s, calls))
    ensures s.nextFencingToken <= Run(s, calls).nextFencingToken
    ensures s.now <= Run(s, calls).now
  {
    if calls != [] {
      RunKeepsTokensIssued(s, calls[..|calls| - 1]);
      StepKeepsTokensIssued(Run(s, calls[..|calls| - 1]), calls[|calls| - 1]);
    }
  }

  // ----- one winner per resource -----

  /** A claim is granted exactly when nobody holds the resource; the winner then holds
      it, unless the clock has reached its last value, where the lease is dead on
      arrival. Nothing else about the other resources changes. */
  lemma ClaimHasOneWinner(s: State, resource: string, holder: string, ttl: u64)
    requires ttl > 0
    ensures
      var Outcome(s', reply) := Exec(s, CallClaim(resource, holder, ttl));
      && (reply.Granted? <==> forall h, t :: !Current(s, resource, h, t))
      && (reply.Granted? ==>
            && reply.lease.holder == holder
            && (Current(s', resource, holder, reply.lease.fencingToken) <==> s.now < U64_MAX)
            && (forall t: u64 | t <= ttl ::
                  var later := Advance(s', t).state;
                  Current(later, resource, holder, reply.lease.fencingToken)
                  <==> t < ttl && s.now + t < U64_MAX))
      && (!reply.Granted? ==>
            && resource in s.leases
            && var held := s.leases[resource];
            && reply == Refused(HeldBy(held.holder, held.expiresAt))
            && Current(s, resource, held.holder, held.fencingToken))
      && (forall r, h, t | r != resource :: Current(s', r, h, t) <==> Current(s, r, h, t))
  {
    var Outcome(s', reply) := Exec(s, CallClaim(resource, holder, ttl));
    if Active(s, resource) {
      assert Current(s, resource, s.leases[resource].holder, s.leases[resource].fencingToken);
    }
  }

  /** An accepted renewal re-times authority that is still held, and only that: it is
      current for `ttl` more seconds and then not. A refused one changes nobody's
      authority, so an expired claim cannot be resurrected. */
  lemma RenewalRetimesHeldAuthority(s: State, resource: string, holder: string, token: u64, ttl: u64)
    requires ttl > 0
    ensures
      var Outcome(s', reply) := Exec(s, CallRenew(resource, holder, token, ttl));
      && reply == Flag(Current(s, resource, holder, token))
      && (reply == Flag(true) ==>
            forall t: u64 | t <= ttl ::
              Current(Advance(s', t).state, resource, holder, token) <==> t < ttl && s.now + t < U64_MAX)
      && (forall r, h, t ::
            Current(s', r, h, t) <==>
            Current(s, r, h, t) && (reply == Flag(true) && r == resource ==> s.now < U64_MAX))
  {
  }

  // ----- tokens handed out -----

  /** The tokens granted during the run, oldest first. */
  function GrantTokens(s: State, calls: seq<Call>): seq<u64> {
    if calls == [] then []
    else
      var before := calls[..|calls| - 1];
      var reply := Exec(Run(s, before), calls[|calls| - 1]).reply;
      GrantTokens(s, before) + if reply.Granted? then [reply.lease.fencingToken] else []
  }

  lemma GrantStep(s: State, c: Call)
    ensures
      var Outcome(s', reply) := Exec(s, c);
      && s'.nextFencingToken == (if reply.Granted? then SaturatingAdd(s.nextFencingToken, 1) else s.nextFencingToken)
      && s'.metrics.claimsGranted == BumpIf(reply.Granted?, s.metrics.claimsGranted)
      && (reply.Granted? ==> reply.lease.fencingToken == s'.nextFencingToken)
  {
  }

  /** The whole token sequence in closed form: consecutive numbers until the counter
      saturates, then the last number for ever. The metric counts the same grants. */
  lemma {:induction false} GrantTokensInClosedForm(s: State, calls: seq<Call>)
    ensures
      var tokens := GrantTokens(s, calls);
      var s' := Run(s, calls);
      && s'.nextFencingToken == Min(s.nextFencingToken + |tokens|, U64_MAX)
      && s'.metrics.claimsGranted == (s.metrics.claimsGranted + |tokens|) % 0x1_0000_0000_0000_0000
      && forall i :: 0 <= i < |tokens| ==> tokens[i] == Min(s.nextFencingToken + i + 1, U64_MAX)
  {
    hide Exec;
    if calls != [] {
      var before := calls[..|calls| - 1];
      GrantTokensInClosedForm(s, before);
      GrantStep(Run(s, before), calls[|calls| - 1]);
      IncrementModulo(s.metrics.claimsGranted, |GrantTokens(s, before)|);
    }
  }

  lemma IncrementModulo(a: int, n: int)
    ensures WrappingInc((a + n) % 0x1_0000_0000_0000_0000) == (a + n + 1) % 0x1_0000_0000_0000_0000
  {
  }

  ghost predicate StrictlyIncreasing(tokens: seq<u64>) {
    forall i, j :: 0 <= i < j < |tokens| ==> tokens[i] < tokens[j]
  }

  ghost predicate DistinctTokens(tokens: seq<u64>) {
    forall i, j :: 0 <= i < j < |tokens| ==> tokens[i] != tokens[j]
  }

  /** Tokens of one run from a coordinator that has granted nothing are strictly increasing, hence
      globally unique, exactly up to 2^64 - 1 grants; that far the counter and the
      `claims_granted` metric agree. */
  lemma TokensAreUniqueExactlyBelowSaturation(s: State, calls: seq<Call>)
    requires s.nextFencingToken == s.metrics.claimsGranted == 0
    ensures
      var tokens := GrantTokens(s, calls);
      && (StrictlyIncreasing(tokens) <==> |tokens| <= U64_MAX)
      && (DistinctTokens(tokens) <==> |tokens| <= U64_MAX)
      && (|tokens| <= U64_MAX ==>
            Run(s, calls).nextFencingToken == Run(s, calls).metrics.claimsGranted == |tokens|)
  {
    hide Run, GrantTokens;
    GrantTokensInClosedForm(s, calls);
    SaturatingNumbering(GrantTokens(s, calls));
  }

  lemma SaturatingNumbering(tokens: seq<u64>)
    requires forall i :: 0 <= i < |tokens| ==> tokens[i] == Min(i + 1, U64_MAX)
    ensures StrictlyIncreasing(tokens) <==> |tokens| <= U64_MAX
    ensures DistinctTokens(tokens) <==> |tokens| <= U64_MAX
  {
    if |tokens| > U64_MAX {
      assert tokens[U64_MAX - 1] == tokens[U64_MAX] == U64_MAX;
    }
  }

  // ----- tokens identify claims -----

  /** The `i`-th call was granted a claim under `token`. */
  ghost predicate GrantedAt(calls: seq<Call>, i: nat, token: u64) {
    && i < |calls| && calls[i].CallClaim?
    && ReplyAt(INITIAL, calls, i).Granted? && ReplyAt(INITIAL, calls, i).lease.fencingToken == token
  }

  lemma LeaseOrigin(s: State, c: Call, resource: string)
    requires resource in Exec(s, c).state.leases
    ensures
      var lease := Exec(s, c).state.leases[resource];
      || (resource in s.leases && s.leases[resource].holder == lease.holder
          && s.leases[resource].fencingToken == lease.fencingToken)
      || (c.CallClaim? && c.resource == resource && c.holder == lease.holder
          && Exec(s, c).reply.Granted? && Exec(s, c).reply.lease.fencingToken == lease.fencingToken)
  {
  }

  /** Every lease goes back to a granted claim. */
  lemma {:induction false} LeasesAreGranted(calls: seq<Call>, resource: string) returns (i: nat)
    requires resource in Run(INITIAL, calls).leases
    ensures
      var lease := Run(INITIAL, calls).leases[resource];
      && GrantedAt(calls, i, lease.fencingToken)
      && calls[i].resource == resource && calls[i].holder == lease.holder
  {
    hide Exec;
    var before, last := calls[..|calls| - 1], calls[|calls| - 1];
    var s := Run(INITIAL, before);
    LeaseOrigin(s, last, resource);
    var lease := Run(INITIAL, calls).leases[resource];
    if resource in s.leases && s.leases[resource].holder == lease.holder
       && s.leases[resource].fencingToken == lease.fencingToken {
      i := LeasesAreGranted(before, resource);
      assert calls[..i] == before[..i];
    } else {
      i := |before|;
    }
  }

  lemma GrantsInTurn(calls: seq<Call>, i: nat, j: nat, a: u64, b: u64)
    requires GrantedAt(calls, i, a) && GrantedAt(calls, j, b) && i < j
    ensures a < b || b == U64_MAX
  {
    hide Exec, Run;
    RunStep(calls, i);
    GrantStep(Run(INITIAL, calls[..i]), calls[i]);
    NothingIssuedYet();
    RunKeepsTokensIssued(INITIAL, calls[..i + 1]);
    assert calls[..j] == calls[..i + 1] + calls[i + 1..j];
    RunConcat(INITIAL, calls[..i + 1], calls[i + 1..j]);
    RunKeepsTokensIssued(Run(INITIAL, calls[..i + 1]), calls[i + 1..j]);
    GrantStep(Run(INITIAL, calls[..j]), calls[j]);
  }

  lemma RunStep(calls: seq<Call>, i: nat)
    requires i < |calls|
    ensures Run(INITIAL, calls[..i + 1]) == Exec(Run(INITIAL, calls[..i]), calls[i]).state
  {
    assert calls[..i + 1][..i] == calls[..i];
  }

  lemma NothingIssuedYet()
    ensures TokensIssued(INITIAL)
  {
  }

  /** Below the last value a token belongs to one claim, whatever the resource. */
  lemma TokensIdentifyGrants(calls: seq<Call>, i: nat, j: nat, token: u64)
    requires GrantedAt(calls, i, token) && GrantedAt(calls, j, token) && token < U64_MAX
    ensures i == j
  {
    hide GrantedAt;
    if i < j {
      GrantsInTurn(calls, i, j, token, token);
    } else if j < i {
      GrantsInTurn(calls, j, i, token, token);
    }
  }

  lemma RenewalsAreOfTheHolder(s: State, c: Call)
    requires c.CallRenew? && Exec(s, c).reply == Flag(true)
    ensures c.resource in s.leases
    ensures s.leases[c.resource].holder == c.holder && s.leases[c.resource].fencingToken == c.token
  {
  }

  /** An accepted renewal goes back to the claim it renews; below the last token there is
      only that one under its token, so the resource is the claim's. */
  lemma RenewalsFollowTheirGrant(calls: seq<Call>, k: nat, i: nat)
    requires k < |calls| && calls[k].CallRenew? && ReplyAt(INITIAL, calls, k) == Flag(true)
    requires GrantedAt(calls, i, calls[k].token) && calls[k].token < U64_MAX
    ensures calls[i].resource == calls[k].resource && i < k
  {
    hide Exec, Run;
    RenewalsAreOfTheHolder(Run(INITIAL, calls[..k]), calls[k]);
    var j := LeasesAreGranted(calls[..k], calls[k].resource);
    assert calls[..k][..j] == calls[..j];
    TokensIdentifyGrants(calls, i, j, calls[k].token);
  }

  // ----- lost authority -----

  /** A call that makes (resource, holder, token) current either found it current, or
      is a claim that was granted that very token. */
  lemma AuthorityComesFromAGrant(s: State, c: Call, resource: string, holder: string, token: u64)
    requires !Current(s, resource, holder, token)
    requires Current(Exec(s, c).state, resource, holder, token)
    ensures c.CallClaim? && c.resource == resource && c.holder == holder
    ensures !Active(s, resource) && token == SaturatingAdd(s.nextFencingToken, 1) && s.now < U64_MAX
  {
  }

  /** Below the last token value, authority once lost is refused in every
      continuation, however long, by whatever callers. */
  lemma {:induction false} LostAuthorityIsNeverRegained(
    s: State, before: seq<Call>, after: seq<Call>, resource: string, holder: string, token: u64)
    requires TokensIssued(s) && token < U64_MAX
    requires Current(s, resource, holder, token)
    requires !Current(Run(s, before), resource, holder, token)
    ensures !Current(Run(s, before + after), resource, holder, token)
    ensures forall ttl: u64 | ttl > 0 ::
              Exec(Run(s, before + after), CallRenew(resource, holder, token, ttl)).reply == Flag(false)
    ensures Exec(Run(s, before + after), CallCommit(resource, holder, token)).reply == Flag(false)
  {
    RunKeepsTokensIssued(s, before);
    RunConcat(s, before, after);
    StaysLost(Run(s, before), after, resource, holder, token);
  }

  lemma {:induction false} StaysLost(s: State, calls: seq<Call>, resource: string, holder: string, token: u64)
    requires TokensIssued(s) && token <= s.nextFencingToken && token < U64_MAX
    requires !Current(s, resource, holder, token)
    ensures !Current(Run(s, calls), resource, holder, token)
  {
    if calls != [] {
      var before := Run(s, calls[..|calls| - 1]);
      StaysLost(s, calls[..|calls| - 1], resource, holder, token);
      RunKeepsTokensIssued(s, calls[..|calls| - 1]);
      if Current(Exec(before, calls[|calls| - 1]).state, resource, holder, token) {
        AuthorityComesFromAGrant(before, calls[|calls| - 1], resource, holder, token);
      }
    }
  }

  /** What a caller can check to know whether lost authority might return: the counter
      is saturated, the clock is not, and the resource can still be freed in time. */
  predicate CanReturn(s: State, resource: string, token: u64) {
    && token == U64_MAX
    && s.now < U64_MAX
    && (Active(s, resource) ==> s.now < U64_MAX - 1)
  }

  /** Exactly when the saturating counter breaks fencing. */
  lemma LostAuthorityReturnsExactlyWhen(s: State, resource: string, holder: string, token: u64)
    requires TokensIssued(s) && token <= s.nextFencingToken
    requires !Current(s, resource, holder, token)
    ensures (exists calls :: Current(Run(s, calls), resource, holder, token)) <==> CanReturn(s, resource, token)
  {
    if CanReturn(s, resource, token) {
      assert token == U64_MAX == s.nextFencingToken;
      var calls := RevivingCalls(s, resource, holder);
      assert Current(Run(s, calls), resource, holder, token);
      assert exists calls :: Current(Run(s, calls), resource, holder, token);
    }
    forall calls | !CanReturn(s, resource, token)
      ensures !Current(Run(s, calls), resource, holder, token)
    {
      if token < U64_MAX {
        StaysLost(s, calls, resource, holder, token);
      } else {
        LateClockStaysLost(s, calls, resource, holder);
      }
    }
  }

  lemma OneCall(s: State, c: Call)
    ensures Run(s, [c]) == Exec(s, c).state
  {
    assert [c][..0] == [];
  }

  lemma ThreeCalls(s: State, a: Call, b: Call, c: Call)
    ensures Run(s, [a, b, c]) == Exec(Exec(Exec(s, a).state, b).state, c).state
  {
    hide Exec;
    assert [a, b, c][..2] == [a, b] && [a, b][..1] == [a];
    OneCall(s, a);
  }

  /** The run that brings saturated authority back. */
  lemma RevivingCalls(s: State, resource: string, holder: string) returns (calls: seq<Call>)
    requires CanReturn(s, resource, U64_MAX) && s.nextFencingToken == U64_MAX
    ensures Current(Run(s, calls), resource, holder, U64_MAX)
  {
    hide Run;
    var claim := CallClaim(resource, holder, 1);
    if Active(s, resource) {
      var lease := s.leases[resource];
      var renew := CallRenew(resource, lease.holder, lease.fencingToken, 1);
      calls := [renew, CallAdvance(1), claim];
      ThreeCalls(s, renew, CallAdvance(1), claim);
      OutlivedByOneSecond(s, resource);
      FreedIsClaimed(Exec(Exec(s, renew).state, CallAdvance(1)).state, resource, holder);
    } else {
      calls := [claim];
      OneCall(s, claim);
      FreedIsClaimed(s, resource, holder);
    }
  }

  lemma OutlivedByOneSecond(s: State, resource: string)
    requires Active(s, resource) && s.now < U64_MAX - 1
    ensures
      var lease := s.leases[resource];
      var later := Exec(Exec(s, CallRenew(resource, lease.holder, lease.fencingToken, 1)).state, CallAdvance(1)).state;
      !Active(later, resource) && later.now == s.now + 1 && later.nextFencingToken == s.nextFencingToken
  {
  }

  lemma FreedIsClaimed(s: State, resource: string, holder: string)
    requires !Active(s, resource) && s.now < U64_MAX && s.nextFencingToken == U64_MAX
    ensures Current(Exec(s, CallClaim(resource, holder, 1)).state, resource, holder, U64_MAX)
  {
  }

  /** The names of as many resources as are wanted. */
  function Name(n: nat): (name: string)
    ensures |name| == n
  {
    seq(n, _ => 'r')
  }

  lemma FreshClaim(s: State, n: nat)
    requires s.nextFencingToken == n < U64_MAX && s.now == 0 && forall r :: r in s.leases ==> |r| < n
    ensures
      var next := Exec(s, CallClaim(Name(n), "", 1)).state;
      next.nextFencingToken == n + 1 && next.now == 0 && forall r :: r in next.leases ==> |r| < n + 1
  {
    assert Name(n) !in s.leases;
  }

  /** Every value of the token counter is reached by a run, with the clock still at zero. */
  lemma {:induction false} EveryTokenIsReached(n: u64) returns (calls: seq<Call>)
    ensures
      var s := Run(INITIAL, calls);
      s.nextFencingToken == n && s.now == 0 && forall r :: r in s.leases ==> |r| < n
  {
    hide Exec, Name;
    if n == 0 {
      calls := [];
    } else {
      var before := EveryTokenIsReached(n - 1);
      FreshClaim(Run(INITIAL, before), n - 1);
      var claim := CallClaim(Name(n - 1), "", 1);
      assert (before + [claim])[..|before|] == before;
      calls := before + [claim];
    }
  }

  lemma LastGrant(s: State, resource: string, holder: string)
    requires s.nextFencingToken == U64_MAX - 1 && s.now == 0 && resource !in s.leases
    ensures
      var granted := Exec(s, CallClaim(resource, holder, 1)).state;
      var later := Exec(granted, CallAdvance(1)).state;
      && Current(granted, resource, holder, U64_MAX)
      && !Current(later, resource, holder, U64_MAX)
      && later.nextFencingToken == U64_MAX && CanReturn(later, resource, U64_MAX)
  {
  }

  /** From the start, authority is granted, lost and granted back under one token: the
      saturated counter breaks fencing in runs that really exist. */
  lemma LostAuthorityDoesReturn(holder: string)
    returns (resource: string, granting: seq<Call>, losing: seq<Call>, reviving: seq<Call>)
    ensures Current(Run(INITIAL, granting), resource, holder, U64_MAX)
    ensures !Current(Run(INITIAL, granting + losing), resource, holder, U64_MAX)
    ensures Current(Run(INITIAL, granting + losing + reviving), resource, holder, U64_MAX)
  {
    hide Run, Exec, Name;
    var before := EveryTokenIsReached(U64_MAX - 1);
    resource := Name(U64_MAX);
    var claim := CallClaim(resource, holder, 1);
    granting, losing := before + [claim], [CallAdvance(1)];
    LastGrant(Run(INITIAL, before), resource, holder);
    RunConcat(INITIAL, before, [claim]);
    OneCall(Run(INITIAL, before), claim);
    RunConcat(INITIAL, granting, losing);
    OneCall(Run(INITIAL, granting), CallAdvance(1));
    reviving := RevivingCalls(Run(INITIAL, granting + losing), resource, holder);
    RunConcat(INITIAL, granting + losing, reviving);
  }

  /** At the very end of the clock nothing can be freed and granted again. */
  lemma LateClockStep(s: State, c: Call, resource: string, holder: string)
    requires !Current(s, resource, holder, U64_MAX) && !CanReturn(s, resource, U64_MAX)
    ensures !Current(Exec(s, c).state, resource, holder, U64_MAX)
    ensures !CanReturn(Exec(s, c).state, resource, U64_MAX)
  {
  }

  lemma {:induction false} LateClockStaysLost(s: State, calls: seq<Call>, resource: string, holder: string)
    requires !Current(s, resource, holder, U64_MAX) && !CanReturn(s, resource, U64_MAX)
    ensures !Current(Run(s, calls), resource, holder, U64_MAX)
    ensures !CanReturn(Run(s, calls), resource, U64_MAX)
  {
    if calls != [] {
      LateClockStaysLost(s, calls[..|calls| - 1], resource, holder);
      LateClockStep(Run(s, calls[..|calls| - 1]), calls[|calls| - 1], resource, holder);
    }
  }

  // ----- accepted steps of many callers -----

  /** The token under which a call on `resource` was accepted, if it was: a grant, an
      accepted renewal, an accepted fenced commit, or an accepted cron fire. */
  function AcceptedToken(s: State, c: Call, resource: string): Option<u64> {
    var reply := Exec(s, c).reply;
    match c
    case CallClaim(r, _, _) => if r == resource && reply.Granted? then Some(reply.lease.fencingToken) else None
    case CallRenew(r, _, t, _) => if r == resource && reply == Flag(true) then Some(t) else None
    case CallCommit(r, _, t) => if r == resource && reply == Flag(true) then Some(t) else None
    case CallFireCron(r, _, t, _, _) => if r == resource && reply == Flag(true) then Some(t) else None
    case _ => None
  }

  /** The highest authority `resource` has ever seen in `s`. */
  function LeaseToken(s: State, resource: string): u64 {
    if resource in s.leases then s.leases[resource].fencingToken else 0
  }

  lemma AcceptedMeansLeaseToken(s: State, c: Call, resource: string)
    requires TokensIssued(s)
    ensures LeaseToken(s, resource) <= LeaseToken(Exec(s, c).state, resource)
    ensures AcceptedToken(s, c, resource).Some? ==>
              AcceptedToken(s, c, resource).value == LeaseToken(Exec(s, c).state, resource)
  {
  }

  lemma {:induction false} LeaseTokenNeverDecreases(s: State, calls: seq<Call>, i: nat, j: nat, resource: string)
    requires TokensIssued(s) && i <= j <= |calls|
    ensures LeaseToken(Run(s, calls[..i]), resource) <= LeaseToken(Run(s, calls[..j]), resource)
    decreases j
  {
    if i < j {
      LeaseTokenNeverDecreases(s, calls, i, j - 1, resource);
      assert calls[..j][..j - 1] == calls[..j - 1];
      RunKeepsTokensIssued(s, calls[..j - 1]);
      AcceptedMeansLeaseToken(Run(s, calls[..j - 1]), calls[j - 1], resource);
    }
  }

  /** Over every interleaving of any callers: the tokens of the accepted steps on one
      resource never decrease. In particular, once a later claim is granted no step
      carrying an older token is accepted, at whatever distance. */
  lemma AcceptedTokensNeverDecrease(s: State, calls: seq<Call>, i: nat, j: nat, resource: string)
    requires TokensIssued(s) && i < j < |calls|
    requires AcceptedToken(Run(s, calls[..i]), calls[i], resource).Some?
    requires AcceptedToken(Run(s, calls[..j]), calls[j], resource).Some?
    ensures AcceptedToken(Run(s, calls[..i]), calls[i], resource).value
         <= AcceptedToken(Run(s, calls[..j]), calls[j], resource).value
  {
    RunKeepsTokensIssued(s, calls[..i]);
    RunKeepsTokensIssued(s, calls[..j]);
    assert calls[..i + 1][..i] == calls[..i];
    AcceptedMeansLeaseToken(Run(s, calls[..i]), calls[i], resource);
    LeaseTokenNeverDecreases(s, calls, i + 1, j, resource);
    AcceptedMeansLeaseToken(Run(s, calls[..j]), calls[j], resource);
  }

  // ----- cron fires and side effects across failover -----

  /** A cron slot fires at most once in any run, and only under current authority. */
  lemma CronSlotFiresAtMostOnce(s: State, calls: seq<Call>, i: nat, j: nat)
    requires i < j < |calls| && calls[i].CallFireCron? && calls[j].CallFireCron?
    requires (calls[i].job, calls[i].scheduledAt) == (calls[j].job, calls[j].scheduledAt)
    requires ReplyAt(s, calls, i) == Flag(true)
    ensures ReplyAt(s, calls, j) == Flag(false)
    ensures Current(Run(s, calls[..i]), calls[i].resource, calls[i].holder, calls[i].token)
  {
    assert calls[..i + 1][..i] == calls[..i];
    OnceKeysGrow(s, calls, i + 1, j);
  }

  /** A side effect runs at most once per idempotency key in any run. */
  lemma SideEffectRunsAtMostOnce(s: State, calls: seq<Call>, i: nat, j: nat)
    requires i < j < |calls| && calls[i].CallSideEffect? && calls[j].CallSideEffect?
    requires calls[i].idempotencyKey == calls[j].idempotencyKey
    ensures ReplyAt(s, calls, j) == Flag(false)
  {
    assert calls[..i + 1][..i] == calls[..i];
    OnceKeysGrow(s, calls, i + 1, j);
  }

  lemma OnceKeysStep(s: State, c: Call)
    ensures s.cronFires <= Exec(s, c).state.cronFires
    ensures s.sideEffects.Keys <= Exec(s, c).state.sideEffects.Keys
  {
  }

  lemma {:induction false} OnceKeysGrow(s: State, calls: seq<Call>, i: nat, j: nat)
    requires i <= j <= |calls|
    ensures Run(s, calls[..i]).cronFires <= Run(s, calls[..j]).cronFires
    ensures Run(s, calls[..i]).sideEffects.Keys <= Run(s, calls[..j]).sideEffects.Keys
    decreases j
  {
    if i < j {
      OnceKeysGrow(s, calls, i, j - 1);
      assert calls[..j][..j - 1] == calls[..j - 1];
      OnceKeysStep(Run(s, calls[..j - 1]), calls[j - 1]);
    }
  }
}
