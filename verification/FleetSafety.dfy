/** What holds in every reachable fleet: every claim a worker acts under was granted, no
    push rests on authority that had passed on, and nothing older than a granted claim is
    ever accepted again. */
module FleetSafety {
  import opened Prelude
  import opened Coordination
  import opened FencingRuns
  import opened Governance
  import opened GovernedPromises
  import opened Fleet

  // ----- what is kept -----

  ghost predicate MessagesOk(f: Fleet) {
    && (forall m :: 0 <= m < |f.sent| ==> f.sent[m].sentAt <= |f.calls|)
    && (forall m :: m in f.served ==>
          && m < |f.sent| && f.sent[m].sentAt <= f.served[m] < |f.calls|
          && f.calls[f.served[m]] == f.sent[m].call)
  }

  /** A request speaks for its worker: for its agent, on the election of its item, for
      thirty seconds, and, unless it is the claim, under the token that was granted. */
  ghost predicate SpeaksFor(w: Worker, call: Call) {
    match call
    case CallClaim(resource, holder, ttl) => resource == "ai-work:" + w.item && holder == w.agent && ttl == 30_000
    case CallRenew(resource, holder, token, ttl) =>
      && w.grantedAt.Some?
      && resource == "ai-work:" + w.item && holder == w.agent && token == w.token && ttl == 30_000
    case CallCommit(resource, holder, token) =>
      w.grantedAt.Some? && resource == "ai-work:" + w.item && holder == w.agent && token == w.token
    case _ => false
  }

  ghost predicate RequestsOk(f: Fleet) {
    forall m :: 0 <= m < |f.sent| ==>
      f.sent[m].worker < |f.workers| && SpeaksFor(f.workers[f.sent[m].worker], f.sent[m].call)
  }

  /** The worker's token was granted to it, for its work item. */
  ghost predicate GrantedTo(f: Fleet, w: Worker, at: nat) {
    && at < |f.calls|
    && f.calls[at] == CallClaim(Resource(w.item), w.agent, CLAIM_LEASE_TTL_MS)
    && NodeReply(f, at).Granted?
    && NodeReply(f, at).lease.fencingToken == w.token
  }

  /** After the final renewal was issued the node accepted a renewal by this agent under
      this token, on the election of the worker's item unless the token is the last. */
  ghost predicate RenewedAt(f: Fleet, w: Worker, r: Renewal) {
    && r.issuedAt <= r.servedAt < |f.calls|
    && f.calls[r.servedAt].CallRenew?
    && f.calls[r.servedAt].holder == w.agent && f.calls[r.servedAt].token == w.token
    && (f.calls[r.servedAt].resource == Resource(w.item) || w.token == U64_MAX)
    && NodeReply(f, r.servedAt) == Flag(true)
  }

  ghost predicate Awaits(f: Fleet, w: Worker, e: Event) {
    && w.awaiting.Some? && w.awaiting.value < |f.sent|
    && Some(f.sent[w.awaiting.value].call) == CallFor(w, e)
  }

  ghost predicate WorkerOk(f: Fleet, w: Worker) {
    && Allowed(true, w.trace)
    && var c := Governance.After(true, w.trace).value;
       && (c.phase == AskingClaim ==> Awaits(f, w, ClaimIssued))
       && (c.phase == AskingRenewal ==> Awaits(f, w, RenewIssued))
       && (w.grantedAt.Some? ==> GrantedTo(f, w, w.grantedAt.value))
       && (w.finalRenewal.Some? ==> c.admitted && RenewedAt(f, w, w.finalRenewal.value))
       && (ClaimReply(true) in w.trace <==> w.grantedAt.Some?)
       && (RenewReply(true) in w.trace ==> w.finalRenewal.Some?)
  }

  ghost predicate FleetOk(f: Fleet) {
    MessagesOk(f) && RequestsOk(f) && forall i :: 0 <= i < |f.workers| ==> WorkerOk(f, f.workers[i])
  }

  // ----- moves of the node -----

  lemma EarlierReplies(f: Fleet, g: Fleet, at: nat)
    requires f.calls <= g.calls && at < |f.calls|
    ensures g.calls[at] == f.calls[at] && NodeReply(g, at) == NodeReply(f, at)
  {
    assert g.calls[..at] == f.calls[..at];
  }

  /** More calls at the node and more messages leave a worker's account as it was. */
  lemma WorkerStaysOk(f: Fleet, g: Fleet, w: Worker)
    requires WorkerOk(f, w) && f.calls <= g.calls && f.sent <= g.sent
    ensures WorkerOk(g, w)
  {
    hide ReplyAt, Allowed, Governance.After;
    if w.grantedAt.Some? {
      EarlierReplies(f, g, w.grantedAt.value);
    }
    if w.finalRenewal.Some? {
      EarlierReplies(f, g, w.finalRenewal.value.servedAt);
    }
  }

  lemma NodeMoves(f: Fleet, move: Move)
    requires FleetOk(f) && CanMove(f, move) && (move.Serve? || move.Elsewhere?)
    ensures FleetOk(Moved(f, move))
  {
    hide WorkerOk, ReplyAt;
    var g := Moved(f, move);
    forall i | 0 <= i < |g.workers| ensures WorkerOk(g, g.workers[i]) {
      WorkerStaysOk(f, g, f.workers[i]);
    }
  }

  // ----- moves of a worker -----

  lemma WaitingPhases(c: Control, e: Event)
    requires Step(true, c, e).Some?
    ensures
      var next := Step(true, c, e).value;
      && (next.phase == AskingClaim ==> e == ClaimIssued || (FromOutside(e) && c.phase == AskingClaim))
      && (next.phase == AskingRenewal ==> e == RenewIssued || (FromOutside(e) && c.phase == AskingRenewal))
      && (c.admitted ==> next.admitted)
      && (e == ClaimReply(true) ==> c.phase == AskingClaim)
      && (e == RenewReply(true) ==> c.phase == AskingRenewal)
  {
    hide NextPhase;
    StepIs(true, c, e);
    if !FromOutside(e) {
      WaitingMoves(c, e);
    }
  }

  lemma WaitingMoves(c: Control, e: Event)
    requires NextPhase(true, c, e).Some?
    ensures NextPhase(true, c, e).value == AskingClaim ==> e == ClaimIssued
    ensures NextPhase(true, c, e).value == AskingRenewal ==> e == RenewIssued
    ensures e == ClaimReply(true) ==> c.phase == AskingClaim
    ensures e == RenewReply(true) ==> c.phase == AskingRenewal
  {
  }

  lemma NextControl(trace: seq<Event>, e: Event)
    requires Allowed(true, trace + [e])
    ensures Allowed(true, trace)
    ensures Step(true, Governance.After(true, trace).value, e) == Governance.After(true, trace + [e])
    ensures Step(true, Governance.After(true, trace).value, e).Some?
    ensures forall x :: x in trace + [e] <==> x in trace || x == e
  {
    assert (trace + [e])[..|trace|] == trace;
  }

  /** An event that grants nothing. */
  lemma WorkerActs(f: Fleet, g: Fleet, w: Worker, next: Worker, e: Event)
    requires WorkerOk(f, w) && Allowed(true, w.trace + [e]) && !Grants(e)
    requires f.calls <= g.calls && f.sent <= g.sent
    requires next == w.(trace := w.trace + [e], ticking := next.ticking, awaiting := next.awaiting)
    requires e == ClaimIssued || e == RenewIssued ==> Awaits(g, next, e)
    requires FromOutside(e) ==> next.awaiting == w.awaiting
    ensures WorkerOk(g, next)
  {
    hide ReplyAt, Allowed, Governance.After, Step;
    WorkerStaysOk(f, g, w);
    NextControl(w.trace, e);
    WaitingPhases(Governance.After(true, w.trace).value, e);
  }

  lemma WorkerHears(f: Fleet, w: Worker, e: Event)
    requires MessagesOk(f) && WorkerOk(f, w) && Allowed(true, w.trace + [e]) && Arrives(f, w, e)
    ensures WorkerOk(f, Heard(f, w, e))
  {
    hide ReplyAt, Allowed, Governance.After, Step, NodeReply, MessagesOk;
    NextControl(w.trace, e);
    WaitingPhases(Governance.After(true, w.trace).value, e);
    if e.ClaimReply? {
      NotAdmittedWhenAsking(w.trace);
      ClaimIsGranted(f, w, e);
    }
  }

  lemma ClaimIsGranted(f: Fleet, w: Worker, e: Event)
    requires MessagesOk(f) && e.ClaimReply? && Arrives(f, w, e) && Awaits(f, w, ClaimIssued)
    ensures var next := Heard(f, w, e); next.grantedAt.Some? && GrantedTo(f, next, next.grantedAt.value)
  {
    hide ReplyAt;
  }

  lemma WorkerIsRenewed(f: Fleet, w: Worker, e: Event, servedAt: nat, response: RenewResponse)
    requires MessagesOk(f) && WorkerOk(f, w) && Allowed(true, w.trace + [e])
    requires RenewalArrives(f, w, e, servedAt, response)
    ensures WorkerOk(f, TakenAsRenewal(f, w, e, servedAt, response))
  {
    hide ReplyAt, Allowed, Governance.After, Step, NodeReply, MessagesOk, RenewalArrives;
    NextControl(w.trace, e);
    WaitingPhases(Governance.After(true, w.trace).value, e);
    RenewalIsAwaited(f, w, e, servedAt, response);
    if e.RenewReply? {
      AdmittedWhenRenewing(w.trace);
      GrantedWhenAdmitted(w.trace);
      RenewalIsAccepted(f, w, e, servedAt, response);
    }
  }

  lemma RenewalIsAwaited(f: Fleet, w: Worker, e: Event, servedAt: nat, response: RenewResponse)
    requires RenewalArrives(f, w, e, servedAt, response)
    ensures e == RenewReply(true) || e == TickReply(true)
  {
  }

  /** Whatever response was taken, the node has accepted a renewal of this very claim. */
  lemma RenewalIsAccepted(f: Fleet, w: Worker, e: Event, servedAt: nat, response: RenewResponse)
    requires e.RenewReply? && RenewalArrives(f, w, e, servedAt, response)
    requires w.grantedAt.Some? && GrantedTo(f, w, w.grantedAt.value)
    ensures
      var next := TakenAsRenewal(f, w, e, servedAt, response);
      next.finalRenewal.Some? && RenewedAt(f, next, next.finalRenewal.value)
  {
    hide Exec, Run, RenewalAuthorizes, Shows;
    ShownAuthorizesExactly(Run(INITIAL, f.calls[..servedAt]), f.calls[servedAt], response, w.agent, w.token);
    if w.token < U64_MAX {
      RenewalsFollowTheirGrant(f.calls, servedAt, w.grantedAt.value);
    }
  }

  lemma GrantedWhenAdmitted(trace: seq<Event>)
    requires Allowed(true, trace) && Governance.After(true, trace).value.admitted
    ensures ClaimReply(true) in trace
  {
    hide Governance.After;
    AdmissionFactsHold(trace);
    var x: nat, y: nat, z: nat :| AcceptedAsRunning(trace, x, y, z);
    assert trace[x] == ClaimReply(true);
  }

  lemma NotAdmittedWhenAsking(trace: seq<Event>)
    requires Allowed(true, trace) && Governance.After(true, trace).value.phase == AskingClaim
    ensures !Governance.After(true, trace).value.admitted
  {
    hide Governance.After;
    if Governance.After(true, trace).value.admitted {
      AdmittedNeverGoesBack(true, trace);
    }
  }

  lemma AdmittedWhenRenewing(trace: seq<Event>)
    requires Allowed(true, trace) && Governance.After(true, trace).value.phase == AskingRenewal
    ensures Governance.After(true, trace).value.admitted
  {
    hide Governance.After;
    AdmissionFactsHold(trace);
  }

  lemma OthersStayOk(f: Fleet, g: Fleet, worker: nat)
    requires FleetOk(f) && worker < |f.workers| == |g.workers|
    requires g.workers == f.workers[worker := g.workers[worker]]
    requires f.calls <= g.calls && f.sent <= g.sent
    requires WorkerOk(g, g.workers[worker]) && MessagesOk(g) && RequestsOk(g)
    ensures FleetOk(g)
  {
    hide WorkerOk, MessagesOk, RequestsOk;
    forall i | 0 <= i < |g.workers| ensures WorkerOk(g, g.workers[i]) {
      if i != worker {
        WorkerStaysOk(f, g, f.workers[i]);
      }
    }
  }

  /** Requests sent before still speak for their workers. */
  lemma RequestsStayOk(f: Fleet, g: Fleet, worker: nat)
    requires RequestsOk(f) && worker < |f.workers| == |g.workers| && g.sent == f.sent
    requires g.workers == f.workers[worker := g.workers[worker]]
    requires g.workers[worker].agent == f.workers[worker].agent && g.workers[worker].item == f.workers[worker].item
    requires f.workers[worker].grantedAt.Some? ==>
               g.workers[worker].grantedAt.Some? && g.workers[worker].token == f.workers[worker].token
    ensures RequestsOk(g)
  {
  }

  /** A worker about to hear that its claim is granted had none. */
  lemma NoClaimBefore(f: Fleet, w: Worker, e: Event)
    requires WorkerOk(f, w) && Allowed(true, w.trace + [e]) && e == ClaimReply(true)
    ensures w.grantedAt.None?
  {
    hide ReplyAt, Allowed, Governance.After, Step;
    NextControl(w.trace, e);
    WaitingPhases(Governance.After(true, w.trace).value, e);
    if ClaimReply(true) in w.trace {
      ClaimedOnce(w.trace);
    }
  }

  lemma IssuedSpeaksFor(f: Fleet, w: Worker, e: Event)
    requires WorkerOk(f, w) && Allowed(true, w.trace + [e]) && CallFor(w, e).Some?
    ensures SpeaksFor(w, CallFor(w, e).value)
  {
    hide ReplyAt, Allowed, Governance.After, Step;
    NextControl(w.trace, e);
    if e != ClaimIssued {
      RequestsAreUnderAClaim(w.trace, e);
    }
  }

  lemma LocalMoves(f: Fleet, worker: nat, e: Event)
    requires FleetOk(f) && CanMove(f, Local(worker, e))
    ensures FleetOk(Moved(f, Local(worker, e)))
  {
    hide WorkerOk, ReplyAt, Allowed;
    var g := Moved(f, Local(worker, e));
    WorkerActs(f, g, f.workers[worker], g.workers[worker], e);
    RequestsStayOk(f, g, worker);
    OthersStayOk(f, g, worker);
  }

  lemma IssueMoves(f: Fleet, worker: nat, e: Event)
    requires FleetOk(f) && CanMove(f, Issue(worker, e))
    ensures FleetOk(Moved(f, Issue(worker, e)))
  {
    hide WorkerOk, ReplyAt, Allowed;
    var g := Moved(f, Issue(worker, e));
    var m := |f.sent|;
    IssuedSpeaksFor(f, f.workers[worker], e);
    assert RequestsOk(g);
    assert g.sent[m].call == CallFor(f.workers[worker], e).value;
    WorkerActs(f, g, f.workers[worker], g.workers[worker], e);
    OthersStayOk(f, g, worker);
  }

  lemma ReceiveMoves(f: Fleet, worker: nat, e: Event)
    requires FleetOk(f) && CanMove(f, Receive(worker, e))
    ensures FleetOk(Moved(f, Receive(worker, e)))
  {
    hide WorkerOk, ReplyAt, Allowed, Heard, Arrives;
    var g := Moved(f, Receive(worker, e));
    var w := Heard(f, f.workers[worker], e);
    WorkerHears(f, f.workers[worker], e);
    assert g == With(f, worker, w);
    HeardSpeaksFor(f, f.workers[worker], e);
    RequestsStayOk(f, g, worker);
    WorkerStaysOk(f, g, w);
    OthersStayOk(f, g, worker);
  }

  lemma HeardSpeaksFor(f: Fleet, w: Worker, e: Event)
    requires WorkerOk(f, w) && Allowed(true, w.trace + [e]) && Arrives(f, w, e)
    ensures var next := Heard(f, w, e); next.agent == w.agent && next.item == w.item
    ensures w.grantedAt.Some? ==> Heard(f, w, e).grantedAt.Some? && Heard(f, w, e).token == w.token
  {
    hide WorkerOk, Allowed, ReplyAt;
    if e.ClaimReply? {
      NoClaimBefore(f, w, e);
    }
  }

  lemma TakenSpeaksFor(f: Fleet, w: Worker, e: Event, servedAt: nat, response: RenewResponse)
    requires RenewalArrives(f, w, e, servedAt, response)
    ensures
      var next := TakenAsRenewal(f, w, e, servedAt, response);
      next.agent == w.agent && next.item == w.item && next.token == w.token && next.grantedAt == w.grantedAt
  {
  }

  lemma RenewalMoves(f: Fleet, worker: nat, e: Event, servedAt: nat, response: RenewResponse)
    requires FleetOk(f) && CanMove(f, ReceiveRenewal(worker, e, servedAt, response))
    ensures FleetOk(Moved(f, ReceiveRenewal(worker, e, servedAt, response)))
  {
    hide WorkerOk, ReplyAt, Allowed, TakenAsRenewal, RenewalArrives;
    var g := Moved(f, ReceiveRenewal(worker, e, servedAt, response));
    var w := TakenAsRenewal(f, f.workers[worker], e, servedAt, response);
    WorkerIsRenewed(f, f.workers[worker], e, servedAt, response);
    assert g == With(f, worker, w);
    TakenSpeaksFor(f, f.workers[worker], e, servedAt, response);
    RequestsStayOk(f, g, worker);
    WorkerStaysOk(f, g, w);
    OthersStayOk(f, g, worker);
  }

  lemma MoveKeepsOk(f: Fleet, move: Move)
    requires FleetOk(f)
    ensures FleetOk(Moved(f, move))
  {
    hide FleetOk, CanMove;
    if CanMove(f, move) {
      match move {
        case Local(worker, e) => LocalMoves(f, worker, e);
        case Issue(worker, e) => IssueMoves(f, worker, e);
        case Receive(worker, e) => ReceiveMoves(f, worker, e);
        case ReceiveRenewal(worker, e, servedAt, response) => RenewalMoves(f, worker, e, servedAt, response);
        case Serve(_) => NodeMoves(f, move);
        case Elsewhere(_) => NodeMoves(f, move);
      }
    } else {
      Stuck(f, move);
    }
  }

  lemma Stuck(f: Fleet, move: Move)
    requires !CanMove(f, move)
    ensures Moved(f, move) == f
  {
  }

  // ----- whole runs -----

  /** Workers that have not begun, at a node that has served others before. */
  ghost predicate Beginning(f: Fleet) {
    && f.sent == [] && f.served == map[]
    && forall i :: 0 <= i < |f.workers| ==> f.workers[i] == NewWorker(f.workers[i].agent, f.workers[i].item)
  }

  lemma {:induction false} EveryFleetIsOk(start: Fleet, moves: seq<Move>)
    requires Beginning(start)
    ensures FleetOk(FleetAfter(start, moves))
  {
    hide WorkerOk, Moved;
    if moves == [] {
      forall i | 0 <= i < |start.workers| ensures WorkerOk(start, start.workers[i]) {
        NewWorkerIsOk(start, start.workers[i].agent, start.workers[i].item);
      }
    } else {
      EveryFleetIsOk(start, moves[..|moves| - 1]);
      MoveKeepsOk(FleetAfter(start, moves[..|moves| - 1]), moves[|moves| - 1]);
    }
  }

  lemma NewWorkerIsOk(f: Fleet, agent: string, item: string)
    ensures WorkerOk(f, NewWorker(agent, item))
  {
  }

  // ----- the theorems -----

  /** A claim on `item` granted at `at`, with its token. */
  ghost predicate GrantOf(f: Fleet, item: string, at: nat, token: u64) {
    && at < |f.calls|
    && f.calls[at].CallClaim? && f.calls[at].resource == Resource(item)
    && NodeReply(f, at).Granted? && NodeReply(f, at).lease.fencingToken == token
  }

  /** The node accepted a renewal or a fenced transition of `item` under a token. */
  ghost predicate AcceptedUnder(f: Fleet, item: string, at: nat, token: u64) {
    && at < |f.calls|
    && (|| (f.calls[at].CallRenew? && f.calls[at].resource == Resource(item) && f.calls[at].token == token)
        || (f.calls[at].CallCommit? && f.calls[at].resource == Resource(item) && f.calls[at].token == token))
    && NodeReply(f, at) == Flag(true)
  }

  lemma NodeKeepsOrder(f: Fleet, item: string, i: nat, j: nat, a: u64, b: u64)
    requires i < j
    requires GrantOf(f, item, i, a) || AcceptedUnder(f, item, i, a)
    requires GrantOf(f, item, j, b) || AcceptedUnder(f, item, j, b)
    ensures a <= b
  {
    AcceptedTokensNeverDecrease(INITIAL, f.calls, i, j, Resource(item));
  }

  /** Before the counter saturates a later claim has a greater token. */
  lemma LaterClaimsAreGreater(f: Fleet, item: string, i: nat, a: u64, j: nat, b: u64)
    requires GrantOf(f, item, i, a) && GrantOf(f, item, j, b) && i < j
    requires Run(INITIAL, f.calls[..j]).nextFencingToken < U64_MAX
    ensures a < b
  {
    var before, after := Run(INITIAL, f.calls[..i]), Run(INITIAL, f.calls[..i + 1]);
    assert f.calls[..i + 1][..i] == f.calls[..i];
    GrantStep(before, f.calls[i]);
    RunKeepsTokensIssued(INITIAL, f.calls[..i + 1]);
    assert f.calls[..j] == f.calls[..i + 1] + f.calls[i + 1..j];
    RunConcat(INITIAL, f.calls[..i + 1], f.calls[i + 1..j]);
    RunKeepsTokensIssued(after, f.calls[i + 1..j]);
    GrantStep(Run(INITIAL, f.calls[..j]), f.calls[j]);
  }

  /** Of two claims on a work item granted one after the other, before the counter
      saturates, the earlier is over: no renewal and no transition carrying its token is
      accepted behind the later grant, however late it is served and whichever worker
      sent it. */
  lemma NothingOlderIsAccepted(f: Fleet, item: string, earlier: nat, a: u64, later: nat, b: u64, at: nat)
    requires GrantOf(f, item, earlier, a) && GrantOf(f, item, later, b) && earlier < later
    requires Run(INITIAL, f.calls[..later]).nextFencingToken < U64_MAX
    requires later < at
    ensures !AcceptedUnder(f, item, at, a)
  {
    LaterClaimsAreGreater(f, item, earlier, a, later, b);
    if AcceptedUnder(f, item, at, a) {
      NodeKeepsOrder(f, item, later, at, b, a);
    }
  }

  /** Every request a worker of any fleet has sent speaks for it and, but for the claim,
      under the token it was granted. */
  lemma RequestsSpeakForTheirWorkers(start: Fleet, moves: seq<Move>, m: nat)
    requires Beginning(start) && m < |FleetAfter(start, moves).sent|
    ensures
      var f := FleetAfter(start, moves);
      f.sent[m].worker < |f.workers| && SpeaksFor(f.workers[f.sent[m].worker], f.sent[m].call)
  {
    hide FleetAfter, WorkerOk;
    EveryFleetIsOk(start, moves);
  }

  /** No worker of any fleet does more than prepare its workspace unless the node has
      granted its claim, under the token it carries. */
  lemma WorkersActUnderGrantedClaims(start: Fleet, moves: seq<Move>, i: nat, j: nat)
    requires Beginning(start) && i < |FleetAfter(start, moves).workers|
    requires
      var w := FleetAfter(start, moves).workers[i];
      j < |w.trace| && w.trace[j].Begin? && w.trace[j].stage != Prepare
    ensures
      var f := FleetAfter(start, moves);
      f.workers[i].grantedAt.Some? && GrantedTo(f, f.workers[i], f.workers[i].grantedAt.value)
  {
    hide FleetAfter, Governance.After, GrantedTo, RenewedAt, Awaits;
    EveryFleetIsOk(start, moves);
    var w := FleetAfter(start, moves).workers[i];
    var x, y, z := WorkIsAcceptedFirst(w.trace, j);
    assert w.trace[x] == w.trace[..j][x];
  }

  /** A push that has started anywhere in a fleet rests on a renewal of the exact claim
      that the node accepted, after the worker had asked for one and, in the worker's own trace, after
      the commit. Whoever claims the work item with a greater token was granted it only
      behind that point: a push whose final renewal was issued after a successor's grant
      never starts. */
  lemma PushesPrecedeSuccession(start: Fleet, moves: seq<Move>, i: nat, j: nat)
    requires Beginning(start) && i < |FleetAfter(start, moves).workers|
    requires
      var w := FleetAfter(start, moves).workers[i];
      j < |w.trace| && w.trace[j] == Begin(Push)
    ensures
      var f := FleetAfter(start, moves);
      var w := f.workers[i];
      && w.finalRenewal.Some? && RenewedAt(f, w, w.finalRenewal.value)
      && (exists c, i, k :: RenewedBy(w.trace[..j], c, i, k))
      && (forall g: nat, t: u64 :: GrantOf(f, w.item, g, t) && t > w.token ==>
            w.finalRenewal.value.issuedAt <= w.finalRenewal.value.servedAt < g)
  {
    hide FleetAfter, Governance.After, GrantedTo, Awaits, NodeReply;
    EveryFleetIsOk(start, moves);
    var f := FleetAfter(start, moves);
    var w := f.workers[i];
    var c, issued, k := PushRestsOnARenewal(w.trace, j);
    assert RenewedBy(w.trace[..j], c, issued, k);
    assert w.trace[k] == w.trace[..j][k];
    var r := w.finalRenewal.value;
    forall g: nat, t: u64 | GrantOf(f, w.item, g, t) && t > w.token ensures r.servedAt < g {
      assert AcceptedUnder(f, w.item, r.servedAt, w.token);
      if g < r.servedAt {
        NodeKeepsOrder(f, w.item, g, r.servedAt, t, w.token);
      }
    }
  }
}
