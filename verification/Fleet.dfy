/** Many governed workers against one coordinator: requests travel, are served late, and
    lose their answers; time passes; others make calls of their own. */
module Fleet {
  import opened Prelude
  import opened Coordination
  import opened FencingRuns
  import opened Governance
  import opened GovernedPromises

  const CLAIM_LEASE_TTL_MS: u64 := 30_000

  /** The election of a work item. */
  function Resource(item: string): string {
    "ai-work:" + item
  }

  // ----- what a renewal answer proves -----

  /** The parts of a renewal response the worker looks at; any may be missing. */
  datatype RenewResponse = RenewResponse(renewed: Option<bool>, leader: Option<string>, token: Option<u64>)

  /** `renewal_response_authorizes`. */
  predicate RenewalAuthorizes(response: RenewResponse, agent: string, token: u64) {
    response.renewed == Some(true) && response.leader == Some(agent) && response.token == Some(token)
  }

  /** A response authorizes one claim of one agent, and only a complete one does. */
  lemma ResponsesAuthorizeOneHolder(response: RenewResponse, agent: string, token: u64, other: string, another: u64)
    ensures RenewalAuthorizes(response, agent, token) && RenewalAuthorizes(response, other, another) ==>
              other == agent && another == token
    ensures response.renewed != Some(true) || response.leader.None? || response.token.None? ==>
              !RenewalAuthorizes(response, agent, token)
    ensures RenewalAuthorizes(RenewResponse(Some(true), Some(agent), Some(token)), agent, token)
  {
  }

  /** What the node answers to a renewal: whether it renewed, and the election as it then
      stands. */
  function NodeResponse(s: State, renewal: Call): RenewResponse
    requires renewal.CallRenew?
  {
    var done := Exec(s, renewal);
    var leases := done.state.leases;
    RenewResponse(
      Some(done.reply == Flag(true)),
      if renewal.resource in leases then Some(leases[renewal.resource].holder) else None,
      if renewal.resource in leases then Some(leases[renewal.resource].fencingToken) else None)
  }

  /** What arrives of an answer: any of its parts may be missing. */
  predicate Shows(response: RenewResponse, answer: RenewResponse) {
    && (response.renewed == answer.renewed || response.renewed == None)
    && (response.leader == answer.leader || response.leader == None)
    && (response.token == answer.token || response.token == None)
  }

  /** The worker takes the node's answer for authority exactly when it holds it. */
  lemma AuthorizesExactlyTheHolder(s: State, resource: string, agent: string, token: u64)
    ensures
      var renewal := CallRenew(resource, agent, token, CLAIM_LEASE_TTL_MS);
      && (RenewalAuthorizes(NodeResponse(s, renewal), agent, token) <==> Current(s, resource, agent, token))
      && (RenewalAuthorizes(NodeResponse(s, renewal), agent, token) <==> Exec(s, renewal).reply == Flag(true))
  {
  }

  /** Whoever's renewal a response answers, and whatever of it got lost: it authorizes
      exactly the holder whose renewal the node accepted, and only if nothing is missing. */
  lemma ShownAuthorizesExactly(s: State, renewal: Call, response: RenewResponse, agent: string, token: u64)
    requires renewal.CallRenew? && Shows(response, NodeResponse(s, renewal))
    ensures RenewalAuthorizes(response, agent, token)
            <==> && Exec(s, renewal).reply == Flag(true) && renewal.holder == agent && renewal.token == token
                 && response == NodeResponse(s, renewal)
  {
  }

  /** The elections of different work items are different. */
  lemma ResourcesAreDistinct(item: string, other: string)
    ensures Resource(item) == Resource(other) <==> item == other
  {
    assert Resource(item)[8..] == item && Resource(other)[8..] == other;
  }

  // ----- the fleet -----

  /** A request on its way: who sent it, what it asks, and how far the node had come. */
  datatype Message = Message(worker: nat, call: Call, sentAt: nat)

  /** When the final renewal was issued and when the node served it. */
  datatype Renewal = Renewal(issuedAt: nat, servedAt: nat)

  datatype Worker = Worker(
    agent: string,
    item: string,
    token: u64,
    grantedAt: Option<nat>,
    awaiting: Option<nat>,
    ticking: Option<nat>,
    finalRenewal: Option<Renewal>,
    trace: seq<Event>)

  datatype Fleet = Fleet(calls: seq<Call>, workers: seq<Worker>, sent: seq<Message>, served: map<nat, nat>)

  function NewWorker(agent: string, item: string): Worker {
    Worker(agent, item, 0, None, None, None, None, [])
  }

  /** What a worker asks of the node when it issues `e`. The control plane's own fencing
      check of a transition is the coordinator's. */
  function CallFor(w: Worker, e: Event): Option<Call> {
    match e
    case ClaimIssued => Some(CallClaim(Resource(w.item), w.agent, CLAIM_LEASE_TTL_MS))
    case RenewIssued => Some(CallRenew(Resource(w.item), w.agent, w.token, CLAIM_LEASE_TTL_MS))
    case TickIssued => Some(CallRenew(Resource(w.item), w.agent, w.token, CLAIM_LEASE_TTL_MS))
    case TransitionIssued(_) => Some(CallCommit(Resource(w.item), w.agent, w.token))
    case _ => None
  }

  /** Answers that grant something; all others need no message to arrive. */
  predicate Grants(e: Event) {
    e == ClaimReply(true) || e == RenewReply(true) || e == TickReply(true) || e == TransitionReply(true)
  }

  /** What happens next: an event inside a worker (a refusal, a timeout or a malformed
      answer included), a request issued, a request served by the node at any later time,
      an answer received, or a call by anybody else, time passing included. What a worker
      receives when it has asked for a renewal may be the answer to any renewal, its own or
      somebody else's, on any election, served since it asked, with parts missing. */
  datatype Move =
    | Local(worker: nat, event: Event)
    | Issue(worker: nat, event: Event)
    | Serve(message: nat)
    | Receive(worker: nat, event: Event)
    | ReceiveRenewal(worker: nat, event: Event, servedAt: nat, response: RenewResponse)
    | Elsewhere(call: Call)

  predicate MayDo(f: Fleet, worker: nat, e: Event) {
    worker < |f.workers| && Allowed(true, f.workers[worker].trace + [e])
  }

  /** The message an answer belongs to. */
  function Asked(w: Worker, e: Event): Option<nat> {
    if e.TickReply? then w.ticking else w.awaiting
  }

  function NodeReply(f: Fleet, at: nat): Reply
    requires at < |f.calls|
  {
    ReplyAt(INITIAL, f.calls, at)
  }

  /** The claim was granted, or the transition accepted. */
  predicate Arrives(f: Fleet, w: Worker, e: Event) {
    var m := Asked(w, e);
    && (e == ClaimReply(true) || e == TransitionReply(true))
    && m.Some? && m.value < |f.sent| && m.value in f.served && f.served[m.value] < |f.calls|
    && var reply := NodeReply(f, f.served[m.value]);
       if e.ClaimReply? then reply.Granted? else reply == Flag(true)
  }

  /** Some answer arrives while a renewal is awaited, and the worker takes it for its own. */
  predicate RenewalArrives(f: Fleet, w: Worker, e: Event, servedAt: nat, response: RenewResponse) {
    var m := Asked(w, e);
    && (e == RenewReply(true) || e == TickReply(true))
    && m.Some? && m.value < |f.sent| && f.sent[m.value].sentAt <= servedAt < |f.calls|
    && f.calls[servedAt].CallRenew?
    && Shows(response, NodeResponse(Run(INITIAL, f.calls[..servedAt]), f.calls[servedAt]))
    && RenewalAuthorizes(response, w.agent, w.token)
  }

  predicate CanMove(f: Fleet, move: Move) {
    match move
    case Local(worker, e) =>
      MayDo(f, worker, e) && CallFor(f.workers[worker], e).None? && !Grants(e)
    case Issue(worker, e) =>
      MayDo(f, worker, e) && CallFor(f.workers[worker], e).Some?
    case Serve(m) => m < |f.sent| && m !in f.served
    case Receive(worker, e) => MayDo(f, worker, e) && Arrives(f, f.workers[worker], e)
    case ReceiveRenewal(worker, e, servedAt, response) =>
      MayDo(f, worker, e) && RenewalArrives(f, f.workers[worker], e, servedAt, response)
    case Elsewhere(_) => true
  }

  function With(f: Fleet, worker: nat, w: Worker): Fleet
    requires worker < |f.workers|
  {
    f.(workers := f.workers[worker := w])
  }

  /** A worker that has received the answer `e`. */
  function Heard(f: Fleet, w: Worker, e: Event): Worker
    requires Arrives(f, w, e)
  {
    var at := f.served[Asked(w, e).value];
    if e.ClaimReply? then
      w.(token := NodeReply(f, at).lease.fencingToken, grantedAt := Some(at), trace := w.trace + [e])
    else w.(trace := w.trace + [e])
  }

  /** A worker that has taken a response for the renewal it awaits. */
  function TakenAsRenewal(f: Fleet, w: Worker, e: Event, servedAt: nat, response: RenewResponse): Worker
    requires RenewalArrives(f, w, e, servedAt, response)
  {
    w.(finalRenewal := if e.RenewReply? then Some(Renewal(f.sent[Asked(w, e).value].sentAt, servedAt))
                       else w.finalRenewal,
       trace := w.trace + [e])
  }

  function Moved(f: Fleet, move: Move): Fleet {
    if !CanMove(f, move) then f
    else
      match move
      case Local(worker, e) =>
        With(f, worker, f.workers[worker].(trace := f.workers[worker].trace + [e]))
      case Issue(worker, e) =>
        var w := f.workers[worker];
        var m := |f.sent|;
        With(f, worker, w.(trace := w.trace + [e],
                           ticking := if e == TickIssued then Some(m) else w.ticking,
                           awaiting := if e == TickIssued then w.awaiting else Some(m)))
          .(sent := f.sent + [Message(worker, CallFor(w, e).value, |f.calls|)])
      case Serve(m) =>
        f.(calls := f.calls + [f.sent[m].call], served := f.served[m := |f.calls|])
      case Receive(worker, e) =>
        With(f, worker, Heard(f, f.workers[worker], e))
      case ReceiveRenewal(worker, e, servedAt, response) =>
        With(f, worker, TakenAsRenewal(f, f.workers[worker], e, servedAt, response))
      case Elsewhere(call) =>
        f.(calls := f.calls + [call])
  }

  /** The fleet after a run from `history` calls of earlier times. */
  function FleetAfter(start: Fleet, moves: seq<Move>): Fleet {
    if moves == [] then start else Moved(FleetAfter(start, moves[..|moves| - 1]), moves[|moves| - 1])
  }
}
