/** The protocol of one governed task, as the traces it may leave: lifecycle stages,
    requests to the control plane, periodic renewals and cancellation, interleaved at the
    await points of src/orchestrator.rs. What the traces promise is proved here; that the
    worker's code leaves no others is proved in module GovernedWorker. */
module Governance {
  import opened Prelude

  /** The operations a task starts. `Reset` is the second half of staging; `Scan` opens
      the artifact directory. */
  datatype Stage = Prepare | MakeDir | ReadFile | Edit | Agent | Add | Reset | Status | Commit | Push | Scan | Publish

  datatype WorkStatus = RunningWork | AwaitingReview | FailedWork | CancelledWork

  datatype Event =
    | Begin(stage: Stage)
    | End(stage: Stage, ok: bool)
    | Inspected(dirty: bool)
    | Polled
    | Listed(more: bool, isFile: bool)
    | Skipped
    | Abandoned
    | ClaimIssued
    | ClaimReply(ok: bool)
    | RenewIssued
    | RenewReply(ok: bool)
    | TransitionIssued(status: WorkStatus)
    | TransitionReply(ok: bool)
    | TickIssued
    | TickReply(ok: bool)
    | Requested
    | CancelSet
    | Executed(ok: bool)
    | Returned(ok: bool)

  // ----- the protocol -----

  datatype Phase =
    | Fresh
    | Busy(stage: Stage)
    | Paused(stage: Stage)
    | Broken
    | AskingClaim
    | Claimed
    | AskingRunning
    | AskingCancelled
    | GaveUp
    | Admitted
    | Dirty
    | Clean
    | AskingRenewal
    | Renewed
    | Offered(isFile: bool)
    | AllListed
    | Ended(ok: bool)
    | Reporting(ok: bool, status: WorkStatus)
    | Reported(ok: bool, status: WorkStatus, accepted: bool)
    | Recovering(status: WorkStatus)
    | Recovered(status: WorkStatus, accepted: bool)
    | Over

  /** Where the lifecycle stands; whether the work was accepted as running; the two
      cancellation flags; whether a periodic renewal is in flight, or has failed. */
  datatype Control = Control(
    phase: Phase,
    admitted: bool,
    requested: bool,
    cancelled: bool,
    ticking: bool,
    lost: bool)

  const UNSTARTED := Control(Fresh, false, false, false, false, false)

  /** `claimed_terminal_status`. */
  function TerminalStatus(requested: bool, ok: bool): WorkStatus {
    if requested then CancelledWork else if ok then AwaitingReview else FailedWork
  }

  /** Started behind the stage before it without a look at the cancel token. */
  predicate Unchecked(stage: Stage) {
    stage == Reset || stage == ReadFile
  }

  /** A failure of the deterministic edit or of one artifact is reported and passed over. */
  function AfterStage(stage: Stage, ok: bool): Phase {
    match stage
    case Prepare => if ok then Paused(Prepare) else GaveUp
    case MakeDir => if ok then Paused(MakeDir) else Paused(Edit)
    case ReadFile => Paused(ReadFile)
    case Edit => Paused(Edit)
    case Publish => Busy(Scan)
    case _ => if ok then Paused(stage) else Broken
  }

  predicate LifecycleStart(governed: bool, p: Phase) {
    p == if governed then Admitted else Paused(Prepare)
  }

  predicate MayBegin(governed: bool, p: Phase, stage: Stage) {
    match stage
    case Prepare => p == Fresh
    case MakeDir => LifecycleStart(governed, p)
    case ReadFile => p == Paused(MakeDir)
    case Edit => p == Paused(ReadFile)
    case Agent => LifecycleStart(governed, p) || p == Paused(Edit)
    case Add => p == Paused(Agent)
    case Reset => p == Paused(Add)
    case Status => p == Paused(Reset)
    case Commit => p == Dirty
    case Push => p == if governed then Renewed else Paused(Commit)
    case Scan => p == Clean || p == Paused(Push)
    case Publish => p == Offered(true)
  }

  /** Phases between two awaits of the lifecycle, where an error may end it. */
  predicate Executing(governed: bool, c: Control) {
    && (governed ==> c.admitted)
    && match c.phase
       case Admitted => true
       case Paused(stage) => governed ==> stage != Prepare
       case Broken => true
       case Dirty => true
       case Clean => true
       case Renewed => true
       case Offered(_) => true
       case Busy(stage) => stage == Scan
       case _ => false
  }

  function When(allowed: bool, p: Phase): Option<Phase> {
    if allowed then Some(p) else None
  }

  /** Where an event of the lifecycle itself takes it, if it may happen. */
  function NextPhase(governed: bool, c: Control, e: Event): Option<Phase> {
    match e
    case Begin(stage) =>
      When(MayBegin(governed, c.phase, stage) && (c.cancelled ==> Unchecked(stage)), Busy(stage))
    case End(stage, ok) =>
      When(c.phase == Busy(stage) && stage != Scan && (stage == Status ==> !ok), AfterStage(stage, ok))
    case Inspected(dirty) =>
      When(c.phase == Busy(Status), if dirty then Dirty else Clean)
    case Listed(more, isFile) =>
      When(c.phase == Busy(Scan), if more then Offered(isFile) else AllListed)
    case Skipped =>
      When(c.phase == Offered(false) && !c.cancelled, Busy(Scan))
    case Polled =>
      When(c.phase == Fresh || c.phase == Admitted, c.phase)
    case Abandoned =>
      When(c.phase == Busy(Publish) && c.cancelled, Broken)
    case ClaimIssued =>
      When(governed && !c.cancelled && c.phase == Paused(Prepare), AskingClaim)
    case ClaimReply(ok) =>
      When(c.phase == AskingClaim, if ok then Claimed else GaveUp)
    case RenewIssued =>
      When(governed && !c.cancelled && c.phase == Paused(Commit), AskingRenewal)
    case RenewReply(ok) =>
      When(c.phase == AskingRenewal, if ok then Renewed else Broken)
    case TransitionIssued(status) => TransitionTo(governed, c, status)
    case TransitionReply(ok) => TransitionAnswered(c.phase, ok)
    case Executed(ok) =>
      When(if ok then c.phase == AllListed else Executing(governed, c) && (c.phase == Broken || c.cancelled),
           Ended(ok))
    case Returned(ok) =>
      When(Returns(governed, c, ok), Over)
    case _ => None
  }

  function TransitionTo(governed: bool, c: Control, status: WorkStatus): Option<Phase> {
    match c.phase
    case Claimed =>
      When(status == (if c.cancelled then CancelledWork else RunningWork),
           if c.cancelled then AskingCancelled else AskingRunning)
    case Ended(ok) =>
      When(governed && status == TerminalStatus(c.requested, ok), Reporting(ok, status))
    case Reported(ok, first, accepted) =>
      When(ok && !accepted && status == FailedWork, Recovering(first))
    case _ => None
  }

  function TransitionAnswered(p: Phase, ok: bool): Option<Phase> {
    match p
    case AskingCancelled => Some(GaveUp)
    case AskingRunning => Some(if ok then Admitted else GaveUp)
    case Reporting(done, status) => Some(Reported(done, status, ok))
    case Recovering(status) => Some(Recovered(status, ok))
    case _ => None
  }

  /** Events of the lifecycle; it is not polled while a periodic renewal is in flight. */
  function LifecycleStep(governed: bool, c: Control, e: Event): Option<Control> {
    var next := NextPhase(governed, c, e);
    if c.ticking || next.None? then None
    else Some(c.(phase := next.value, admitted := c.admitted || next.value == Admitted))
  }

  /** When `run_task_inner` may return, and with what. */
  predicate Returns(governed: bool, c: Control, ok: bool) {
    match c.phase
    case Fresh => !ok && c.cancelled
    case GaveUp => !ok
    case Paused(stage) => !ok && stage == Prepare && (governed || c.cancelled)
    case Ended(done) => !governed && ok == done
    case Reported(done, _, accepted) => (done ==> accepted) && ok == (done && !c.lost)
    case Recovered(_, _) => !ok
    case _ => false
  }

  function Step(governed: bool, c: Control, e: Event): Option<Control> {
    match e
    case Requested => Some(c.(requested := true))
    case CancelSet => if c.requested then Some(c.(cancelled := true)) else None
    case TickIssued =>
      if governed && c.admitted && c.phase != Over && !c.ticking && !c.lost then Some(c.(ticking := true)) else None
    case TickReply(ok) =>
      if !c.ticking then None
      else Some(c.(ticking := false, lost := c.lost || !ok, cancelled := c.cancelled || !ok))
    case _ => LifecycleStep(governed, c, e)
  }

  /** Events that do not come from the lifecycle. */
  predicate FromOutside(e: Event) {
    e == Requested || e == CancelSet || e == TickIssued || e.TickReply?
  }

  lemma StepIs(governed: bool, c: Control, e: Event)
    requires Step(governed, c, e).Some?
    ensures
      var next := Step(governed, c, e).value;
      if FromOutside(e) then next.phase == c.phase && next.admitted == c.admitted
      else
        && NextPhase(governed, c, e) == Some(next.phase)
        && next.admitted == (c.admitted || next.phase == Admitted)
  {
    hide NextPhase;
  }

  function After(governed: bool, trace: seq<Event>): Option<Control> {
    if trace == [] then Some(UNSTARTED)
    else
      var before := After(governed, trace[..|trace| - 1]);
      if before.None? then None else Step(governed, before.value, trace[|trace| - 1])
  }

  /** The traces of the protocol. Every prefix of one is one, which is what a crash leaves. */
  predicate Allowed(governed: bool, trace: seq<Event>) {
    After(governed, trace).Some?
  }

  lemma {:induction false} PrefixesAreAllowed(governed: bool, trace: seq<Event>, n: nat)
    requires Allowed(governed, trace) && n <= |trace|
    ensures Allowed(governed, trace[..n])
  {
    if n < |trace| {
      assert trace[..|trace| - 1][..n] == trace[..n];
      PrefixesAreAllowed(governed, trace[..|trace| - 1], n);
    } else {
      assert trace[..n] == trace;
    }
  }

  lemma AfterOne(governed: bool, trace: seq<Event>, i: nat)
    requires i < |trace| && Allowed(governed, trace[..i + 1])
    ensures Allowed(governed, trace[..i])
    ensures After(governed, trace[..i + 1]) == Step(governed, After(governed, trace[..i]).value, trace[i])
  {
    assert trace[..i + 1][..i] == trace[..i];
  }

  // ----- cancellation -----

  /** The cancel token is set: on request, or because a periodic renewal failed. */
  predicate SetsToken(e: Event) {
    e == CancelSet || e == TickReply(false)
  }

  lemma StepKeepsCancelled(governed: bool, c: Control, e: Event)
    requires Step(governed, c, e).Some?
    ensures c.cancelled || SetsToken(e) <==> Step(governed, c, e).value.cancelled
    ensures c.lost || e == TickReply(false) <==> Step(governed, c, e).value.lost
    ensures c.requested || e == Requested <==> Step(governed, c, e).value.requested
  {
    hide NextPhase;
  }

  lemma {:induction false} FlagsAreTheTrace(governed: bool, trace: seq<Event>)
    requires Allowed(governed, trace)
    ensures
      var c := After(governed, trace).value;
      && (c.cancelled <==> CancelSet in trace || TickReply(false) in trace)
      && (c.lost <==> TickReply(false) in trace)
      && (c.requested <==> Requested in trace)
  {
    hide Step;
    if trace != [] {
      var front, last := trace[..|trace| - 1], trace[|trace| - 1];
      FlagsAreTheTrace(governed, front);
      StepKeepsCancelled(governed, After(governed, front).value, last);
      assert trace == front + [last];
    }
  }

  /** Once the cancel token is set, by a request or by a failed renewal, no operation is
      started any more: no edit, agent, staging, commit, push or artifact, no claim and
      no final renewal; only a git reset or a file read that follows a stage begun before. */
  lemma NothingStartsOnceCancelled(governed: bool, trace: seq<Event>, i: nat, j: nat)
    requires Allowed(governed, trace) && i < j < |trace| && SetsToken(trace[i])
    ensures trace[j].Begin? ==> trace[j].stage == Reset || trace[j].stage == ReadFile
    ensures trace[j] != ClaimIssued && trace[j] != RenewIssued
  {
    hide After;
    PrefixesAreAllowed(governed, trace, j + 1);
    AfterOne(governed, trace, j);
    FlagsAreTheTrace(governed, trace[..j]);
    assert trace[..j][i] == trace[i];
  }

  lemma AfterOneMore(governed: bool, trace: seq<Event>, e: Event)
    requires Allowed(governed, trace)
    ensures After(governed, trace + [e]) == Step(governed, After(governed, trace).value, e)
  {
    assert (trace + [e])[..|trace|] == trace;
  }

  lemma Leads(governed: bool, trace: seq<Event>, c: Control, e: Event, next: Control)
    requires After(governed, trace) == Some(c) && Step(governed, c, e) == Some(next)
    ensures After(governed, trace + [e]) == Some(next)
  {
    assert (trace + [e])[..|trace|] == trace;
  }

  lemma StagingCanBegin() returns (trace: seq<Event>)
    ensures After(false, trace) == Some(Control(Busy(Add), false, false, false, false, false))
  {
    var c0 := UNSTARTED;
    var c1, c2 := c0.(phase := Busy(Prepare)), c0.(phase := Paused(Prepare));
    var c3, c4 := c0.(phase := Busy(Agent)), c0.(phase := Paused(Agent));
    trace := [];
    assert After(false, trace) == Some(c0);
    hide After;
    Leads(false, trace, c0, Begin(Prepare), c1);
    trace := trace + [Begin(Prepare)];
    Leads(false, trace, c1, End(Prepare, true), c2);
    trace := trace + [End(Prepare, true)];
    Leads(false, trace, c2, Begin(Agent), c3);
    trace := trace + [Begin(Agent)];
    Leads(false, trace, c3, End(Agent, true), c4);
    trace := trace + [End(Agent, true)];
    Leads(false, trace, c4, Begin(Add), c0.(phase := Busy(Add)));
    trace := trace + [Begin(Add)];
  }

  /** The exception is real: staging goes on with a git reset after the token was set. */
  lemma ResetMayStartOnceCancelled() returns (trace: seq<Event>, i: nat, j: nat)
    ensures Allowed(false, trace) && i < j < |trace| && SetsToken(trace[i]) && trace[j] == Begin(Reset)
  {
    trace := StagingCanBegin();
    hide After;
    i, j := |trace| + 1, |trace| + 3;
    var c5 := Control(Busy(Add), false, false, false, false, false);
    var c6 := c5.(requested := true);
    var c7 := c6.(cancelled := true);
    var c8 := c7.(phase := Paused(Add));
    Leads(false, trace, c5, Requested, c6);
    Leads(false, trace + [Requested], c6, CancelSet, c7);
    Leads(false, trace + [Requested] + [CancelSet], c7, End(Add, true), c8);
    trace := trace + [Requested] + [CancelSet] + [End(Add, true)];
    Leads(false, trace, c8, Begin(Reset), c8.(phase := Busy(Reset)));
    trace := trace + [Begin(Reset)];
  }
}
