/** What every trace of the governed protocol promises: authority before work, a fresh
    renewal before a push, a complete execution behind a success, and a truthful terminal
    report. */
module GovernedPromises {
  import opened Prelude
  import opened Governance

  // ----- a push rests on a renewal issued after the commit -----

  ghost predicate CommittedAt(trace: seq<Event>, c: nat) {
    c < |trace| && trace[c] == End(Commit, true)
  }

  /** The final renewal was issued behind the commit and has not been answered. */
  ghost predicate RenewalPending(trace: seq<Event>, c: nat, i: nat) {
    && c < i < |trace|
    && CommittedAt(trace, c)
    && trace[i] == RenewIssued
    && forall x :: i < x < |trace| ==> trace[x] != RenewIssued && !trace[x].RenewReply?
  }

  /** It was issued behind the commit, and answered with success. */
  ghost predicate RenewedBy(trace: seq<Event>, c: nat, i: nat, k: nat) {
    && c < i < k < |trace|
    && CommittedAt(trace, c)
    && trace[i] == RenewIssued && trace[k] == RenewReply(true)
    && forall x :: i < x < k ==> trace[x] != RenewIssued && !trace[x].RenewReply?
  }

  ghost predicate RenewalFacts(p: Phase, trace: seq<Event>) {
    match p
    case Paused(stage) => stage == Commit ==> exists c :: CommittedAt(trace, c)
    case AskingRenewal => exists c, i :: RenewalPending(trace, c, i)
    case Renewed => exists c, i, k :: RenewedBy(trace, c, i, k)
    case _ => true
  }

  lemma RenewalFactsExtend(p: Phase, trace: seq<Event>, e: Event)
    requires RenewalFacts(p, trace) && e != RenewIssued && !e.RenewReply?
    ensures RenewalFacts(p, trace + [e])
  {
    match p {
      case Paused(stage) =>
        if stage == Commit {
          var c :| CommittedAt(trace, c);
          assert CommittedAt(trace + [e], c);
        }
      case AskingRenewal =>
        var c, i :| RenewalPending(trace, c, i);
        assert RenewalPending(trace + [e], c, i);
      case Renewed =>
        var c, i, k :| RenewedBy(trace, c, i, k);
        assert RenewedBy(trace + [e], c, i, k);
      case _ =>
    }
  }

  /** How the three phases are entered. */
  lemma RenewalPhases(governed: bool, c: Control, e: Event)
    requires Step(governed, c, e).Some?
    ensures
      var p := Step(governed, c, e).value.phase;
      && (p == Paused(Commit) ==> e == End(Commit, true) || p == c.phase)
      && (p == AskingRenewal ==> (e == RenewIssued && c.phase == Paused(Commit)) || p == c.phase)
      && (p == Renewed ==> (e == RenewReply(true) && c.phase == AskingRenewal) || p == c.phase)
      && (e == RenewIssued ==> p == AskingRenewal && c.phase == Paused(Commit))
      && (e.RenewReply? ==> p != c.phase && (p == Renewed || p == Broken))
  {
  }

  lemma {:induction false} RenewalFactsHold(governed: bool, trace: seq<Event>)
    requires Allowed(governed, trace)
    ensures RenewalFacts(After(governed, trace).value.phase, trace)
  {
    hide Step;
    if trace != [] {
      var front, e := trace[..|trace| - 1], trace[|trace| - 1];
      RenewalFactsHold(governed, front);
      var before, after := After(governed, front).value, After(governed, trace).value;
      RenewalPhases(governed, before, e);
      assert trace == front + [e];
      if e == RenewIssued {
        var c :| CommittedAt(front, c);
        assert RenewalPending(trace, c, |front|);
      } else if e == RenewReply(true) && after.phase == Renewed {
        var c, i :| RenewalPending(front, c, i);
        assert RenewedBy(trace, c, i, |front|);
      } else if after.phase == before.phase {
        RenewalFactsExtend(before.phase, front, e);
      } else if after.phase == Paused(Commit) {
        assert CommittedAt(trace, |front|);
      }
    }
  }

  /** A governed push starts only behind an exact renewal that was issued after the
      task's own commit and was answered with success. */
  lemma PushRestsOnARenewal(trace: seq<Event>, j: nat) returns (c: nat, i: nat, k: nat)
    requires Allowed(true, trace) && j < |trace| && trace[j] == Begin(Push)
    ensures RenewedBy(trace[..j], c, i, k)
  {
    hide After;
    PrefixesAreAllowed(true, trace, j + 1);
    AfterOne(true, trace, j);
    RenewalFactsHold(true, trace[..j]);
    c, i, k :| RenewedBy(trace[..j], c, i, k);
  }

  // ----- no work before it was claimed and accepted as running -----

  ghost predicate ClaimedAt(trace: seq<Event>, x: nat) {
    x < |trace| && trace[x] == ClaimReply(true)
  }

  ghost predicate AskedToRun(trace: seq<Event>, x: nat, y: nat) {
    ClaimedAt(trace, x) && x < y < |trace| && trace[y] == TransitionIssued(RunningWork)
  }

  ghost predicate AcceptedAsRunning(trace: seq<Event>, x: nat, y: nat, z: nat) {
    AskedToRun(trace, x, y) && y < z < |trace| && trace[z] == TransitionReply(true)
  }

  /** The phases of a governed task whose work has not been accepted. */
  predicate BeforeAdmission(p: Phase) {
    match p
    case Fresh => true
    case Busy(stage) => stage == Prepare
    case Paused(stage) => stage == Prepare
    case AskingClaim => true
    case Claimed => true
    case AskingRunning => true
    case AskingCancelled => true
    case GaveUp => true
    case Over => true
    case _ => false
  }

  ghost predicate AdmissionFacts(c: Control, trace: seq<Event>) {
    && (c.phase == Claimed ==> exists x :: ClaimedAt(trace, x))
    && (c.phase == AskingRunning ==> exists x, y :: AskedToRun(trace, x, y))
    && (c.admitted ==> exists x, y, z :: AcceptedAsRunning(trace, x, y, z))
    && (!c.admitted ==> BeforeAdmission(c.phase))
  }

  lemma AdmissionFactsExtend(c: Control, trace: seq<Event>, e: Event)
    requires AdmissionFacts(c, trace)
    ensures AdmissionFacts(c, trace + [e])
  {
    if c.phase == Claimed {
      var x :| ClaimedAt(trace, x);
      assert ClaimedAt(trace + [e], x);
    }
    if c.phase == AskingRunning {
      var x, y :| AskedToRun(trace, x, y);
      assert AskedToRun(trace + [e], x, y);
    }
    if c.admitted {
      var x, y, z :| AcceptedAsRunning(trace, x, y, z);
      assert AcceptedAsRunning(trace + [e], x, y, z);
    }
  }

  lemma AdmissionPhases(c: Control, e: Event)
    requires Step(true, c, e).Some? && (!c.admitted ==> BeforeAdmission(c.phase))
    ensures
      var next := Step(true, c, e).value;
      && (next.phase == Claimed ==> e == ClaimReply(true) || c.phase == Claimed)
      && (next.phase == AskingRunning ==>
            (e == TransitionIssued(RunningWork) && c.phase == Claimed) || c.phase == AskingRunning)
      && (next.admitted ==> c.admitted || (e == TransitionReply(true) && c.phase == AskingRunning))
      && (!next.admitted ==> !c.admitted && BeforeAdmission(next.phase))
  {
    hide Step, NextPhase;
    StepIs(true, c, e);
    if !FromOutside(e) {
      AdmissionMoves(c, e);
    }
  }

  lemma AdmissionMoves(c: Control, e: Event)
    requires NextPhase(true, c, e).Some?
    ensures
      var p := NextPhase(true, c, e).value;
      && (p == Claimed ==> e == ClaimReply(true))
      && (p == AskingRunning ==> e == TransitionIssued(RunningWork) && c.phase == Claimed)
      && (p == Admitted ==> (e == TransitionReply(true) && c.phase == AskingRunning) || c.phase == Admitted)
      && (BeforeAdmission(c.phase) ==> p == Admitted || BeforeAdmission(p))
  {
  }

  lemma {:induction false} AdmissionFactsHold(trace: seq<Event>)
    requires Allowed(true, trace)
    ensures AdmissionFacts(After(true, trace).value, trace)
  {
    hide Step, BeforeAdmission;
    NothingAdmittedYet();
    if trace != [] {
      var front, e := trace[..|trace| - 1], trace[|trace| - 1];
      AdmissionFactsHold(front);
      var before, after := After(true, front).value, After(true, trace).value;
      AdmissionPhases(before, e);
      AdmissionFactsExtend(before, front, e);
      assert trace == front + [e];
      if after.phase == Claimed && before.phase != Claimed {
        assert ClaimedAt(trace, |front|);
      }
      if after.phase == AskingRunning && before.phase != AskingRunning {
        var x :| ClaimedAt(front, x);
        assert AskedToRun(trace, x, |front|);
      }
      if after.admitted && !before.admitted {
        var x, y :| AskedToRun(front, x, y);
        assert AcceptedAsRunning(trace, x, y, |front|);
      }
    }
  }

  lemma NothingAdmittedYet()
    ensures AdmissionFacts(UNSTARTED, [])
  {
  }

  lemma OnlyPreparationBeforeAdmission(c: Control, e: Event)
    requires Step(true, c, e).Some? && !c.admitted && BeforeAdmission(c.phase)
    ensures e.Begin? ==> e.stage == Prepare
    ensures e != RenewIssued && e != TickIssued && !e.Executed?
  {
  }

  /** A governed task touches nothing but its workspace set-up before the control plane
      has granted its claim and then accepted it as running. */
  lemma WorkIsAcceptedFirst(trace: seq<Event>, j: nat) returns (x: nat, y: nat, z: nat)
    requires Allowed(true, trace) && j < |trace|
    requires (trace[j].Begin? && trace[j].stage != Prepare) || trace[j].Executed? || trace[j] == TickIssued
    ensures AcceptedAsRunning(trace[..j], x, y, z)
  {
    hide After, Step, BeforeAdmission;
    PrefixesAreAllowed(true, trace, j + 1);
    AfterOne(true, trace, j);
    AdmissionFactsHold(trace[..j]);
    var c := After(true, trace[..j]).value;
    if !c.admitted {
      OnlyPreparationBeforeAdmission(c, trace[j]);
    }
    x, y, z :| AcceptedAsRunning(trace[..j], x, y, z);
  }

  // ----- a success has executed everything -----

  /** The stage a single event completes, if it does. */
  function CompletedBy(e: Event): seq<Stage> {
    match e
    case End(stage, ok) => if ok && MainStage(stage) then [stage] else []
    case Inspected(_) => [Status]
    case _ => []
  }

  /** The main stages completed successfully, in order. */
  function Completed(trace: seq<Event>): seq<Stage> {
    if trace == [] then [] else Completed(trace[..|trace| - 1]) + CompletedBy(trace[|trace| - 1])
  }

  predicate MainStage(stage: Stage) {
    stage != MakeDir && stage != ReadFile && stage != Edit && stage != Publish
  }

  const UP_TO_STATUS := [Prepare, Agent, Add, Reset, Status]

  const UP_TO_PUSH := [Prepare, Agent, Add, Reset, Status, Commit, Push]

  /** Nothing to commit, or everything committed and pushed. */
  ghost predicate Settled(done: seq<Stage>, trace: seq<Event>) {
    || (done == UP_TO_STATUS && Inspected(false) in trace)
    || (done == UP_TO_PUSH && Inspected(true) in trace)
  }

  ghost predicate StageFacts(p: Phase, done: seq<Stage>, trace: seq<Event>) {
    match p
    case Fresh => done == []
    case Busy(stage) =>
      (match stage
       case Prepare => done == []
       case Add => done == [Prepare, Agent]
       case Reset => done == [Prepare, Agent, Add]
       case Status => done == [Prepare, Agent, Add, Reset]
       case Commit => done == UP_TO_STATUS && Inspected(true) in trace
       case Push => done == UP_TO_STATUS + [Commit] && Inspected(true) in trace
       case Scan => Settled(done, trace)
       case Publish => Settled(done, trace)
       case _ => done == [Prepare])
    case Paused(stage) =>
      (match stage
       case Agent => done == [Prepare, Agent]
       case Add => done == [Prepare, Agent, Add]
       case Reset => done == [Prepare, Agent, Add, Reset]
       case Commit => done == UP_TO_STATUS + [Commit] && Inspected(true) in trace
       case Push => Settled(done, trace)
       case Status => false
       case Scan => false
       case Publish => false
       case _ => done == [Prepare])
    case AskingClaim => done == [Prepare]
    case Claimed => done == [Prepare]
    case AskingRunning => done == [Prepare]
    case Admitted => done == [Prepare]
    case Dirty => done == UP_TO_STATUS && Inspected(true) in trace
    case Clean => done == UP_TO_STATUS && Inspected(false) in trace
    case AskingRenewal => done == UP_TO_STATUS + [Commit] && Inspected(true) in trace
    case Renewed => done == UP_TO_STATUS + [Commit] && Inspected(true) in trace
    case Offered(_) => Settled(done, trace)
    case AllListed => Settled(done, trace)
    case Ended(ok) => ok ==> Settled(done, trace)
    case Reporting(ok, _) => ok ==> Settled(done, trace)
    case Reported(ok, _, _) => ok ==> Settled(done, trace)
    case _ => true
  }

  lemma StageFactsExtend(p: Phase, done: seq<Stage>, trace: seq<Event>, e: Event)
    requires StageFacts(p, done, trace)
    ensures StageFacts(p, done, trace + [e])
  {
    assert forall x :: x in trace ==> x in trace + [e];
  }

  lemma StageFactsBegin(governed: bool, p: Phase, stage: Stage, done: seq<Stage>, trace: seq<Event>)
    requires MayBegin(governed, p, stage) && StageFacts(p, done, trace)
    ensures StageFacts(Busy(stage), done, trace)
  {
  }

  lemma StageFactsEnd(stage: Stage, ok: bool, done: seq<Stage>, trace: seq<Event>)
    requires StageFacts(Busy(stage), done, trace) && stage != Scan && (stage == Status ==> !ok)
    ensures StageFacts(AfterStage(stage, ok), done + CompletedBy(End(stage, ok)), trace)
  {
  }

  lemma StageFactsOther(governed: bool, c: Control, e: Event, done: seq<Stage>, trace: seq<Event>)
    requires NextPhase(governed, c, e).Some? && StageFacts(c.phase, done, trace) && e in trace
    requires !e.Begin? && !e.End?
    ensures StageFacts(NextPhase(governed, c, e).value, done + CompletedBy(e), trace)
  {
    hide MayBegin, AfterStage, Executing;
  }

  lemma StageFactsStep(governed: bool, c: Control, e: Event, done: seq<Stage>, front: seq<Event>)
    requires Step(governed, c, e).Some? && StageFacts(c.phase, done, front)
    ensures StageFacts(Step(governed, c, e).value.phase, done + CompletedBy(e), front + [e])
  {
    hide Step, StageFacts, MayBegin, AfterStage;
    StepIs(governed, c, e);
    StageFactsExtend(c.phase, done, front, e);
    assert done + [] == done;
    if !FromOutside(e) {
      match e {
        case Begin(stage) =>
          StageFactsBegin(governed, c.phase, stage, done, front + [e]);
        case End(stage, ok) =>
          StageFactsEnd(stage, ok, done, front + [e]);
        case _ =>
          StageFactsOther(governed, c, e, done, front + [e]);
      }
    }
  }

  lemma {:induction false} StageFactsHold(governed: bool, trace: seq<Event>)
    requires Allowed(governed, trace)
    ensures StageFacts(After(governed, trace).value.phase, Completed(trace), trace)
  {
    hide Step, StageFacts, MainStage;
    NothingDoneYet();
    if trace != [] {
      var front, e := trace[..|trace| - 1], trace[|trace| - 1];
      StageFactsHold(governed, front);
      StageFactsStep(governed, After(governed, front).value, e, Completed(front), front);
      assert trace == front + [e];
    }
  }

  lemma NothingDoneYet()
    ensures StageFacts(UNSTARTED.phase, [], [])
  {
  }

  /** A task that returns success has completed every stage once and in order, and has
      committed and pushed exactly when the workspace was found dirty. */
  lemma SuccessHasDoneEverything(governed: bool, trace: seq<Event>)
    requires Allowed(governed, trace) && trace != [] && trace[|trace| - 1] == Returned(true)
    ensures Settled(Completed(trace), trace)
  {
    hide Completed, Step, StageFacts, Settled;
    var front, e := trace[..|trace| - 1], Returned(true);
    StageFactsHold(governed, front);
    var c := After(governed, front).value;
    SuccessFollowsAReport(governed, c);
    OneMoreEvent(trace);
    assert trace == front + [e];
    StageFactsExtend(c.phase, Completed(front), front, e);
    ReportIsSettled(c.phase, Completed(front), trace);
  }

  lemma SuccessFollowsAReport(governed: bool, c: Control)
    requires Step(governed, c, Returned(true)).Some?
    ensures c.phase == Ended(true) || (c.phase.Reported? && c.phase.ok)
  {
  }

  lemma ReportIsSettled(p: Phase, done: seq<Stage>, trace: seq<Event>)
    requires StageFacts(p, done, trace) && (p == Ended(true) || (p.Reported? && p.ok))
    ensures Settled(done, trace)
  {
  }

  lemma OneMoreEvent(trace: seq<Event>)
    requires trace != [] && trace[|trace| - 1].Returned?
    ensures Completed(trace) == Completed(trace[..|trace| - 1])
  {
  }

  // ----- periodic renewals -----

  /** A renewal was issued at `i` and not answered since. */
  predicate InFlightSince(trace: seq<Event>, i: nat) {
    && i < |trace| && trace[i] == TickIssued
    && forall k :: i < k < |trace| ==> !trace[k].TickReply?
  }

  ghost predicate InFlight(trace: seq<Event>) {
    exists i :: InFlightSince(trace, i)
  }

  lemma TickStep(governed: bool, c: Control, e: Event)
    requires Step(governed, c, e).Some?
    ensures Step(governed, c, e).value.ticking <==> e == TickIssued || (c.ticking && !e.TickReply?)
    ensures c.ticking ==> FromOutside(e) && e != TickIssued
    ensures e == TickIssued ==> governed && c.admitted && !c.lost
    ensures e.TickReply? ==> c.ticking
  {
    hide NextPhase;
  }

  lemma InFlightMoves(front: seq<Event>, e: Event)
    ensures InFlight(front + [e]) <==> e == TickIssued || (InFlight(front) && !e.TickReply?)
  {
    var trace := front + [e];
    assert trace[|front|] == e && forall k :: 0 <= k < |front| ==> trace[k] == front[k];
    if i: nat :| InFlightSince(trace, i) {
      if i < |front| {
        assert InFlightSince(front, i);
      }
    }
    if e == TickIssued {
      assert InFlightSince(trace, |front|);
    } else if !e.TickReply? {
      if i: nat :| InFlightSince(front, i) {
        assert InFlightSince(trace, i);
      }
    }
  }

  lemma {:induction false} TicksAreInFlight(governed: bool, trace: seq<Event>)
    requires Allowed(governed, trace)
    ensures After(governed, trace).value.ticking <==> InFlight(trace)
  {
    hide Step, InFlight;
    if trace == [] {
      NoneInFlight();
    } else {
      var front, e := trace[..|trace| - 1], trace[|trace| - 1];
      assert trace == front + [e];
      TicksAreInFlight(governed, front);
      TickStep(governed, After(governed, front).value, e);
      InFlightMoves(front, e);
    }
  }

  lemma NoneInFlight()
    ensures !InFlight([])
  {
  }

  /** One renewal at a time: while one is in flight the lifecycle does nothing and no other
      is issued; none is issued after one failed, nor before the work was accepted. */
  lemma RenewalsInTurn(governed: bool, trace: seq<Event>, j: nat)
    requires Allowed(governed, trace) && j < |trace|
    ensures InFlight(trace[..j]) ==> trace[j] in {Requested, CancelSet, TickReply(true), TickReply(false)}
    ensures trace[j] == TickIssued ==>
              governed && TickReply(false) !in trace[..j] && TransitionReply(true) in trace[..j]
    ensures trace[j].TickReply? ==> InFlight(trace[..j])
  {
    hide After, Step, InFlight;
    PrefixesAreAllowed(governed, trace, j + 1);
    AfterOne(governed, trace, j);
    TicksAreInFlight(governed, trace[..j]);
    FlagsAreTheTrace(governed, trace[..j]);
    TickStep(governed, After(governed, trace[..j]).value, trace[j]);
    if trace[j] == TickIssued {
      AdmissionFactsHold(trace[..j]);
      var x: nat, y: nat, z: nat :| AcceptedAsRunning(trace[..j], x, y, z);
      assert trace[..j][z] == TransitionReply(true);
    }
  }

  // ----- one claim, and requests only under it -----

  predicate PastClaim(p: Phase) {
    p != Fresh && p != AskingClaim && p != Busy(Prepare) && p != Paused(Prepare)
  }

  lemma PastClaimMoves(c: Control, e: Event)
    requires NextPhase(true, c, e).Some?
    ensures PastClaim(c.phase) || e == ClaimReply(true) ==> PastClaim(NextPhase(true, c, e).value)
  {
  }

  /** Once its claim is granted a task never asks for one again. */
  lemma {:induction false} ClaimedOnce(trace: seq<Event>)
    requires Allowed(true, trace) && ClaimReply(true) in trace
    ensures PastClaim(After(true, trace).value.phase)
  {
    hide Step, NextPhase, PastClaim;
    var front, e := trace[..|trace| - 1], trace[|trace| - 1];
    assert trace == front + [e];
    var c := After(true, front).value;
    StepIs(true, c, e);
    if ClaimReply(true) in front {
      ClaimedOnce(front);
    }
    if !FromOutside(e) {
      PastClaimMoves(c, e);
    }
  }

  lemma RequestPhases(c: Control, e: Event)
    requires Step(true, c, e).Some?
    requires e == RenewIssued || e == TickIssued || e.TransitionIssued?
    requires !c.admitted ==> BeforeAdmission(c.phase)
    ensures c.admitted || c.phase == Claimed
  {
  }

  /** Renewals and transitions are only asked for once the claim was granted. */
  lemma RequestsAreUnderAClaim(trace: seq<Event>, e: Event)
    requires Allowed(true, trace) && Step(true, After(true, trace).value, e).Some?
    requires e == RenewIssued || e == TickIssued || e.TransitionIssued?
    ensures ClaimReply(true) in trace
  {
    hide After, Step, BeforeAdmission;
    AdmissionFactsHold(trace);
    RequestPhases(After(true, trace).value, e);
    if After(true, trace).value.admitted {
      var x: nat, y: nat, z: nat :| AcceptedAsRunning(trace, x, y, z);
      assert trace[x] == ClaimReply(true);
    } else {
      var x: nat :| ClaimedAt(trace, x);
      assert trace[x] == ClaimReply(true);
    }
  }

  // ----- what a granted claim is followed by -----

  /** At `j` the claimed work was reported: as cancelled exactly if the token had been set,
      and as running otherwise. */
  predicate ClaimReportedAt(trace: seq<Event>, j: nat) {
    && j < |trace| && ClaimReply(true) in trace[..j]
    && if CancelSet in trace[..j] || TickReply(false) in trace[..j] then trace[j] == TransitionIssued(CancelledWork)
       else trace[j] == TransitionIssued(RunningWork)
  }

  ghost predicate ClaimReported(trace: seq<Event>) {
    exists j :: ClaimReportedAt(trace, j)
  }

  ghost predicate ClaimFacts(p: Phase, trace: seq<Event>) {
    ClaimReply(true) in trace ==> p == Claimed || ClaimReported(trace)
  }

  lemma ClaimReportedExtends(front: seq<Event>, e: Event)
    ensures ClaimReported(front) ==> ClaimReported(front + [e])
  {
    if j: nat :| ClaimReportedAt(front, j) {
      assert (front + [e])[..j] == front[..j];
      assert ClaimReportedAt(front + [e], j);
    }
  }

  lemma ClaimMoves(c: Control, e: Event)
    requires NextPhase(true, c, e).Some?
    ensures e == ClaimReply(true) ==> NextPhase(true, c, e) == Some(Claimed)
    ensures c.phase == Claimed ==> e == TransitionIssued(if c.cancelled then CancelledWork else RunningWork)
  {
  }

  lemma {:induction false} ClaimFactsHold(trace: seq<Event>)
    requires Allowed(true, trace)
    ensures ClaimFacts(After(true, trace).value.phase, trace)
  {
    hide Step, NextPhase, ClaimReported;
    if trace != [] {
      var front, e := trace[..|trace| - 1], trace[|trace| - 1];
      assert trace == front + [e];
      ClaimFactsHold(front);
      var c := After(true, front).value;
      StepIs(true, c, e);
      ClaimReportedExtends(front, e);
      if !FromOutside(e) {
        ClaimMoves(c, e);
        if c.phase == Claimed && ClaimReply(true) in front {
          FlagsAreTheTrace(true, front);
          ReportedNow(front, e);
        }
      }
    }
  }

  lemma ReportedNow(front: seq<Event>, e: Event)
    requires ClaimReply(true) in front
    requires
      e == TransitionIssued(
             if CancelSet in front || TickReply(false) in front then CancelledWork else RunningWork)
    ensures ClaimReported(front + [e])
  {
    assert (front + [e])[..|front|] == front;
    assert ClaimReportedAt(front + [e], |front|);
  }

  /** A task that was granted its claim returns only after reporting it: as cancelled if
      the token was set before the report, and otherwise as running. */
  lemma GrantedClaimsAreReported(trace: seq<Event>) returns (j: nat)
    requires Allowed(true, trace) && ClaimReply(true) in trace
    requires trace[|trace| - 1].Returned?
    ensures ClaimReportedAt(trace, j)
  {
    hide Step, NextPhase;
    var front, e := trace[..|trace| - 1], trace[|trace| - 1];
    assert trace == front + [e];
    ClaimFactsHold(trace);
    StepIs(true, After(true, front).value, e);
    ReturnedIsOver(After(true, front).value, e);
    j :| ClaimReportedAt(trace, j);
  }

  lemma ReturnedIsOver(c: Control, e: Event)
    requires e.Returned? && NextPhase(true, c, e).Some?
    ensures NextPhase(true, c, e) == Some(Over)
  {
  }

  // ----- the terminal report -----

  datatype Report = Report(status: WorkStatus, accepted: bool)

  /** The status last asked for. */
  function LastAsked(trace: seq<Event>): WorkStatus {
    if trace == [] then RunningWork
    else if trace[|trace| - 1].TransitionIssued? then trace[|trace| - 1].status
    else LastAsked(trace[..|trace| - 1])
  }

  predicate HasEnded(trace: seq<Event>) {
    Executed(true) in trace || Executed(false) in trace
  }

  /** The transitions answered since the execution ended. */
  function Reports(trace: seq<Event>): seq<Report> {
    if trace == [] then []
    else
      var front := trace[..|trace| - 1];
      match trace[|trace| - 1]
      case TransitionReply(ok) =>
        if HasEnded(front) then Reports(front) + [Report(LastAsked(front), ok)] else Reports(front)
      case _ => Reports(front)
  }

  /** The execution ended once, with `ok`. */
  predicate EndedWith(trace: seq<Event>, ok: bool) {
    Executed(ok) in trace && Executed(!ok) !in trace
  }

  /** The execution ended with `ok`, and at `p` its terminal status was asked for:
      `cancelled` exactly if that had been requested by then, and otherwise
      `awaiting_review` after a success and `failed` after a failure. */
  ghost predicate TerminalAsked(trace: seq<Event>, p: nat, ok: bool, status: WorkStatus) {
    && p < |trace|
    && trace[p] == TransitionIssued(status)
    && (status == CancelledWork <==> Requested in trace[..p])
    && (status == AwaitingReview <==> ok && Requested !in trace[..p])
    && (status == FailedWork <==> !ok && Requested !in trace[..p])
    && EndedWith(trace[..p], ok)
  }

  ghost predicate SomeTerminalAsked(trace: seq<Event>, ok: bool, status: WorkStatus) {
    exists p :: TerminalAsked(trace, p, ok, status)
  }

  predicate BeforeEnd(p: Phase) {
    match p
    case Ended(_) => false
    case Reporting(_, _) => false
    case Reported(_, _, _) => false
    case Recovering(_) => false
    case Recovered(_, _) => false
    case Over => false
    case _ => true
  }

  /** `asked` and `reports` are what the trace has asked for last and what was answered. */
  ghost predicate ReportFacts(p: Phase, trace: seq<Event>, asked: WorkStatus, reports: seq<Report>) {
    match p
    case Ended(ok) => reports == [] && EndedWith(trace, ok)
    case Reporting(ok, status) =>
      reports == [] && asked == status && EndedWith(trace, ok) && SomeTerminalAsked(trace, ok, status)
    case Reported(ok, status, accepted) =>
      reports == [Report(status, accepted)] && EndedWith(trace, ok) && SomeTerminalAsked(trace, ok, status)
    case Recovering(status) =>
      && reports == [Report(status, false)] && asked == FailedWork
      && EndedWith(trace, true) && SomeTerminalAsked(trace, true, status)
    case Recovered(status, accepted) =>
      && reports == [Report(status, false), Report(FailedWork, accepted)]
      && EndedWith(trace, true) && SomeTerminalAsked(trace, true, status)
    case Over => true
    case _ => reports == [] && !HasEnded(trace)
  }

  lemma ReportFactsExtend(p: Phase, trace: seq<Event>, asked: WorkStatus, reports: seq<Report>, e: Event)
    requires ReportFacts(p, trace, asked, reports) && !e.Executed?
    ensures ReportFacts(p, trace + [e], asked, reports)
  {
    assert forall x :: x in trace + [e] <==> x in trace || x == e;
    if p.Reporting? || p.Reported? {
      AskedExtends(trace, p.ok, p.status, e);
    } else if p.Recovering? || p.Recovered? {
      AskedExtends(trace, true, p.status, e);
    }
  }

  lemma AskedExtends(trace: seq<Event>, ok: bool, status: WorkStatus, e: Event)
    requires SomeTerminalAsked(trace, ok, status)
    ensures SomeTerminalAsked(trace + [e], ok, status)
  {
    var p: nat :| TerminalAsked(trace, p, ok, status);
    assert (trace + [e])[..p] == trace[..p];
    assert TerminalAsked(trace + [e], p, ok, status);
  }

  /** How the end phases are entered and left. */
  lemma ReportMoves(governed: bool, c: Control, e: Event)
    requires NextPhase(governed, c, e).Some?
    ensures
      var p := NextPhase(governed, c, e).value;
      match e
      case Executed(ok) => BeforeEnd(c.phase) && p == Ended(ok)
      case TransitionIssued(status) =>
        || (BeforeEnd(c.phase) && BeforeEnd(p))
        || (c.phase.Ended? && p == Reporting(c.phase.ok, status) && status == TerminalStatus(c.requested, c.phase.ok))
        || (c.phase.Reported? && c.phase.ok && !c.phase.accepted && p == Recovering(c.phase.status)
            && status == FailedWork)
      case TransitionReply(ok) =>
        || (BeforeEnd(c.phase) && BeforeEnd(p))
        || (c.phase.Reporting? && p == Reported(c.phase.ok, c.phase.status, ok))
        || (c.phase.Recovering? && p == Recovered(c.phase.status, ok))
      case Returned(_) => p == Over
      case _ => BeforeEnd(c.phase) && BeforeEnd(p)
    ensures BeforeEnd(NextPhase(governed, c, e).value) ==> BeforeEnd(c.phase) && !e.Executed?
  {
    hide MayBegin, AfterStage, Returns;
    if e.End? {
      StagesAreBeforeEnd(e.stage, e.ok);
    }
    if e.Begin? {
      OnlyStagesBegin(governed, c.phase, e.stage);
    }
  }

  lemma StagesAreBeforeEnd(stage: Stage, ok: bool)
    ensures BeforeEnd(AfterStage(stage, ok))
  {
  }

  lemma OnlyStagesBegin(governed: bool, p: Phase, stage: Stage)
    requires MayBegin(governed, p, stage)
    ensures BeforeEnd(p)
  {
  }

  lemma NotEndedYet(p: Phase, trace: seq<Event>, asked: WorkStatus, reports: seq<Report>)
    requires BeforeEnd(p)
    ensures ReportFacts(p, trace, asked, reports) <==> reports == [] && !HasEnded(trace)
  {
  }

  lemma TerminalAskedNow(front: seq<Event>, ok: bool, status: WorkStatus)
    requires status == TerminalStatus(Requested in front, ok) && EndedWith(front, ok)
    ensures SomeTerminalAsked(front + [TransitionIssued(status)], ok, status)
  {
    var trace := front + [TransitionIssued(status)];
    assert trace[..|front|] == front;
    assert TerminalAsked(trace, |front|, ok, status);
  }

  /** `asked` and `reports` once `e` has happened behind `front`. */
  function AskedAfter(asked: WorkStatus, e: Event): WorkStatus {
    if e.TransitionIssued? then e.status else asked
  }

  function ReportsAfter(reports: seq<Report>, asked: WorkStatus, front: seq<Event>, e: Event): seq<Report> {
    if e.TransitionReply? && HasEnded(front) then reports + [Report(asked, e.ok)] else reports
  }

  lemma EndedOnlyBy(front: seq<Event>, e: Event)
    requires !e.Executed?
    ensures HasEnded(front + [e]) <==> HasEnded(front)
  {
  }

  lemma ReportFactsBeforeEnd(
      governed: bool, c: Control, e: Event, front: seq<Event>, asked: WorkStatus, reports: seq<Report>)
    requires NextPhase(governed, c, e).Some? && ReportFacts(c.phase, front, asked, reports)
    requires BeforeEnd(NextPhase(governed, c, e).value)
    ensures ReportFacts(NextPhase(governed, c, e).value, front + [e], AskedAfter(asked, e),
                        ReportsAfter(reports, asked, front, e))
  {
    hide NextPhase, BeforeEnd, ReportFacts, HasEnded;
    ReportMoves(governed, c, e);
    EndedOnlyBy(front, e);
    NotEndedYet(c.phase, front, asked, reports);
    NotEndedYet(NextPhase(governed, c, e).value, front + [e], AskedAfter(asked, e), reports);
  }

  lemma ReportFactsStep(
      governed: bool, c: Control, e: Event, front: seq<Event>, asked: WorkStatus, reports: seq<Report>)
    requires NextPhase(governed, c, e).Some? && ReportFacts(c.phase, front, asked, reports)
    requires c.requested <==> Requested in front
    ensures ReportFacts(NextPhase(governed, c, e).value, front + [e], AskedAfter(asked, e),
                        ReportsAfter(reports, asked, front, e))
  {
    hide NextPhase, BeforeEnd, SomeTerminalAsked, TerminalStatus;
    if BeforeEnd(NextPhase(governed, c, e).value) {
      ReportFactsBeforeEnd(governed, c, e, front, asked, reports);
    } else {
      ReportMoves(governed, c, e);
      if e.Executed? {
        NotEndedYet(c.phase, front, asked, reports);
        assert (front + [e])[|front|] == e;
      } else if e.TransitionIssued? && c.phase.Ended? {
        TerminalAskedNow(front, c.phase.ok, e.status);
      } else {
        ReportFactsExtend(c.phase, front, asked, reports, e);
      }
    }
  }

  lemma {:induction false} ReportFactsHold(governed: bool, trace: seq<Event>)
    requires Allowed(governed, trace)
    ensures ReportFacts(After(governed, trace).value.phase, trace, LastAsked(trace), Reports(trace))
  {
    hide Step, NextPhase, ReportFacts;
    NothingReportedYet();
    if trace != [] {
      var front, e := trace[..|trace| - 1], trace[|trace| - 1];
      ReportFactsHold(governed, front);
      var c := After(governed, front).value;
      assert trace == front + [e];
      StepIs(governed, c, e);
      if FromOutside(e) {
        ReportFactsExtend(c.phase, front, LastAsked(front), Reports(front), e);
      } else {
        FlagsAreTheTrace(governed, front);
        ReportFactsStep(governed, c, e, front, LastAsked(front), Reports(front));
      }
    }
  }

  lemma NothingReportedYet()
    ensures ReportFacts(UNSTARTED.phase, [], RunningWork, [])
  {
  }

  lemma AdmittedStays(governed: bool, c: Control, e: Event)
    requires NextPhase(governed, c, e).Some?
    requires c.admitted && (c.phase == Over || !BeforeAdmission(c.phase))
    ensures NextPhase(governed, c, e).value == Over || !BeforeAdmission(NextPhase(governed, c, e).value)
  {
  }

  lemma {:induction false} AdmittedNeverGoesBack(governed: bool, trace: seq<Event>)
    requires Allowed(governed, trace) && After(governed, trace).value.admitted
    ensures
      var p := After(governed, trace).value.phase;
      p == Over || !BeforeAdmission(p)
  {
    hide Step, NextPhase, BeforeAdmission;
    assert !BeforeAdmission(Admitted) by { AdmittedIsIn(); }
    var front, e := trace[..|trace| - 1], trace[|trace| - 1];
    var c := After(governed, front).value;
    StepIs(governed, c, e);
    if c.admitted {
      AdmittedNeverGoesBack(governed, front);
      if !FromOutside(e) {
        AdmittedStays(governed, c, e);
      }
    }
  }

  lemma AdmittedIsIn()
    ensures !BeforeAdmission(Admitted)
  {
  }

  /** The control plane has accepted the work as running. */
  ghost predicate Entered(trace: seq<Event>) {
    Allowed(true, trace) && After(true, trace).value.admitted
  }

  lemma EndsWithAReport(c: Control, result: bool)
    requires Step(true, c, Returned(result)).Some? && c.admitted && !BeforeAdmission(c.phase)
    ensures c.phase.Reported? || c.phase.Recovered?
    ensures c.phase.Reported? ==> (c.phase.ok ==> c.phase.accepted) && result == (c.phase.ok && !c.lost)
    ensures c.phase.Recovered? ==> !result
  {
  }

  /** A task whose work was accepted as running returns only after asking for the terminal
      transition that fits its execution and any cancellation by then, and, exactly when
      the execution succeeded and that was refused, once more for `failed`. It returns
      success exactly when the execution succeeded, the terminal transition was accepted,
      and no periodic renewal failed. */
  lemma TerminalReport(trace: seq<Event>)
      returns (p: nat, executed: bool, status: WorkStatus, accepted: bool, recovered: bool)
    requires Entered(trace) && trace != [] && trace[|trace| - 1].Returned?
    ensures TerminalAsked(trace, p, executed, status)
    ensures Reports(trace)
         == [Report(status, accepted)] + if executed && !accepted then [Report(FailedWork, recovered)] else []
    ensures trace[|trace| - 1].ok <==> executed && accepted && TickReply(false) !in trace
    ensures EndedWith(trace, executed)
  {
    hide After, Step, NextPhase, BeforeAdmission, LastAsked;
    var front, e := trace[..|trace| - 1], trace[|trace| - 1];
    assert trace == front + [e];
    AfterLast(trace);
    var c := After(true, front).value;
    StepIs(true, c, e);
    AdmittedNeverGoesBack(true, front);
    NothingAfterReturn(c, e);
    EndsWithAReport(c, e.ok);
    ReportFactsHold(true, front);
    FlagsAreTheTrace(true, front);
    executed := c.phase.Recovered? || c.phase.ok;
    status := c.phase.status;
    accepted := c.phase.Reported? && c.phase.accepted;
    recovered := c.phase.Recovered? && c.phase.accepted;
    AskedExtends(front, executed, status, e);
    p :| TerminalAsked(trace, p, executed, status);
  }

  lemma AfterLast(trace: seq<Event>)
    requires trace != [] && Entered(trace) && trace[|trace| - 1].Returned?
    ensures Entered(trace[..|trace| - 1])
    ensures Step(true, After(true, trace[..|trace| - 1]).value, trace[|trace| - 1]).Some?
  {
    hide NextPhase;
    var c := After(true, trace[..|trace| - 1]).value;
    StepIs(true, c, trace[|trace| - 1]);
    ReturningAdmitsNothing(c, trace[|trace| - 1]);
  }

  lemma ReturningAdmitsNothing(c: Control, e: Event)
    requires e.Returned? && NextPhase(true, c, e).Some?
    ensures NextPhase(true, c, e).value == Over
  {
  }

  lemma NothingAfterReturn(c: Control, e: Event)
    requires e.Returned? && Step(true, c, e).Some?
    ensures c.phase != Over
  {
  }
}
