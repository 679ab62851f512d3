/** The code of src/orchestrator.rs for one task: every await hands over to the outside
    world, which may request cancellation and run periodic renewals before it answers.
    Whatever the world does, the trace left behind is one of the protocol. */
module GovernedWorker {
  import opened Prelude
  import opened Governance

  // ----- the world at the await points -----

  /** What can happen while the lifecycle waits: the two halves of a cancellation request
      from another thread, and a periodic renewal being due and being answered. */
  datatype Outside = Request | SetToken | TickDue | TickAnswered(ok: bool)

  /** One await: what happens meanwhile, and the answer. */
  datatype Pause = Pause(meanwhile: seq<Outside>, ok: bool, more: bool)

  /** A world with nothing more to say lets every operation fail. */
  function PauseAt(world: seq<Pause>, k: nat): Pause {
    if k < |world| then world[k] else Pause([], false, false)
  }

  function From(world: seq<Pause>, k: nat): seq<Pause> {
    if k <= |world| then world[k..] else []
  }

  /** A cancellation request that reaches the token during one await. */
  ghost predicate AsksToStop(meanwhile: seq<Outside>) {
    exists a, b :: 0 <= a < b < |meanwhile| && meanwhile[a] == Request && meanwhile[b] == SetToken
  }

  predicate Undisturbed(p: Pause) {
    p.ok && p.meanwhile == []
  }

  /** The agent, awaited from `k` on, works undisturbed, and the stop comes during `git add`. */
  ghost predicate StopsWhileAdding(script: seq<Pause>, k: nat) {
    && Undisturbed(PauseAt(script, k))
    && PauseAt(script, k + 1).ok && AsksToStop(PauseAt(script, k + 1).meanwhile)
  }

  /** Agent, staging and status are awaited from `k` on, undisturbed; the workspace is clean
      and no file is listed. During the last look at the directory a stop may be asked for. */
  predicate ReachesTheEnd(script: seq<Pause>, k: nat) {
    && Undisturbed(PauseAt(script, k)) && Undisturbed(PauseAt(script, k + 1)) && Undisturbed(PauseAt(script, k + 2))
    && Undisturbed(PauseAt(script, k + 3)) && !PauseAt(script, k + 3).more
    && NoTick(PauseAt(script, k + 4)) && !PauseAt(script, k + 4).ok
  }

  /** Nothing else happens and the agent fails. */
  predicate AgentFails(script: seq<Pause>, k: nat) {
    PauseAt(script, k).meanwhile == [] && !PauseAt(script, k).ok
  }

  /** How a lifecycle that starts at `k` ends, after the answer before `m`. */
  ghost predicate Executes(script: seq<Pause>, k: nat, before: Flags, ok: bool, after: Flags, m: nat) {
    && (ReachesTheEnd(script, k) ==> ok && m == k + 5 && Heard(PauseAt(script, k + 4), before, after))
    && (AgentFails(script, k) ==> !ok && m == k + 1 && after == before)
  }

  /** A lifecycle first polled at `k` reaches its end and its report is accepted. */
  predicate Completes(script: seq<Pause>, k: nat) {
    && Undisturbed(PauseAt(script, k)) && ReachesTheEnd(script, k + 1)
    && PauseAt(script, k + 6).ok && NoTick(PauseAt(script, k + 6))
  }

  /** What such a lifecycle, or one whose agent fails, asks of the control plane. */
  ghost predicate ReportsFitting(script: seq<Pause>, k: nat, before: Flags, ok: bool, trace: seq<Event>) {
    && (Completes(script, k) && !before.lost ==>
          && ok
          && (Request in PauseAt(script, k + 5).meanwhile ==> TransitionIssued(CancelledWork) in trace)
          && (PauseAt(script, k + 5).meanwhile == [] && !before.requested ==>
                TransitionIssued(AwaitingReview) in trace))
    && (Undisturbed(PauseAt(script, k)) && AgentFails(script, k + 1) && !before.requested ==>
          !ok && TransitionIssued(FailedWork) in trace)
  }

  /** The workspace is prepared, the claim granted and accepted as running. */
  predicate ClaimedUndisturbed(script: seq<Pause>, k: nat) {
    Undisturbed(PauseAt(script, k)) && Undisturbed(PauseAt(script, k + 1)) && Undisturbed(PauseAt(script, k + 2))
  }

  predicate NoTick(p: Pause) {
    TickDue !in p.meanwhile
  }

  /** The flags of a task before and after an await. */
  datatype Flags = Flags(requested: bool, cancelled: bool, lost: bool)

  /** What is sure about them. */
  ghost predicate Heard(p: Pause, before: Flags, after: Flags) {
    && (before.requested || Request in p.meanwhile ==> after.requested)
    && (before.cancelled || AsksToStop(p.meanwhile) ==> after.cancelled)
    && (before.lost ==> after.lost)
    && (NoTick(p) ==> after.lost == before.lost)
    && (p.meanwhile == [] ==> after == before)
  }

  /** A renewal that came due and was not answered well has cost the task its authority. */
  predicate Kept(alive: bool, meanwhile: seq<Outside>, before: Flags, after: Flags) {
    alive && !before.lost && TickDue in meanwhile && TickAnswered(true) !in meanwhile ==> after.lost && after.cancelled
  }

  /** A reset is started although the token has been set before. */
  ghost predicate ResetOnceCancelled(trace: seq<Event>) {
    exists i, j :: 0 <= i < j < |trace| && SetsToken(trace[i]) && trace[j] == Begin(Reset)
  }

  predicate IsReply(e: Event) {
    match e
    case End(_, _) => true
    case Inspected(_) => true
    case Listed(_, _) => true
    case Polled => true
    case Abandoned => true
    case ClaimReply(_) => true
    case RenewReply(_) => true
    case TransitionReply(_) => true
    case _ => false
  }

  /** The answers in a trace, in order. */
  function Replies(trace: seq<Event>): seq<Event> {
    if trace == [] then []
    else
      var front := Replies(trace[..|trace| - 1]);
      if IsReply(trace[|trace| - 1]) then front + [trace[|trace| - 1]] else front
  }

  /** Whether an answer is what the world said. */
  predicate Fits(e: Event, p: Pause) {
    match e
    case End(_, ok) => ok == p.ok
    case Inspected(dirty) => p.ok && dirty == p.more
    case Listed(more, isFile) => more == p.ok && isFile == p.more
    case ClaimReply(ok) => ok == p.ok
    case RenewReply(ok) => ok == p.ok
    case TransitionReply(ok) => ok == p.ok
    case _ => true
  }

  /** Each answer in the trace is the world's, one for every await so far. */
  ghost predicate Answered(replies: seq<Event>, script: seq<Pause>) {
    forall k :: 0 <= k < |replies| ==> Fits(replies[k], PauseAt(script, k))
  }

  datatype ExitReason = CompletedRun | CancelledRun | FailedRun

  class Worker {
    const governed: bool

    // The task's flags: asked to stop, the cancel token, over.
    var requested: bool
    var cancelled: bool
    var finished: bool
    var exitReason: Option<ExitReason>

    // The renewal loop around a claimed lifecycle.
    var keepingAlive: bool
    var lost: bool

    var world: seq<Pause>

    ghost const script: seq<Pause>
    ghost var trace: seq<Event>
    ghost var control: Control

    /** The flags are those of the trace, which is one of the protocol. */
    ghost predicate Agrees()
      reads `requested, `cancelled, `lost, `keepingAlive, `trace, `control
    {
      && After(governed, trace) == Some(control)
      && control.requested == requested && control.cancelled == cancelled && control.lost == lost
      && (keepingAlive ==> governed && control.admitted && control.phase != Over)
      && Answered(Replies(trace), script)
    }

    ghost predicate Valid()
      reads this
    {
      Agrees() && !control.ticking && world == From(script, |Replies(trace)|)
    }

    /** An await has been answered by `p` and the answer is not yet in the trace. */
    ghost predicate Hearing(p: Pause)
      reads this
    {
      && Agrees() && !control.ticking
      && p == PauseAt(script, |Replies(trace)|) && world == From(script, |Replies(trace)| + 1)
    }

    /** How many awaits have been answered. */
    ghost function Answers(): nat
      reads `trace
    {
      |Replies(trace)|
    }

    ghost function FlagsNow(): Flags
      reads `requested, `cancelled, `lost
    {
      Flags(requested, cancelled, lost)
    }

    constructor (governed: bool, world: seq<Pause>)
      ensures Valid() && this.governed == governed && script == world
      ensures trace == [] && control == UNSTARTED && !keepingAlive && !finished
    {
      this.governed := governed;
      this.world := world;
      this.script := world;
      requested, cancelled, finished, keepingAlive, lost := false, false, false, false, false;
      exitReason := None;
      trace := [];
      control := UNSTARTED;
    }

    /** Writes an event of the lifecycle's own into the history. */
    ghost method Record(e: Event)
      requires Valid() && !FromOutside(e) && !IsReply(e) && NextPhase(governed, control, e).Some?
      requires keepingAlive ==> !e.Returned?
      modifies `trace, `control
      ensures Valid() && trace == old(trace) + [e] && Replies(trace) == Replies(old(trace))
      ensures control == Moved(old(control), NextPhase(governed, old(control), e).value)
    {
      hide Step, NextPhase, After, Replies, Answered;
      AfterOneMore(governed, trace, e);
      OneMoreReply(trace, e);
      LifecycleMoves(governed, control, e);
      control := Moved(control, NextPhase(governed, control, e).value);
      trace := trace + [e];
    }

    /** Writes the world's answer into the history. */
    ghost method RecordReply(e: Event, p: Pause)
      requires Hearing(p) && !FromOutside(e) && IsReply(e) && Fits(e, p) && NextPhase(governed, control, e).Some?
      modifies `trace, `control
      ensures Valid() && trace == old(trace) + [e] && Replies(trace) == Replies(old(trace)) + [e]
      ensures control == Moved(old(control), NextPhase(governed, old(control), e).value)
    {
      hide Step, NextPhase, After, Replies, Fits, PauseAt;
      AfterOneMore(governed, trace, e);
      OneMoreReply(trace, e);
      LifecycleMoves(governed, control, e);
      control := Moved(control, NextPhase(governed, control, e).value);
      trace := trace + [e];
    }

    /** Writes an event from outside into the history. */
    ghost method RecordOutside(e: Event)
      requires FromOutside(e) && Step(governed, control, e).Some?
      requires After(governed, trace) == Some(control)
      modifies `trace, `control
      ensures After(governed, trace) == Some(control)
      ensures trace == old(trace) + [e] && Some(control) == Step(governed, old(control), e)
      ensures Replies(trace) == Replies(old(trace))
    {
      hide Step, After, Replies;
      AfterOneMore(governed, trace, e);
      OneMoreReply(trace, e);
      control := Step(governed, control, e).value;
      trace := trace + [e];
    }

    /** Something happens while the lifecycle waits. */
    method Meanwhile(o: Outside, renewing: bool) returns (renews: bool)
      requires Agrees() && control.ticking == renewing
      modifies `requested, `cancelled, `lost, `trace, `control
      ensures Agrees() && control.ticking == renews
      ensures o.TickAnswered? ==> !renews
      ensures old(trace) <= trace && Replies(trace) == Replies(old(trace))
      ensures control.phase == old(control.phase) && control.admitted == old(control.admitted)
      ensures (old(cancelled) ==> cancelled) && (old(requested) || o == Request ==> requested)
      ensures old(requested) && o == SetToken ==> cancelled
      ensures old(lost) ==> lost
      ensures renewing && !o.TickAnswered? ==> renews
      ensures keepingAlive && !old(lost) && o == TickDue ==> renews
      ensures renewing && o == TickAnswered(false) ==> lost && cancelled
      ensures !renewing ==> lost == old(lost) && (o != TickDue ==> !renews)
    {
      hide After, LifecycleStep, Replies, Answered;
      renews := renewing;
      match o {
        case Request =>
          requested := true;
          RecordOutside(Requested);
        case SetToken =>
          if requested {
            cancelled := true;
            RecordOutside(CancelSet);
          }
        case TickDue =>
          if keepingAlive && !lost && !renewing {
            renews := true;
            RecordOutside(TickIssued);
          }
        case TickAnswered(ok) =>
          if renewing {
            renews := false;
            if !ok {
              cancelled := true;
              lost := true;
            }
            RecordOutside(TickReply(ok));
          }
      }
    }

    /** One await of the lifecycle. While a periodic renewal is in flight the lifecycle is
        not polled, so it is answered, or has failed, before the await is over; once one has
        failed the lifecycle is drained without further ones. */
    method Await() returns (p: Pause)
      requires Valid()
      modifies `requested, `cancelled, `lost, `world, `trace, `control
      ensures Hearing(p) && p == PauseAt(script, old(Answers()))
      ensures old(trace) <= trace && Replies(trace) == Replies(old(trace))
      ensures control.phase == old(control.phase) && control.admitted == old(control.admitted)
      ensures Heard(p, old(FlagsNow()), FlagsNow())
      ensures Kept(keepingAlive, p.meanwhile, old(FlagsNow()), FlagsNow())
      ensures control.cancelled == cancelled
      ensures |world| <= |old(world)| && (p.ok ==> |world| < |old(world)|)
    {
      hide Agrees, Replies, AsksToStop;
      p := PauseAt(world, 0);
      NextPause(script, |Replies(trace)|);
      world := From(world, 1);
      var renewing := WhileWaiting(p.meanwhile);
      if renewing {
        renewing := Meanwhile(TickAnswered(false), renewing);
      }
      TokenAgrees(this);
    }

    /** All that happens during one await. */
    method WhileWaiting(meanwhile: seq<Outside>) returns (renewing: bool)
      requires Agrees() && !control.ticking
      modifies `requested, `cancelled, `lost, `trace, `control
      ensures Agrees() && control.ticking == renewing
      ensures old(trace) <= trace && Replies(trace) == Replies(old(trace))
      ensures control.phase == old(control.phase) && control.admitted == old(control.admitted)
      ensures Heard(Pause(meanwhile, true, true), old(FlagsNow()), FlagsNow())
      ensures TickDue !in meanwhile ==> !renewing
      ensures renewing || Kept(keepingAlive, meanwhile, old(FlagsNow()), FlagsNow())
    {
      hide Agrees, Replies, AsksToStop;
      renewing := false;
      NothingAsked(meanwhile);
      for k := 0 to |meanwhile|
        invariant Agrees() && control.ticking == renewing
        invariant old(trace) <= trace && Replies(trace) == Replies(old(trace))
        invariant control.phase == old(control.phase) && control.admitted == old(control.admitted)
        invariant Heard(Pause(meanwhile[..k], true, true), old(FlagsNow()), FlagsNow())
        invariant TickDue !in meanwhile[..k] ==> !renewing
        invariant renewing || Kept(keepingAlive, meanwhile[..k], old(FlagsNow()), FlagsNow())
      {
        OneMoreAsk(meanwhile, k);
        renewing := Meanwhile(meanwhile[k], renewing);
      }
      assert meanwhile[..|meanwhile|] == meanwhile;
    }

    /** An operation that is started, awaited, and succeeds or fails. */
    method Perform(stage: Stage) returns (ok: bool)
      requires Valid() && stage != Scan && stage != Status
      requires MayBegin(governed, control.phase, stage) && (cancelled ==> Unchecked(stage))
      modifies `requested, `cancelled, `lost, `world, `trace, `control
      ensures Valid() && control.phase == AfterStage(stage, ok)
      ensures old(control.admitted) ==> control.admitted
      ensures old(trace) + [Begin(stage)] <= trace && Replies(trace) == Replies(old(trace)) + [End(stage, ok)]
      ensures
        var p := PauseAt(script, old(Answers()));
        ok == p.ok && Heard(p, old(FlagsNow()), FlagsNow())
    {
      hide MayBegin, AfterStage, NextPhase, After, Replies, Answered;
      BeginIs(governed, control, stage);
      Record(Begin(stage));
      var p := Await();
      EndIs(governed, control, stage, p.ok);
      RecordReply(End(stage, p.ok), p);
      return p.ok;
    }

    // ----- the lifecycle -----

    /** What `?` and `ensure_task_active` leave behind when the lifecycle ends early. */
    ghost predicate Stopped()
      reads this
    {
      Valid() && Executing(governed, control) && (control.phase == Broken || cancelled)
    }

    ghost predicate AtStart()
      reads this
    {
      Valid() && LifecycleStart(governed, control.phase) && (governed ==> control.admitted)
    }

    /** `apply_deterministic_append`; its own failure does not stop the task. */
    method ApplyDeterministicAppend(safePath: bool)
      requires AtStart()
      modifies `requested, `cancelled, `lost, `world, `trace, `control
      ensures Valid() && (governed ==> control.admitted)
      ensures
        || LifecycleStart(governed, control.phase)
        || control.phase == Paused(Edit)
        || (control.phase == Paused(ReadFile) && cancelled)
      ensures old(cancelled) || !safePath ==> trace == old(trace)
      ensures !old(cancelled) && safePath ==>
                && old(trace) + [Begin(MakeDir)] <= trace
                && (PauseAt(script, old(Answers())).ok ==>
                      Begin(ReadFile) in trace && (cancelled || Begin(Edit) in trace))
    {
      hide After, Replies, Answered, NextPhase, PauseAt, AsksToStop, Heard;
      if cancelled || !safePath {
        return;
      }
      var made := Perform(MakeDir);
      if !made {
        return;
      }
      ghost var dir := trace;
      var _ := Perform(ReadFile);
      assert trace[|dir|] == Begin(ReadFile) && trace[old(|trace|)] == Begin(MakeDir);
      if cancelled {
        return;
      }
      ghost var read := trace;
      var _ := Perform(Edit);
      assert trace[|read|] == Begin(Edit) && trace[|dir|] == Begin(ReadFile);
    }

    /** `git add`, then `git reset` of the generated paths; nothing is checked in between. */
    method AddWorkspaceChanges() returns (ok: bool)
      requires Valid() && control.phase == Paused(Agent) && !cancelled && (governed ==> control.admitted)
      modifies `requested, `cancelled, `lost, `world, `trace, `control
      ensures Valid() && (governed ==> control.admitted)
      ensures control.phase == if ok then Paused(Reset) else Broken
      ensures
        var p := PauseAt(script, old(Answers()));
        p.ok && AsksToStop(p.meanwhile) ==> cancelled && ResetOnceCancelled(trace)
      ensures Undisturbed(PauseAt(script, old(Answers()))) && Undisturbed(PauseAt(script, old(Answers()) + 1)) ==>
                ok && FlagsNow() == old(FlagsNow()) && Answers() == old(Answers()) + 2
    {
      hide After, Replies, Answered, NextPhase, PauseAt, AsksToStop;
      ok := Perform(Add);
      if ok {
        ghost var added, stopped := trace, cancelled;
        if stopped {
          TokenIsInTheTrace(this);
        }
        ok := Perform(Reset);
        if stopped {
          ResetFollows(added, trace);
        }
      }
    }

    /** `git status`. */
    method WorkspaceStatus() returns (ok: bool, dirty: bool)
      requires Valid() && control.phase == Paused(Reset) && !cancelled && (governed ==> control.admitted)
      modifies `requested, `cancelled, `lost, `world, `trace, `control
      ensures Valid() && (governed ==> control.admitted)
      ensures control.phase == if !ok then Broken else if dirty then Dirty else Clean
      ensures
        var p := PauseAt(script, old(Answers()));
        && ok == p.ok && dirty == p.more && Heard(p, old(FlagsNow()), FlagsNow())
        && Answers() == old(Answers()) + 1
    {
      hide NextPhase, Valid, Hearing, MayBegin, Unchecked, Replies, AsksToStop, Heard;
      TokenIsKnown(this);
      CanBegin(governed);
      BeginIs(governed, control, Status);
      Record(Begin(Status));
      var p := Await();
      StatusRead(p);
      return p.ok, p.more;
    }

    /** The answer of `git status`. */
    ghost method StatusRead(p: Pause)
      requires Hearing(p) && control.phase == Busy(Status)
      modifies `trace, `control
      ensures Valid() && control.admitted == old(control.admitted) && Answers() == old(Answers()) + 1
      ensures control.phase == if !p.ok then Broken else if p.more then Dirty else Clean
    {
      hide NextPhase, Valid, Hearing, Replies, After, Answered, PauseAt;
      if p.ok {
        InspectedIs(governed, control, p.more);
        RecordReply(Inspected(p.more), p);
      } else {
        EndIs(governed, control, Status, false);
        RecordReply(End(Status, false), p);
      }
    }

    /** `renew_claim` right before the push. */
    method RenewClaim() returns (ok: bool)
      requires Valid() && control.phase == Paused(Commit) && !cancelled && governed && control.admitted
      modifies `requested, `cancelled, `lost, `world, `trace, `control
      ensures Valid() && control.admitted
      ensures control.phase == if ok then Renewed else Broken
    {
      hide After, Replies, Answered;
      Record(RenewIssued);
      var p := Await();
      RecordReply(RenewReply(p.ok), p);
      return p.ok;
    }

    /** The next directory entry, if there is one. */
    method NextEntry() returns (more: bool, isFile: bool)
      requires Valid() && control.phase == Busy(Scan)
      modifies `requested, `cancelled, `lost, `world, `trace, `control
      ensures Valid() && control.phase == if more then Offered(isFile) else AllListed
      ensures control.admitted == old(control.admitted)
      ensures more ==> |world| < |old(world)|
      ensures
        var p := PauseAt(script, old(Answers()));
        && more == p.ok && Heard(p, old(FlagsNow()), FlagsNow())
        && Answers() == old(Answers()) + 1
    {
      hide NextPhase, After, Replies, Answered;
      var p := Await();
      ListedIs(governed, control, p.ok, p.more);
      RecordReply(Listed(p.ok, p.more), p);
      return p.ok, p.more;
    }

    /** One upload, given up when the token is set before it is done; a failed one is
        reported and passed over. */
    method PublishFile() returns (goOn: bool)
      requires Valid() && control.phase == Offered(true) && !cancelled
      modifies `requested, `cancelled, `lost, `world, `trace, `control
      ensures Valid() && control.phase == if goOn then Busy(Scan) else Broken
      ensures !goOn ==> cancelled
      ensures control.admitted == old(control.admitted)
      ensures |world| <= |old(world)|
    {
      hide NextPhase, Valid, Hearing, MayBegin, Unchecked, Replies, AsksToStop;
      TokenIsKnown(this);
      CanBegin(governed);
      BeginIs(governed, control, Publish);
      Record(Begin(Publish));
      var p := Await();
      goOn := FinishPublish(p);
    }

    /** Either branch of the select over the upload and the cancel token. */
    method FinishPublish(p: Pause) returns (goOn: bool)
      requires Hearing(p) && control.phase == Busy(Publish)
      modifies `trace, `control
      ensures Valid() && control.phase == if goOn then Busy(Scan) else Broken
      ensures !goOn ==> cancelled
      ensures control.admitted == old(control.admitted)
    {
      hide NextPhase, Valid, Replies, After, Answered, PauseAt;
      goOn := !(cancelled && p.more);
      if goOn {
        EndIs(governed, control, Publish, p.ok);
        RecordReply(End(Publish, p.ok), p);
      } else {
        AbandonedIs(governed, control);
        RecordReply(Abandoned, p);
      }
    }

    /** `publish_artifacts`: every file of the output directory, until cancelled. */
    method PublishArtifacts() returns (ok: bool)
      requires Valid() && (control.phase == Clean || control.phase == Paused(Push)) && (governed ==> control.admitted)
      modifies `requested, `cancelled, `lost, `world, `trace, `control
      ensures Valid() && (governed ==> control.admitted)
      ensures !ok ==> cancelled
      ensures if ok then control.phase == AllListed else Stopped()
      ensures !old(cancelled) && !PauseAt(script, old(Answers())).ok ==>
                && ok && Answers() == old(Answers()) + 1
                && Heard(PauseAt(script, old(Answers())), old(FlagsNow()), FlagsNow())
    {
      hide NextPhase, Valid, Hearing, MayBegin, Unchecked, Stopped, Replies, PauseAt, AsksToStop, Heard;
      TokenIsKnown(this);
      if cancelled {
        StopsHere(this);
        return false;
      }
      CanBegin(governed);
      BeginIs(governed, control, Scan);
      Record(Begin(Scan));
      while true
        invariant Valid() && control.phase == Busy(Scan) && (governed ==> control.admitted)
        invariant (Answers() == old(Answers()) && FlagsNow() == old(FlagsNow()))
               || PauseAt(script, old(Answers())).ok
        decreases |world|
      {
        var more, isFile := NextEntry();
        TokenIsKnown(this);
        if !more {
          return true;
        }
        if cancelled {
          StopsHere(this);
          return false;
        }
        var goOn := TakeEntry(isFile);
        if !goOn {
          StopsHere(this);
          return false;
        }
      }
    }

    /** A file is published, anything else is passed over. */
    method TakeEntry(isFile: bool) returns (goOn: bool)
      requires Valid() && control.phase == Offered(isFile) && !cancelled
      modifies `requested, `cancelled, `lost, `world, `trace, `control
      ensures Valid() && control.phase == if goOn then Busy(Scan) else Broken
      ensures !goOn ==> cancelled
      ensures control.admitted == old(control.admitted)
      ensures |world| <= |old(world)|
    {
      hide NextPhase, Valid, MayBegin, Unchecked, Replies;
      TokenIsKnown(this);
      goOn := true;
      if isFile {
        goOn := PublishFile();
      } else {
        SkippedIs(governed, control);
        Record(Skipped);
      }
    }

    /** The commit, the final renewal of a governed task, and the push. */
    method CommitAndPush() returns (ok: bool)
      requires Valid() && control.phase == Dirty && (governed ==> control.admitted)
      modifies `requested, `cancelled, `lost, `world, `trace, `control
      ensures Valid() && (governed ==> control.admitted)
      ensures if ok then control.phase == Paused(Push) else Stopped()
    {
      hide NextPhase, Valid, Unchecked, Stopped;
      TokenIsKnown(this);
      if cancelled {
        StopsHere(this);
        return false;
      }
      ok := Perform(Commit);
      TokenIsKnown(this);
      if !ok || cancelled {
        StopsHere(this);
        return false;
      }
      if governed {
        ok := RenewClaim();
        TokenIsKnown(this);
        if !ok || cancelled {
          StopsHere(this);
          return false;
        }
      }
      ok := Perform(Push);
      if !ok {
        StopsHere(this);
      }
    }

    /** The body of `run_task_lifecycle`. */
    method LifecycleStages(hasEdit: bool, safePath: bool) returns (ok: bool)
      requires AtStart()
      modifies `requested, `cancelled, `lost, `world, `trace, `control
      ensures Valid() && (governed ==> control.admitted)
      ensures if ok then control.phase == AllListed else Stopped()
      ensures !hasEdit && !old(cancelled) && StopsWhileAdding(script, old(Answers())) ==> ResetOnceCancelled(trace)
      ensures !hasEdit && !old(cancelled) ==>
                Executes(script, old(Answers()), old(FlagsNow()), ok, FlagsNow(), Answers())
    {
      hide NextPhase, Valid, Unchecked, Stopped, StopsWhileAdding, Executes, ResetOnceCancelled, Replies;
      TokenIsKnown(this);
      if cancelled {
        StopsHere(this);
        return false;
      }
      if hasEdit {
        ApplyDeterministicAppend(safePath);
        TokenIsKnown(this);
      }
      if cancelled {
        StopsHere(this);
        return false;
      }
      ok := AgentToArtifacts();
    }

    /** From the agent on. */
    method AgentToArtifacts() returns (ok: bool)
      requires Valid() && (LifecycleStart(governed, control.phase) || control.phase == Paused(Edit))
      requires !cancelled && (governed ==> control.admitted)
      modifies `requested, `cancelled, `lost, `world, `trace, `control
      ensures Valid() && (governed ==> control.admitted)
      ensures if ok then control.phase == AllListed else Stopped()
      ensures StopsWhileAdding(script, old(Answers())) ==> ResetOnceCancelled(trace)
      ensures Executes(script, old(Answers()), old(FlagsNow()), ok, FlagsNow(), Answers())
    {
      hide NextPhase, Valid, Unchecked, Stopped, AsksToStop, ResetOnceCancelled, PauseAt, Replies;
      ok := Perform(Agent);
      TokenIsKnown(this);
      if !ok || cancelled {
        StopsHere(this);
        return false;
      }
      ok := AddWorkspaceChanges();
      TokenIsKnown(this);
      if !ok || cancelled {
        StopsHere(this);
        return false;
      }
      ok := StatusToArtifacts();
    }

    /** From the status of the workspace on. */
    method StatusToArtifacts() returns (ok: bool)
      requires Valid() && control.phase == Paused(Reset) && !cancelled && (governed ==> control.admitted)
      modifies `requested, `cancelled, `lost, `world, `trace, `control
      ensures Valid() && (governed ==> control.admitted)
      ensures if ok then control.phase == AllListed else Stopped()
      ensures
        var p, last := PauseAt(script, old(Answers())), PauseAt(script, old(Answers()) + 1);
        Undisturbed(p) && !p.more && !last.ok ==>
          ok && Answers() == old(Answers()) + 2 && Heard(last, old(FlagsNow()), FlagsNow())
    {
      hide NextPhase, Valid, Unchecked, Stopped;
      var read, dirty := WorkspaceStatus();
      if !read {
        StopsHere(this);
        return false;
      }
      if dirty {
        ok := CommitAndPush();
        if !ok {
          return false;
        }
      }
      TokenIsKnown(this);
      if cancelled {
        StopsHere(this);
        return false;
      }
      ok := PublishArtifacts();
    }

    /** `run_task_lifecycle`. */
    method RunTaskLifecycle(hasEdit: bool, safePath: bool) returns (ok: bool)
      requires AtStart()
      modifies `requested, `cancelled, `lost, `world, `trace, `control
      ensures Valid() && (governed ==> control.admitted) && control.phase == Ended(ok)
      ensures !hasEdit && !old(cancelled) && StopsWhileAdding(script, old(Answers()))
          ==> ResetOnceCancelled(trace)
      ensures !hasEdit && !old(cancelled) ==>
                Executes(script, old(Answers()), old(FlagsNow()), ok, FlagsNow(), Answers())
    {
      hide After, Replies, Answered, StopsWhileAdding, ResetOnceCancelled, Executes;
      ok := LifecycleStages(hasEdit, safePath);
      ghost var before := trace;
      Record(Executed(ok));
      StillReset(before, trace);
    }

    // ----- under a claim -----

    /** `transition`. */
    method Transition(status: WorkStatus) returns (ok: bool)
      requires Valid() && TransitionTo(governed, control, status).Some?
      modifies `requested, `cancelled, `lost, `world, `trace, `control
      ensures Valid()
      ensures Some(control.phase) == TransitionAnswered(TransitionTo(governed, old(control), status).value, ok)
      ensures old(control.admitted) ==> control.admitted
      ensures control.phase == Admitted ==> control.admitted
      ensures ok == PauseAt(script, old(Answers())).ok
      ensures Answers() == old(Answers()) + 1 && old(trace) + [TransitionIssued(status)] <= trace
      ensures Heard(PauseAt(script, old(Answers())), old(FlagsNow()), FlagsNow())
    {
      hide NextPhase, After, Replies, Answered, TransitionTo, TransitionAnswered;
      TransitionIs(governed, control, status);
      Record(TransitionIssued(status));
      var p := Await();
      TransitionReplyIs(governed, control, p.ok);
      RecordReply(TransitionReply(p.ok), p);
      return p.ok;
    }

    /** The first poll of a task or of its lifecycle, after whatever wait. */
    method FirstPoll()
      requires Valid() && (control.phase == Fresh || control.phase == Admitted)
      modifies `requested, `cancelled, `lost, `world, `trace, `control
      ensures Valid() && control.phase == old(control.phase)
      ensures old(control.admitted) ==> control.admitted
      ensures Replies(trace) == Replies(old(trace)) + [Polled]
      ensures Heard(PauseAt(script, old(Answers())), old(FlagsNow()), FlagsNow())
    {
      hide NextPhase, After, Replies, Answered;
      var p := Await();
      PolledIs(governed, control);
      RecordReply(Polled, p);
    }

    /** The terminal transition of a claimed lifecycle, and its second chance. */
    method ReportOutcome(executed: bool) returns (accepted: bool)
      requires Valid() && governed && control.admitted && control.phase == Ended(executed)
      modifies `requested, `cancelled, `lost, `world, `trace, `control
      ensures Valid() && control.admitted
      ensures Returns(governed, control, executed && accepted && !lost)
      ensures TransitionIssued(TerminalStatus(old(requested), executed)) in trace
      ensures control.phase.Reported? || control.phase.Recovered?
      ensures accepted == PauseAt(script, old(Answers())).ok
      ensures accepted && NoTick(PauseAt(script, old(Answers()))) ==> lost == old(lost)
    {
      hide NextPhase, After, Replies, Answered, PauseAt, AsksToStop, From;
      var status := TerminalStatus(requested, executed);
      accepted := Transition(status);
      if executed && !accepted {
        var _ := Transition(FailedWork);
      }
      assert trace[old(|trace|)] == TransitionIssued(status);
    }

    /** The lifecycle of an accepted task, and its report. */
    method ExecuteAndReport(hasEdit: bool, safePath: bool) returns (ok: bool)
      requires Valid() && governed && control.admitted && control.phase == Admitted
      modifies `requested, `cancelled, `lost, `world, `trace, `control
      ensures control.phase.Reported? || control.phase.Recovered?
      ensures Valid() && Returns(governed, control, ok)
      ensures !hasEdit && !old(cancelled) ==> ReportsFitting(script, old(Answers()), old(FlagsNow()), ok, trace)
    {
      hide Valid, Replies, Returns, PauseAt, AsksToStop, After;
      FirstPoll();
      AtStartWhenAdmitted(this);
      var executed := RunTaskLifecycle(hasEdit, safePath);
      var accepted := ReportOutcome(executed);
      return executed && accepted && !lost;
    }

    /** `run_claimed_lifecycle`: the lifecycle and its terminal transition, with renewals
        ticking at every await until one fails. */
    method RunClaimedLifecycle(hasEdit: bool, safePath: bool) returns (ok: bool)
      requires Valid() && governed && control.admitted && control.phase == Admitted && !keepingAlive
      modifies `requested, `cancelled, `lost, `world, `trace, `control, `keepingAlive
      ensures control.phase.Reported? || control.phase.Recovered?
      ensures Valid() && !keepingAlive && Returns(governed, control, ok)
      ensures !hasEdit && !old(cancelled) ==> ReportsFitting(script, old(Answers()), old(FlagsNow()), ok, trace)
    {
      hide After, Replies, Answered, Returns, ReportsFitting;
      keepingAlive := true;
      ok := ExecuteAndReport(hasEdit, safePath);
      keepingAlive := false;
    }

    /** `claim_work`. */
    method ClaimWork() returns (ok: bool)
      requires Valid() && governed && control.phase == Paused(Prepare) && !cancelled
      modifies `requested, `cancelled, `lost, `world, `trace, `control
      ensures Valid() && control.phase == if ok then Claimed else GaveUp
      ensures ok == PauseAt(script, old(Answers())).ok && Answers() == old(Answers()) + 1
      ensures Heard(PauseAt(script, old(Answers())), old(FlagsNow()), FlagsNow())
    {
      hide After, Replies, Answered;
      Record(ClaimIssued);
      var p := Await();
      RecordReply(ClaimReply(p.ok), p);
      return p.ok;
    }

    /** The body of `run_task_inner`. */
    method InnerStages(hasWorkItem: bool, hasEdit: bool, safePath: bool) returns (ok: bool)
      requires Valid() && control.phase == Fresh && !keepingAlive
      modifies `requested, `cancelled, `lost, `world, `trace, `control, `keepingAlive
      ensures Valid() && !keepingAlive && Returns(governed, control, ok)
      ensures !governed && !hasEdit && !old(cancelled) && Undisturbed(PauseAt(script, old(Answers())))
              && StopsWhileAdding(script, old(Answers()) + 1)
          ==> ResetOnceCancelled(trace)
      ensures governed && hasWorkItem && !hasEdit && !old(cancelled) && ClaimedUndisturbed(script, old(Answers()))
          ==> ReportsFitting(script, old(Answers()) + 3, old(FlagsNow()), ok, trace)
      ensures !governed && !hasEdit && !old(cancelled) && Undisturbed(PauseAt(script, old(Answers())))
              && ReachesTheEnd(script, old(Answers()) + 1)
          ==> ok
      ensures governed && hasWorkItem && control.phase == Paused(Prepare) ==> cancelled
    {
      hide NextPhase, After, Replies, Answered, PauseAt, From, StopsWhileAdding, ResetOnceCancelled, ReportsFitting,
        ReachesTheEnd;
      if cancelled {
        return false;
      }
      ok := Perform(Prepare);
      if !ok || cancelled {
        return false;
      }
      if governed {
        ok := ClaimAndRun(hasWorkItem, hasEdit, safePath);
      } else {
        ok := RunTaskLifecycle(hasEdit, safePath);
      }
    }

    /** The governed half of `run_task_inner`: claim, admission, lifecycle. */
    method ClaimAndRun(hasWorkItem: bool, hasEdit: bool, safePath: bool) returns (ok: bool)
      requires Valid() && governed && control.phase == Paused(Prepare) && !cancelled && !keepingAlive
      modifies `requested, `cancelled, `lost, `world, `trace, `control, `keepingAlive
      ensures Valid() && !keepingAlive && Returns(governed, control, ok)
      ensures !hasWorkItem <==> control.phase == Paused(Prepare)
      ensures hasWorkItem && !hasEdit
              && Undisturbed(PauseAt(script, old(Answers()))) && Undisturbed(PauseAt(script, old(Answers()) + 1))
          ==> ReportsFitting(script, old(Answers()) + 2, old(FlagsNow()), ok, trace)
    {
      hide NextPhase, After, Replies, Answered, PauseAt, From, ReportsFitting;
      if !hasWorkItem {
        return false;
      }
      ok := ClaimWork();
      if !ok {
        return false;
      }
      if cancelled {
        var _ := Transition(CancelledWork);
        return false;
      }
      ok := Transition(RunningWork);
      if ok {
        ok := RunClaimedLifecycle(hasEdit, safePath);
      }
    }

    /** `run_task_inner`. */
    method RunTaskInner(hasWorkItem: bool, hasEdit: bool, safePath: bool) returns (ok: bool)
      requires Valid() && control.phase == Fresh && !keepingAlive
      modifies `requested, `cancelled, `lost, `world, `trace, `control, `keepingAlive
      ensures Valid() && !keepingAlive
      ensures trace != [] && trace[|trace| - 1] == Returned(ok)
      ensures !governed && !hasEdit && !old(cancelled) && Undisturbed(PauseAt(script, old(Answers())))
              && StopsWhileAdding(script, old(Answers()) + 1)
          ==> ResetOnceCancelled(trace)
      ensures governed && hasWorkItem && !hasEdit && !old(cancelled) && ClaimedUndisturbed(script, old(Answers()))
          ==> ReportsFitting(script, old(Answers()) + 3, old(FlagsNow()), ok, trace)
      ensures !governed && !hasEdit && !old(cancelled) && Undisturbed(PauseAt(script, old(Answers())))
              && ReachesTheEnd(script, old(Answers()) + 1)
          ==> ok
    {
      hide After, Replies, Answered, Returns, StopsWhileAdding, ResetOnceCancelled, ReportsFitting, ReachesTheEnd;
      ok := InnerStages(hasWorkItem, hasEdit, safePath);
      ghost var before := trace;
      Record(Returned(ok));
      StillReset(before, trace);
      StillFits(script, old(Answers()) + 3, old(FlagsNow()), ok, before, trace);
    }

    /** `run_task`, from waiting for the session's queue to the done event. Whatever the
        world did, the trace is one of the protocol and ends with the result, every answer
        in it is the world's, and the exit reason is read off the result and the flag. */
    method RunTask(hasWorkItem: bool, hasEdit: bool, safePath: bool) returns (ok: bool)
      requires Valid() && trace == [] && control == UNSTARTED && !keepingAlive && !finished
      modifies this
      ensures Allowed(governed, trace) && trace != [] && trace[|trace| - 1] == Returned(ok)
      ensures Answered(Replies(trace), script)
      ensures requested == control.requested && cancelled == control.cancelled
      ensures finished
      ensures exitReason == Some(if ok then CompletedRun else if requested then CancelledRun else FailedRun)
      ensures !governed && !hasEdit && !old(cancelled) && Undisturbed(PauseAt(script, 0))
              && Undisturbed(PauseAt(script, 1)) && StopsWhileAdding(script, 2)
          ==> ResetOnceCancelled(trace)
      ensures governed && hasWorkItem && !hasEdit && !old(cancelled) && Undisturbed(PauseAt(script, 0))
              && ClaimedUndisturbed(script, 1)
          ==> ReportsFitting(script, 4, old(FlagsNow()), ok, trace)
      ensures !governed && !hasEdit && !old(cancelled) && Undisturbed(PauseAt(script, 0))
              && Undisturbed(PauseAt(script, 1)) && ReachesTheEnd(script, 2)
          ==> ok
    {
      hide Valid, StopsWhileAdding, ResetOnceCancelled, ReportsFitting, ReachesTheEnd;
      FirstPoll();
      ok := RunTaskInner(hasWorkItem, hasEdit, safePath);
      ValidMeans(this);
      var reason := if ok then CompletedRun else if requested then CancelledRun else FailedRun;
      if !finished {
        finished := true;
        exitReason := Some(reason);
      }
    }
  }

  /** The exception to `NothingStartsOnceCancelled` is real: a task asked to stop while
      `git add` runs, which succeeds all the same, goes on to start `git reset`. */
  method ResetAfterAStop() returns (w: Worker)
    ensures Allowed(false, w.trace) && ResetOnceCancelled(w.trace)
  {
    var quiet, stop := Pause([], true, false), Pause([Request, SetToken], true, false);
    w := new Worker(false, [quiet, quiet, quiet, stop]);
    assert stop.meanwhile[0] == Request && stop.meanwhile[1] == SetToken;
    var _ := w.RunTask(false, false, false);
  }

  /** And so is the other surprise: a task asked to stop after its last check is reported
      cancelled, and succeeds. */
  method SuccessAfterAStop() returns (w: Worker, ok: bool)
    ensures Allowed(true, w.trace) && TransitionIssued(CancelledWork) in w.trace
    ensures ok && w.trace != [] && w.trace[|w.trace| - 1] == Returned(true) && w.exitReason == Some(CompletedRun)
  {
    hide Undisturbed, ClaimedUndisturbed, Completes, Allowed;
    var stop := Pause([Request, SetToken], false, false);
    assert stop.meanwhile[0] == Request;
    var world := ToTheEnd(stop);
    w := new Worker(true, world);
    ok := w.RunTask(true, false, false);
  }

  /** An undisturbed task asks for review. */
  method ReviewAfterSuccess() returns (w: Worker, ok: bool)
    ensures Allowed(true, w.trace) && TransitionIssued(AwaitingReview) in w.trace
    ensures ok && w.trace != [] && w.trace[|w.trace| - 1] == Returned(true) && w.exitReason == Some(CompletedRun)
  {
    hide Undisturbed, ClaimedUndisturbed, Completes, Allowed;
    var world := ToTheEnd(Pause([], false, false));
    w := new Worker(true, world);
    ok := w.RunTask(true, false, false);
  }

  /** One whose agent fails reports the failure. */
  method FailureAfterAFailedAgent() returns (w: Worker, ok: bool)
    ensures Allowed(true, w.trace) && TransitionIssued(FailedWork) in w.trace
    ensures !ok && w.trace != [] && w.trace[|w.trace| - 1] == Returned(false)
  {
    hide Allowed;
    var quiet := Pause([], true, false);
    w := new Worker(true, [quiet, quiet, quiet, quiet, quiet]);
    ok := w.RunTask(true, false, false);
  }

  /** Eleven awaits: polled, prepared, claimed, running, polled again, the agent, `git add`,
      `git reset`, a clean status, the end of the listing and the report. */
  method ToTheEnd(last: Pause) returns (world: seq<Pause>)
    requires NoTick(last) && !last.ok
    ensures Undisturbed(PauseAt(world, 0)) && ClaimedUndisturbed(world, 1) && Completes(world, 4)
    ensures PauseAt(world, 9) == last
  {
    var quiet := Pause([], true, false);
    world := [quiet, quiet, quiet, quiet, quiet, quiet, quiet, quiet, quiet, last, quiet];
  }

  lemma NothingAsked(meanwhile: seq<Outside>)
    ensures !AsksToStop(meanwhile[..0])
  {
  }

  lemma OneMoreAsk(meanwhile: seq<Outside>, k: nat)
    requires k < |meanwhile|
    ensures meanwhile[..k + 1] == meanwhile[..k] + [meanwhile[k]]
    ensures AsksToStop(meanwhile[..k + 1])
        ==> AsksToStop(meanwhile[..k]) || (Request in meanwhile[..k] && meanwhile[k] == SetToken)
  {
    var longer := meanwhile[..k + 1];
    if a, b :| 0 <= a < b < |longer| && longer[a] == Request && longer[b] == SetToken {
      assert meanwhile[..k][a] == Request;
      assert b < k ==> meanwhile[..k][b] == SetToken;
    }
  }

  lemma TokenIsInTheTrace(w: Worker)
    requires w.Valid() && w.cancelled
    ensures exists i :: 0 <= i < |w.trace| && SetsToken(w.trace[i])
  {
    FlagsAreTheTrace(w.governed, w.trace);
  }

  lemma ResetFollows(before: seq<Event>, trace: seq<Event>)
    requires before + [Begin(Reset)] <= trace
    requires exists i :: 0 <= i < |before| && SetsToken(before[i])
    ensures ResetOnceCancelled(trace)
  {
    var i :| 0 <= i < |before| && SetsToken(before[i]);
    assert trace[i] == before[i] && trace[|before|] == Begin(Reset);
  }

  lemma StillFits(script: seq<Pause>, k: nat, flags: Flags, ok: bool, before: seq<Event>, trace: seq<Event>)
    requires before <= trace
    ensures ReportsFitting(script, k, flags, ok, before) ==> ReportsFitting(script, k, flags, ok, trace)
  {
  }

  lemma StillReset(before: seq<Event>, trace: seq<Event>)
    requires before <= trace
    ensures ResetOnceCancelled(before) ==> ResetOnceCancelled(trace)
  {
    if i, j :| 0 <= i < j < |before| && SetsToken(before[i]) && before[j] == Begin(Reset) {
      assert trace[i] == before[i] && trace[j] == before[j];
    }
  }

  lemma OneMoreReply(trace: seq<Event>, e: Event)
    ensures Replies(trace + [e]) == if IsReply(e) then Replies(trace) + [e] else Replies(trace)
  {
    assert (trace + [e])[..|trace|] == trace;
  }

  lemma NextPause(script: seq<Pause>, n: nat)
    ensures PauseAt(From(script, n), 0) == PauseAt(script, n)
    ensures From(From(script, n), 1) == From(script, n + 1)
    ensures |From(script, n + 1)| <= |From(script, n)|
    ensures PauseAt(script, n).ok ==> |From(script, n + 1)| < |From(script, n)|
  {
  }

  lemma ValidMeans(w: Worker)
    requires w.Valid()
    ensures Allowed(w.governed, w.trace) && Answered(Replies(w.trace), w.script)
    ensures w.requested == w.control.requested && w.cancelled == w.control.cancelled
  {
  }

  lemma TokenAgrees(w: Worker)
    requires w.Agrees()
    ensures w.control.cancelled == w.cancelled
  {
  }

  lemma TokenIsKnown(w: Worker)
    requires w.Valid()
    ensures w.control.cancelled == w.cancelled
  {
  }

  lemma AtStartWhenAdmitted(w: Worker)
    requires w.Valid() && w.governed && w.control.admitted && w.control.phase == Admitted
    ensures w.AtStart()
  {
  }

  lemma CanBegin(governed: bool)
    ensures MayBegin(governed, Offered(true), Publish)
    ensures MayBegin(governed, Clean, Scan) && MayBegin(governed, Paused(Push), Scan)
    ensures MayBegin(governed, Paused(Reset), Status)
  {
  }

  lemma StopsHere(w: Worker)
    requires w.Valid() && (w.governed ==> w.control.admitted)
    requires w.control.phase == Broken
          || (w.cancelled && (w.control.phase in {Clean, Dirty, Renewed, Admitted} || w.control.phase.Offered?
              || (w.control.phase.Paused? && (w.governed ==> w.control.phase.stage != Prepare))))
    ensures w.Stopped()
  {
  }

  lemma PolledIs(governed: bool, c: Control)
    requires c.phase == Fresh || c.phase == Admitted
    ensures NextPhase(governed, c, Polled) == Some(c.phase)
  {
  }

  lemma TransitionIs(governed: bool, c: Control, status: WorkStatus)
    requires TransitionTo(governed, c, status).Some?
    ensures NextPhase(governed, c, TransitionIssued(status)) == TransitionTo(governed, c, status)
    ensures forall ok :: TransitionAnswered(TransitionTo(governed, c, status).value, ok).Some?
  {
  }

  lemma TransitionReplyIs(governed: bool, c: Control, ok: bool)
    ensures NextPhase(governed, c, TransitionReply(ok)) == TransitionAnswered(c.phase, ok)
  {
  }

  lemma BeginIs(governed: bool, c: Control, stage: Stage)
    requires MayBegin(governed, c.phase, stage) && (c.cancelled ==> Unchecked(stage))
    ensures NextPhase(governed, c, Begin(stage)) == Some(Busy(stage))
  {
  }

  lemma EndIs(governed: bool, c: Control, stage: Stage, ok: bool)
    requires c.phase == Busy(stage) && stage != Scan && (stage == Status ==> !ok)
    ensures NextPhase(governed, c, End(stage, ok)) == Some(AfterStage(stage, ok))
  {
  }

  lemma InspectedIs(governed: bool, c: Control, dirty: bool)
    requires c.phase == Busy(Status)
    ensures NextPhase(governed, c, Inspected(dirty)) == Some(if dirty then Dirty else Clean)
  {
  }

  lemma ListedIs(governed: bool, c: Control, more: bool, isFile: bool)
    requires c.phase == Busy(Scan)
    ensures NextPhase(governed, c, Listed(more, isFile)) == Some(if more then Offered(isFile) else AllListed)
  {
  }

  lemma SkippedIs(governed: bool, c: Control)
    requires c.phase == Offered(false) && !c.cancelled
    ensures NextPhase(governed, c, Skipped) == Some(Busy(Scan))
  {
  }

  lemma AbandonedIs(governed: bool, c: Control)
    requires c.phase == Busy(Publish) && c.cancelled
    ensures NextPhase(governed, c, Abandoned) == Some(Broken)
  {
  }

  function Moved(c: Control, p: Phase): Control {
    c.(phase := p, admitted := c.admitted || p == Admitted)
  }

  lemma LifecycleMoves(governed: bool, c: Control, e: Event)
    requires !c.ticking && !FromOutside(e) && NextPhase(governed, c, e).Some?
    ensures Step(governed, c, e) == Some(Moved(c, NextPhase(governed, c, e).value))
    ensures NextPhase(governed, c, e).value == Over ==> e.Returned?
  {
    hide NextPhase;
    if NextPhase(governed, c, e) == Some(Over) {
      OnlyReturningEnds(governed, c, e);
    }
  }

  lemma OnlyReturningEnds(governed: bool, c: Control, e: Event)
    requires NextPhase(governed, c, e) == Some(Over)
    ensures e.Returned?
  {
  }
}
