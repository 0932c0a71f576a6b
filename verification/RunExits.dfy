/** How an execution leaves what it is doing, and what the steps beside the straight way from a
    claim to an applied run achieve: errors, hand-backs, recovery and the release of what a dead
    execution left behind. */
module RunExits {
  import opened RunStatus
  import opened RunProtocol
  import opened RunTraces
  import opened RunProgress

  // ---- Phases and how they end ------------------------------------------------------------------------

  /** A plan begins when the run has been loaded, and its execution stays in it until it is done or
      goes over to the apply. */
  lemma PlanPhaseEndsOnly(now: int, v: View, step: Step)
    requires IsExecStep(step)
    ensures InPlanPhase(v.exec) ==>
      var x := ExecStep(now, v, step).exec;
      InPlanPhase(x) || x.stage == Done || (step.AutoApply? && x.stage == Leased && x.kind == ApplyExec)
    ensures step.Load? && v.exec.stage == Leased && v.exec.kind == PlanExec ==>
      InPlanPhase(ExecStep(now, v, step).exec) == !IsFinal(v.row.status)
  {
  }

  /** The locked section begins when the lock is taken, and ends when the execution gives it back or,
      having settled, gives up doing so. */
  lemma LockedSectionEndsOnly(now: int, v: View, step: Step)
    requires IsExecStep(step) && InLockedSection(v.exec)
    ensures var x := ExecStep(now, v, step).exec;
      || InLockedSection(x) || (step.ReleaseLock? && x.stage == Done)
      || (step == Move(step.exec, Done) && v.exec.stage == Settled)
  {
  }

  lemma LockedSectionBegins(now: int, v: View, e: ExecId)
    requires v.exec.stage == Loaded
    ensures var v2 := ExecStep(now, v, AcquireLock(e));
      && (InLockedSection(v2.exec) <==> LiveOnSpace(now, v) && v.space.lock == Unlocked)
      && (InLockedSection(v2.exec) ==> v2.space.lock == RunHeld(v.exec.run))
  {
  }

  // ---- Status writes --------------------------------------------------------------------------------------

  const PREPARATION := {FetchingCompleted, PrePlanRunning, PrePlanCompleted, Queuing, PlanQueued}
  const VERDICTS := {Planned, CostEstimating, CostEstimated, PolicyChecking, PolicyOverride, PolicySoftFailed,
                     PolicyChecked, PostPlanRunning, PostPlanCompleted, PlannedAndFinished}

  /** What an execution has to say at its stage, besides errors. */
  predicate Says(x: Exec, row: Run, to: Status) {
    match x.stage
    case PlanEntry => to == Fetching
    case PlanPrep => to in PREPARATION || to == Planning
    case PlanReady => to in VERDICTS || (to == PlannedAndSaved && row.savePlan)
    case PlanRunning => to in VERDICTS || (to == PlannedAndSaved && row.savePlan)
    case PlanCompleted => to in VERDICTS || (to == PlannedAndSaved && row.savePlan)
    case Locked => to == Confirmed && x.loaded !in {Confirmed, ApplyQueued, Applying}
    case PreApply => to == ApplyQueued
    case Queued => to == Applying
    case Started => to == Applied
    case Spawned => to == Applied
    case _ => false
  }

  /** Where it may report an error: anywhere in a plan, in an apply before the lock, before it is
      queued and once it may start or has started; and recovery, of a run it found in the middle. */
  predicate MayError(x: Exec) {
    || x.stage in {PlanEntry, PlanPrep, PlanReady, PlanRunning, PlanCompleted, Loaded, PreApply, Started, Spawned}
    || (x.stage == Leased && x.kind == RecoveryExec && x.loaded in ERRORED_AFTER_RESTART)
  }

  /** A publication writes the run's status exactly if the execution has that to say or an error to
      report, its lease is good and the edge is legal; it writes nothing else of the rows. */
  lemma PublishesExactly(now: int, v: View, e: ExecId, to: Status)
    ensures var v2 := ExecStep(now, v, Publish(e, to));
      && v2.space == v.space
      && if Live(now, v) && (v.row.status == to || CanTransition(v.row.status, to)) &&
            (Says(v.exec, v.row, to) || (to == Errored && MayError(v.exec)))
         then v2.row == v.row.(status := to) else v2 == v
  {
    StagesSay(v.exec, v.row, to);
  }

  lemma StagesSay(x: Exec, row: Run, to: Status)
    ensures PublishStage(x, row, to) != Gone <==> Says(x, row, to) || (to == Errored && MayError(x))
  {
  }

  /** The stage after the report of an error: a plan goes on to its end, an apply that has not been
      started is done or settles, and recovery turns to the lock. */
  lemma ErrorsLeadOn(now: int, v: View, e: ExecId)
    requires Live(now, v) && CanTransition(v.row.status, Errored) && MayError(v.exec)
    ensures var stage := ExecStep(now, v, Publish(e, Errored)).exec.stage;
      && (InPlanPhase(v.exec) ==> stage == if v.exec.stage == PlanReady then PlanRunning else v.exec.stage)
      && (v.exec.stage == Loaded ==> stage == Done) && (v.exec.stage == Leased ==> stage == Cleared)
      && (v.exec.stage in {PreApply, Started, Spawned} ==> stage == Settled)
  {
  }

  // ---- Winding down ---------------------------------------------------------------------------------------

  lemma ComesToDone(now: int, v: View, e: ExecId) returns (chain: seq<Step>, v2: View)
    requires HasToken(v.exec)
    ensures Leads(now, v, e, chain, v2) && v2.exec == v.exec.(stage := Done)
    ensures v2.row == v.row.(lost := v2.row.lost) && v2.space == v.space.(lock := v2.space.lock)
    ensures v2.space.lock == if LiveOnSpace(now, v) && InLockedSection(v.exec) && v.space.lock == RunHeld(v.exec.run)
                             then Unlocked else v.space.lock
  {
    if v.exec.stage.Done? {
      chain, v2 := [], v;
    } else if InLockedSection(v.exec) {
      var settled := if v.exec.stage.Spawned? then StoreFailedStep(now, v) else At(v, Settled);
      chain := [];
      if v.exec.stage.Spawned? {
        chain := Go(now, v, e, [], v, StoreFailed(e), settled);
      } else if !v.exec.stage.Settled? {
        chain := Go(now, v, e, [], v, Move(e, Settled), settled);
      }
      v2 := ReleaseLockStep(now, settled);
      chain := Go(now, v, e, chain, settled, ReleaseLock(e), v2);
    } else {
      v2 := At(v, Done);
      chain := Go(now, v, e, [], v, Move(e, Done), v2);
    }
  }

  /** Wherever an execution stands, it can wind down by itself: it gives back the lock and the lease
      that are its own and goes, and the run keeps its status. */
  lemma {:induction false} EveryExecutionCanEnd(now: int, v: View, e: ExecId) returns (chain: seq<Step>, v2: View)
    requires HasToken(v.exec)
    ensures Leads(now, v, e, chain, v2) && v2.exec.stage == Gone && v2.row.status == v.row.status
    ensures !Live(now, v2) && !LiveOnSpace(now, v2)
    ensures v.row.leased && v.row.token == v.exec.token && v.space.owner == OwnedBy(v.exec.run, v.exec.token) ==>
      !v2.row.leased && v2.space.owner == Nobody
    ensures LiveOnSpace(now, v) && InLockedSection(v.exec) ==> v2.space.lock != RunHeld(v.exec.run)
  {
    var done;
    chain, done := ComesToDone(now, v, e);
    v2 := ReleaseLeaseStep(done);
    chain := Go(now, v, e, chain, done, ReleaseLease(e), v2);
  }

  // ---- Errors -------------------------------------------------------------------------------------------

  /** The error fence writes exactly for a live execution that threw: a plan anywhere in its phase,
      unless the run is over or its plan has already come to a verdict; an apply at its end, unless
      the run is over. */
  lemma FenceWritesExactly(now: int, v: View, e: ExecId)
    ensures var v2 := ExecStep(now, v, Fence(e));
      && (v2 == v || v2 == Write(v, Errored, Done))
      && (v2 == Write(v, Errored, Done) && v.row.status != Errored <==>
            && Live(now, v) && v.row.status !in {Canceled, ForceCanceled, Applied, Errored, Discarded}
            && match v.exec.kind
               case PlanExec =>
                 && v.exec.stage in {PlanEntry, PlanPrep, PlanReady, PlanRunning, PlanCompleted}
                 && v.row.status !in {Planned, PlannedAndSaved, PlannedAndFinished, PolicySoftFailed}
               case ApplyExec => v.exec.stage == Done
               case RecoveryExec => false)
  {
  }

  /** At the entry of a plan the executor policy's rejection errors the run as it was loaded. */
  lemma RejectionWritesExactly(now: int, v: View, e: ExecId)
    ensures var v2 := ExecStep(now, v, RejectPlan(e));
      if v.exec.stage == PlanEntry && Live(now, v) && v.row.status == v.exec.loaded
      then v2 == v.(row := v.row.(status := Errored), exec := v.exec.(stage := Done)) else v2 == v
  {
  }

  // ---- Hand-backs ---------------------------------------------------------------------------------------

  /** An execution that finds the lease taken hands a run that nobody owns back to its queue, a
      claimed one to pending and a dispatched apply to confirmed, and goes. */
  lemma BusyHandsBack(now: int, v: View, e: ExecId)
    requires v.exec.stage == Dispatched
    ensures var v2 := ExecStep(now, v, LeaseBusy(e));
      && v2.exec == v.exec.(stage := Gone) && v2.space == v.space
      && v2.row == if v.row.leased then v.row
                   else if v.exec.kind == PlanExec && v.row.status == Fetching then v.row.(status := Pending)
                   else if v.exec.kind == ApplyExec && v.row.status in {Confirmed, ApplyQueued}
                        then v.row.(status := Confirmed)
                   else v.row
  {
  }

  /** An apply that cannot get the lock puts a run that is as it was loaded, and not over, back to
      confirmed. */
  lemma DeferralHandsBack(now: int, v: View, e: ExecId)
    requires v.exec.stage == Deferring && Live(now, v)
    ensures var v2 := ExecStep(now, v, Defer(e));
      if v.row.status == v.exec.loaded && !IsTerminal(v.row.status) && v.row.status != Canceled
      then v2.row.status == Confirmed && v2.exec.stage == Done && v2.space == v.space
      else v2 == v
  {
  }

  // ---- Operators and pollers -----------------------------------------------------------------------------

  /** The runs that a write of an operator or a poller changes. */
  predicate Accepts(change: Change, row: Run) {
    match change
    case Cancel => row.status !in OVER && row.status != Canceled
    case ForceCancel => row.status !in OVER
    case Discard => row.status in {Pending, Planned, PlannedAndSaved, PolicySoftFailed, Unreachable}
    case RequeueQueued => row.status in {Pending, PlanQueued, ApplyQueued}
    case OverridePolicy => row.status == PolicySoftFailed
    case ScheduleApply => !row.planOnly && row.status in {Planned, PlannedAndSaved}
    case RevertClaim => row.status == Fetching
    case RevertSchedule => row.status == ApplyQueued
    case RejectSchedule => row.status == Confirmed
    case ErrorUnguarded => true
  }

  const OVER := {Applied, Errored, Discarded, ForceCanceled, PlannedAndFinished, Unreachable}

  /** Where such a write leaves a run: canceled, force-canceled or discarded; back in the queue or
      confirmed; planned after an override; or errored. */
  function Left(change: Change): Status {
    if change in {RequeueQueued, RevertClaim} then Pending
    else if change in {ScheduleApply, RevertSchedule} then Confirmed
    else if change in {RejectSchedule, ErrorUnguarded} then Errored
    else if change == OverridePolicy then Planned
    else if change == Cancel then Canceled
    else if change == ForceCancel then ForceCanceled
    else Discarded
  }

  lemma ChangesMean(row: Run, change: Change)
    ensures ChangeAllowed(row, change) <==> Accepts(change, row)
    ensures Changed(row, change) == row.(status := Left(change),
      requeued := row.requeued + if change == RequeueQueued && row.status == ApplyQueued then 1 else 0)
  {
  }

  /** A write of an operator or a poller changes exactly the runs it accepts, and nothing besides their
      status; sending an apply-queued run back to the queue is counted. */
  lemma OperatorsWriteExactly(s: State, r: RunId, change: Change)
    requires Consistent(s) && r in s.runs
    ensures var row := s.runs[r];
      var back := if change == RequeueQueued && row.status == ApplyQueued then 1 else 0;
      Next(s, ChangeRun(r, change)) ==
      if Accepts(change, row)
      then s.(runs := s.runs[r := row.(status := Left(change), requeued := row.requeued + back)]) else s
  {
    ChangesMean(s.runs[r], change);
    assert s.spaces[s.runs[r].space := SpaceOf(s, r)] == s.spaces;
  }

  /** An apply is dispatched exactly for a planned run that a user applies or, once it is scheduled
      and due, for a confirmed one that is not speculative. */
  lemma AppliesAreDispatchedExactly(s: State, r: RunId, launch: Launch, e: ExecId)
    requires Consistent(s) && r in s.runs && e !in s.execs
    ensures var t, row := Next(s, LaunchApply(r, launch, e)), s.runs[r];
      match launch
      case ApplyAction =>
        if row.status in {Planned, PlannedAndSaved} then
          && t.runs == s.runs[r := row.(status := Confirmed)]
          && t.execs == s.execs[e := Exec(r, ApplyExec, Dispatched, Confirmed, 0)]
        else t == s
      case ScheduledClaim =>
        if row.status == Confirmed && !row.planOnly then
          && t.runs == s.runs[r := row.(status := ApplyQueued)]
          && t.execs == s.execs[e := Exec(r, ApplyExec, Dispatched, ApplyQueued, 0)]
        else t == s
  {
  }

  /** A claim that dispatches nothing here leaves the run to an agent, unreachable or errored. */
  lemma ClaimGivesVerdict(s: State, r: RunId, to: Status, e: ExecId)
    requires Consistent(s) && r in s.runs && ClaimAllowed(s, r) && to in {PlanQueued, Unreachable, Errored}
    ensures var t := Next(s, Claim(r, to, e)); t.runs == s.runs[r := s.runs[r].(status := to)] && t.execs == s.execs
  {
  }

  // ---- Entries ----------------------------------------------------------------------------------------------

  /** Loading its run's row, a plan enters unless the run is over; an apply goes on to the lock unless
      the run was canceled; recovery loads nothing. */
  lemma LoadLeadsOn(now: int, v: View, e: ExecId)
    requires v.exec.stage == Leased
    ensures var x := ExecStep(now, v, Load(e)).exec;
      match v.exec.kind
      case PlanExec => x == v.exec.(loaded := v.row.status, stage := if IsFinal(v.row.status) then Done else PlanEntry)
      case ApplyExec =>
        x == v.exec.(loaded := v.row.status,
                     stage := if v.row.status in {Canceled, ForceCanceled} then Done else Loaded)
      case RecoveryExec => x == v.exec
  {
  }

  /** Only recovery requeues, and only a run that is as it was read and whose lease it has. */
  lemma RequeueWritesExactly(now: int, v: View, e: ExecId)
    ensures var v2 := ExecStep(now, v, Requeue(e));
      if v.exec.kind == RecoveryExec && v.exec.stage == Leased && Live(now, v) && v.row.status == v.exec.loaded &&
         v.row.status in REQUEUED_AFTER_RESTART
      then v2 == Write(v, Pending, Done) else v2 == v
  {
  }

  /** A started apply settles without an outcome exactly if its run was canceled, its lease is lost or
      an error may not be written any more. */
  lemma StartedApplySettlesExactly(now: int, v: View, e: ExecId)
    requires v.exec.stage == Spawned
    ensures ExecStep(now, v, Move(e, Settled)) != v <==>
            || v.row.status in {Canceled, ForceCanceled} || !Live(now, v)
            || (v.row.status != Errored && !CanTransition(v.row.status, Errored))
  {
  }

  /** An execution gives the lock back exactly when it holds it with a good lease and has settled its
      apply, or has errored a run that it found queued for its apply or applying. */
  lemma LockIsReleasedExactly(now: int, v: View, e: ExecId)
    ensures var v2 := ExecStep(now, v, ReleaseLock(e));
      && v2.row == v.row && v2.space == v.space.(lock := v2.space.lock)
      && if LiveOnSpace(now, v) && v.space.lock == RunHeld(v.exec.run) &&
            (v.exec.stage == Settled || (v.exec.stage == Cleared && v.exec.loaded in {ApplyQueued, Applying}))
         then v2.space.lock == Unlocked && v2.exec.stage == Done else v2.space.lock == v.space.lock
  {
  }

  // ---- What a dead execution leaves behind ----------------------------------------------------------------

  /** An expired lease is cleared from the run's row and, if the workspace's row still names it and
      has expired, from there; a lease that is good stays. */
  lemma ExpiredLeaseIsCleared(s: State, r: RunId)
    requires Consistent(s) && r in s.runs
    ensures var t, row, space := Next(s, ClearExpired(r)), s.runs[r], SpaceOf(s, r);
      if row.leased && row.expires <= s.now then
        && t.runs == s.runs[r := row.(leased := false)]
        && SpaceOf(t, r) == if space.owner == OwnedBy(r, row.token) && space.expires <= s.now
                            then space.(owner := Nobody) else space
      else t == s
  {
    var row, space := s.runs[r], SpaceOf(s, r);
    assert s.runs[r := row] == s.runs && s.spaces[row.space := space] == s.spaces;
  }

  /** The lock that the execution of an ended run left behind is found and released; nothing else
      changes. */
  lemma LeftLockIsReleased(s: State, r: RunId)
    requires Consistent(s) && r in s.runs && IsTerminal(s.runs[r].status)
    requires !s.runs[r].leased || s.runs[r].expires <= s.now
    requires SpaceOf(s, r).lock == RunHeld(r)
    ensures var t := Next(Next(s, SweepRead(r, s.now)), SweepWrite(r));
      && t.runs == s.runs && t.execs == s.execs
      && t.spaces == s.spaces[s.runs[r].space := SpaceOf(s, r).(lock := Unlocked)]
  {
    var found := s.(sweeps := s.sweeps + {r});
    assert Next(s, SweepRead(r, s.now)) == found;
    FoundLockIsReleased(found, r);
  }

  lemma FoundLockIsReleased(s: State, r: RunId)
    requires Consistent(s) && r in s.runs && r in s.sweeps && SpaceOf(s, r).lock == RunHeld(r)
    ensures Next(s, SweepWrite(r)) == s.(spaces := s.spaces[s.runs[r].space := SpaceOf(s, r).(lock := Unlocked)])
  {
    assert s.runs[r := s.runs[r]] == s.runs;
  }

  /** A user's lock is set on a workspace without a lock, and nothing else changes... */
  lemma UserLocksExactly(s: State, w: SpaceId)
    requires Consistent(s) && w in s.spaces
    ensures Next(s, UserLock(w)) ==
            if s.spaces[w].lock == Unlocked then s.(spaces := s.spaces[w := s.spaces[w].(lock := UserHeld)]) else s
  {
  }

  /** ...and the user takes off no lock but a user's. */
  lemma UserUnlocksExactly(s: State, w: SpaceId)
    requires Consistent(s) && w in s.spaces
    ensures Next(s, UserUnlock(w)) ==
            if s.spaces[w].lock == UserHeld then s.(spaces := s.spaces[w := s.spaces[w].(lock := Unlocked)]) else s
  {
  }

  // ---- Recovery -------------------------------------------------------------------------------------------

  /** A run in one of these statuses is taken back to the queue by recovery... */
  const REQUEUED_AFTER_RESTART := {Fetching, FetchingCompleted, Queuing, PlanQueued}

  /** ...and in one of these it is errored. */
  const ERRORED_AFTER_RESTART := {PrePlanRunning, PrePlanCompleted, Planning, CostEstimating, CostEstimated,
                                  PolicyChecking, PolicyOverride, PolicyChecked, PostPlanRunning, PostPlanCompleted,
                                  ApplyQueued, Applying}

  /** The recovering execution has the lease. */
  function Recovering(now: int, v: View): View {
    var token := v.row.token + 1;
    Granted(v, token, now + 1).(exec := v.exec.(stage := Leased, token := token))
  }

  lemma Requeues(now: int, v: View, e: ExecId) returns (chain: seq<Step>)
    requires v.exec.stage.Leased? && v.exec.kind.RecoveryExec? && Live(now, v) && LiveOnSpace(now, v)
    requires v.row.status == v.exec.loaded && v.row.status in REQUEUED_AFTER_RESTART
    ensures Leads(now, v, e, chain, View(v.row.(status := Pending, leased := false), v.space.(owner := Nobody),
                                         v.exec.(stage := Gone)))
  {
    var end := View(v.row.(status := Pending, leased := false), v.space.(owner := Nobody), v.exec.(stage := Gone));
    chain := Go(now, v, e, [], v, Requeue(e), Write(v, Pending, Done));
    chain := Go(now, v, e, chain, Write(v, Pending, Done), ReleaseLease(e), end);
  }

  /** The recovered apply's lock, if the run has it, is given back. */
  function Unlocking(v: View): Lock {
    if v.exec.loaded in {ApplyQueued, Applying} && v.space.lock == RunHeld(v.exec.run) then Unlocked else v.space.lock
  }

  lemma ErrorsOut(now: int, v: View, e: ExecId) returns (chain: seq<Step>)
    requires v.exec.stage.Leased? && v.exec.kind.RecoveryExec? && Live(now, v) && LiveOnSpace(now, v)
    requires v.row.status == v.exec.loaded && v.row.status in ERRORED_AFTER_RESTART
    ensures Leads(now, v, e, chain, View(v.row.(status := Errored, leased := false),
                                         v.space.(lock := Unlocking(v), owner := Nobody), v.exec.(stage := Gone)))
  {
    var errored := Write(v, Errored, Cleared);
    var released := View(errored.row, v.space.(lock := Unlocking(v)), v.exec.(stage := Done));
    var end := View(v.row.(status := Errored, leased := false), v.space.(lock := Unlocking(v), owner := Nobody),
                    v.exec.(stage := Gone));
    chain := Go(now, v, e, [], v, Publish(e, Errored), errored);
    var step := if v.exec.loaded in {ApplyQueued, Applying} then ReleaseLock(e) else Move(e, Done);
    chain := Go(now, v, e, chain, errored, step, released);
    chain := Go(now, v, e, chain, released, ReleaseLease(e), end);
  }

  lemma TakesLease(now: int, v: View, e: ExecId) returns (chain: seq<Step>)
    requires v.exec.stage.Dispatched? && (!v.row.leased || v.row.expires <= now)
    requires v.space.owner.Nobody? || v.space.expires <= now
    ensures Leads(now, v, e, chain, Recovering(now, v))
  {
    chain := Go(now, v, e, [], v, AcquireLease(e, now + 1), Recovering(now, v));
  }

  /** Where the recovery of an interrupted run ends. */
  function Recovered(now: int, v: View): View {
    var status := if v.row.status in REQUEUED_AFTER_RESTART then Pending else Errored;
    View(v.row.(status := status, leased := false, token := v.row.token + 1, expires := now + 1),
         v.space.(lock := if v.row.status in {ApplyQueued, Applying} then Unlocking(v) else v.space.lock,
                  owner := Nobody, expires := now + 1),
         v.exec.(stage := Gone, token := v.row.token + 1))
  }

  lemma {:induction false} InterruptedViewIsRecovered(now: int, v: View, e: ExecId) returns (chain: seq<Step>)
    requires v.exec.stage.Dispatched? && v.exec.kind.RecoveryExec? && v.exec.loaded == v.row.status
    requires v.row.status in REQUEUED_AFTER_RESTART || v.row.status in ERRORED_AFTER_RESTART
    requires (!v.row.leased || v.row.expires <= now) && (v.space.owner.Nobody? || v.space.expires <= now)
    ensures Leads(now, v, e, chain, Recovered(now, v))
  {
    var first := TakesLease(now, v, e);
    var leased := Recovering(now, v);
    var rest;
    if v.row.status in REQUEUED_AFTER_RESTART {
      rest := Requeues(now, leased, e);
    } else {
      rest := ErrorsOut(now, leased, e);
    }
    chain := GoFurther(now, v, e, first, leased, rest, Recovered(now, v));
  }

  function Interrupted(s: State, r: RunId): View
    requires Consistent(s) && r in s.runs
  {
    View(s.runs[r], SpaceOf(s, r), Exec(r, RecoveryExec, Dispatched, s.runs[r].status, 0))
  }

  /** Recovery is dispatched exactly for the interrupted statuses. */
  lemma RecoveryStartsExactly(s: State, r: RunId, e: ExecId)
    requires Consistent(s) && r in s.runs && e !in s.execs
    ensures var t := Next(s, StartRecovery(r, e));
      if s.runs[r].status in REQUEUED_AFTER_RESTART || s.runs[r].status in ERRORED_AFTER_RESTART then
        t == s.(execs := s.execs[e := Exec(r, RecoveryExec, Dispatched, s.runs[r].status, 0)]) &&
        ViewOf(t, e) == Interrupted(s, r)
      else t == s
  {
  }

  /** The state with the run recovered. */
  function WithRecovered(s: State, r: RunId, e: ExecId): State
    requires Consistent(s) && r in s.runs
  {
    var v := Recovered(s.now, Interrupted(s, r));
    s.(runs := s.runs[r := v.row], spaces := s.spaces[s.runs[r].space := v.space], execs := s.execs[e := v.exec])
  }

  lemma RecoveredIsInstalled(s: State, r: RunId, e: ExecId)
    requires Consistent(s) && r in s.runs && e !in s.execs
    requires s.runs[r].status in REQUEUED_AFTER_RESTART || s.runs[r].status in ERRORED_AFTER_RESTART
    ensures Install(Next(s, StartRecovery(r, e)), e, Recovered(s.now, Interrupted(s, r))) == WithRecovered(s, r, e)
  {
    RecoveryStartsExactly(s, r, e);
    var v := Recovered(s.now, Interrupted(s, r));
    assert s.execs[e := Exec(r, RecoveryExec, Dispatched, s.runs[r].status, 0)][e := v.exec] == s.execs[e := v.exec];
  }

  lemma RecoveredMeans(s: State, r: RunId)
    requires Consistent(s) && r in s.runs
    requires s.runs[r].status in REQUEUED_AFTER_RESTART || s.runs[r].status in ERRORED_AFTER_RESTART
    ensures var v := Recovered(s.now, Interrupted(s, r));
      && v.row.status == (if s.runs[r].status in REQUEUED_AFTER_RESTART then Pending else Errored)
      && v.space.owner == Nobody && !v.row.leased
      && (s.runs[r].status in {ApplyQueued, Applying} ==> v.space.lock != RunHeld(r))
  {
  }

  /** From any state whatever: an interrupted run whose leases have expired can be recovered. A run
      from which no side effect can have come goes back to the queue, any other one is errored and
      gives back the lock if it has it; the lease is given back, and nothing else has changed. */
  lemma {:induction false} InterruptedRunCanBeRecovered(s: State, r: RunId, e: ExecId) returns (steps: seq<Step>)
    requires Consistent(s) && r in s.runs && e !in s.execs
    requires s.runs[r].status in REQUEUED_AFTER_RESTART || s.runs[r].status in ERRORED_AFTER_RESTART
    requires !s.runs[r].leased || s.runs[r].expires <= s.now
    requires SpaceOf(s, r).owner.Nobody? || SpaceOf(s, r).expires <= s.now
    ensures Execute(s, steps) == WithRecovered(s, r, e)
  {
    var start := StartRecovery(r, e);
    var t := Next(s, start);
    RecoveryStartsExactly(s, r, e);
    var chain := InterruptedViewIsRecovered(s.now, Interrupted(s, r), e);
    steps := [start] + chain;
    assert steps[1..] == chain;
    StretchIsInstalled(t, chain, e);
    RecoveredIsInstalled(s, r, e);
  }
}
