/** The protocol's main guarantees, for every initial state and every run of the system. */
module RunTheorems {
  import opened RunStatus
  import opened RunProtocol
  import opened RunSafety

  lemma {:induction false} ReachableInv(s: State, steps: seq<Step>)
    requires Initial(s)
    ensures Inv(Execute(s, steps))
  {
    InitialInv(s);
    ExecuteKeepsInv(s, steps);
  }

  // ---- Which system steps write a run's status ------------------------------------------

  lemma StatusAfterClaim(s: State, q: RunId, to: Status, e: ExecId, r: RunId)
    requires Consistent(s) && r in s.runs
    ensures var status2 := SystemNext(s, Claim(q, to, e)).runs[r].status;
      status2 == s.runs[r].status || (q == r && ClaimAllowed(s, r) && status2 == to)
  {
  }

  lemma StatusAfterLaunch(s: State, q: RunId, launch: Launch, e: ExecId, r: RunId)
    requires Consistent(s) && r in s.runs
    ensures var status2 := SystemNext(s, LaunchApply(q, launch, e)).runs[r].status;
      status2 == s.runs[r].status || (q == r && LaunchAllowed(s.runs[r], launch) && status2 == LaunchTarget(launch))
  {
  }

  lemma StatusAfterChange(s: State, q: RunId, change: Change, r: RunId)
    requires Consistent(s) && r in s.runs
    ensures SystemNext(s, ChangeRun(q, change)).runs[r].status ==
            if q == r && ChangeAllowed(s.runs[r], change) then ChangeTarget(change) else s.runs[r].status
  {
  }

  lemma StatusAfterOthers(s: State, step: Step, r: RunId)
    requires Consistent(s) && r in s.runs && !IsExecStep(step) && !step.Claim? && !step.ChangeRun? && !step.LaunchApply?
    ensures SystemNext(s, step).runs[r].status == s.runs[r].status
  {
  }

  lemma RowAfterExec(s: State, step: Step, q: RunId)
    requires Consistent(s) && IsExecStep(step) && step.exec in s.execs && q in s.runs
    ensures ExecNext(s, step).runs[q] ==
            if q == s.execs[step.exec].run then ExecStep(s.now, ViewOf(s, step.exec), step).row else s.runs[q]
  {
  }

  lemma SpaceAfterExec(s: State, step: Step, w: SpaceId)
    requires Consistent(s) && IsExecStep(step) && step.exec in s.execs && w in s.spaces
    ensures ExecNext(s, step).spaces[w] ==
            if w == s.runs[s.execs[step.exec].run].space then ExecStep(s.now, ViewOf(s, step.exec), step).space
            else s.spaces[w]
  {
  }

  // ---- Side effects fire once ------------------------------------------------------------

  /** However dispatches, deferrals, crashes, expiries, recoveries and sweeps interleave, a run
      starts one apply process. A further one takes both an outcome that a live executor could
      not store and, afterwards, a deferral that puts the applying run back to confirmed. It
      starts one plan process, plus at most one for each time an operator sends the
      apply-queued run back to pending. */
  lemma {:induction false} ProcessesSpawnedOnce(s: State, steps: seq<Step>, r: RunId)
    requires Initial(s) && r in s.runs
    ensures var row := Execute(s, steps).runs[r];
      && row.spawns <= row.lost + 1 && row.spawns <= row.reopened + 1
      && row.plans <= row.requeued + 1
  {
    ReachableInv(s, steps);
    assert RunInv(Execute(s, steps), r);
  }

  predicate Reopens(now: int, v: View) {
    Live(now, v) && v.exec.stage.Deferring? && v.exec.loaded.Applying? && v.row.status.Applying?
  }

  /** The one door to a second process: a live executor that could not take the workspace lock
      defers a run it loaded as applying, and that still is. */
  lemma {:induction false} RunsAreRarelyReopened(s: State, step: Step, r: RunId)
    requires Consistent(s) && r in s.runs
    ensures Next(s, step).runs[r].reopened != s.runs[r].reopened <==>
            step.Defer? && step.exec in s.execs && s.execs[step.exec].run == r && Reopens(s.now, ViewOf(s, step.exec))
  {
    if IsExecStep(step) {
      ReopenedByExec(s, step, r);
    } else {
      ReopenedBySystem(s, step, r);
    }
  }

  lemma ReopenedByExec(s: State, step: Step, r: RunId)
    requires Consistent(s) && r in s.runs && IsExecStep(step)
    ensures ExecNext(s, step).runs[r].reopened != s.runs[r].reopened <==>
            step.Defer? && step.exec in s.execs && s.execs[step.exec].run == r && Reopens(s.now, ViewOf(s, step.exec))
  {
    if step.exec in s.execs {
      RowAfterExec(s, step, r);
      if s.execs[step.exec].run == r { ReopenedByStep(s.now, ViewOf(s, step.exec), step); }
    }
  }

  lemma ReopenedBySystem(s: State, step: Step, r: RunId)
    requires Consistent(s) && r in s.runs && !IsExecStep(step)
    ensures SystemNext(s, step).runs[r].reopened == s.runs[r].reopened
  {
  }

  lemma ReopenedByStep(now: int, v: View, step: Step)
    requires IsExecStep(step)
    ensures ExecStep(now, v, step).row.reopened != v.row.reopened <==>
            step.Defer? && Reopens(now, v)
  {
  }

  predicate Loses(now: int, v: View) {
    Live(now, v) && v.exec.stage.Spawned? && !IsFinal(v.row.status)
  }

  /** Only a live executor whose run is not over can lose an outcome. */
  lemma {:induction false} OutcomesAreRarelyLost(s: State, step: Step, r: RunId)
    requires Consistent(s) && r in s.runs
    ensures Next(s, step).runs[r].lost != s.runs[r].lost <==>
            && step.StoreFailed? && step.exec in s.execs && s.execs[step.exec].run == r
            && Loses(s.now, ViewOf(s, step.exec))
  {
    if IsExecStep(step) {
      LostByExec(s, step, r);
    } else {
      LostBySystem(s, step, r);
    }
  }

  lemma LostByExec(s: State, step: Step, r: RunId)
    requires Consistent(s) && r in s.runs && IsExecStep(step)
    ensures ExecNext(s, step).runs[r].lost != s.runs[r].lost <==>
            && step.StoreFailed? && step.exec in s.execs && s.execs[step.exec].run == r
            && Loses(s.now, ViewOf(s, step.exec))
  {
    if step.exec in s.execs {
      RowAfterExec(s, step, r);
      if s.execs[step.exec].run == r { LostByStep(s.now, ViewOf(s, step.exec), step); }
    }
  }

  lemma LostBySystem(s: State, step: Step, r: RunId)
    requires Consistent(s) && r in s.runs && !IsExecStep(step)
    ensures SystemNext(s, step).runs[r].lost == s.runs[r].lost
  {
  }

  lemma LostByStep(now: int, v: View, step: Step)
    requires IsExecStep(step)
    ensures ExecStep(now, v, step).row.lost != v.row.lost <==>
            step.StoreFailed? && Loses(now, v)
  {
  }

  // ---- Exclusion ---------------------------------------------------------------------------

  /** A workspace has at most one execution with a live lease. */
  lemma {:induction false} OneLiveExecution(s: State, steps: seq<Step>, e: ExecId, f: ExecId)
    requires Initial(s)
    requires var end := Execute(s, steps);
      && e in end.execs && f in end.execs && IsLive(end, e) && IsLive(end, f)
      && end.runs[end.execs[e].run].space == end.runs[end.execs[f].run].space
    ensures e == f
  {
    ReachableInv(s, steps);
    var end := Execute(s, steps);
    assert RunInv(end, end.execs[e].run) && RunInv(end, end.execs[f].run);
    if e != f { LiveExcludes(end, e, f); }
  }

  /** Inside the locked section, from taking the lock to releasing it after the post-apply
      tasks, the workspace lock names the executor's run. The exception is an apply that
      loaded an ended run: a reconciler may already be about to release its lock; `RunLocks`
      says exactly when that happens. */
  lemma {:induction false} LockNamesRun(s: State, steps: seq<Step>, e: ExecId)
    requires Initial(s)
    requires e in Execute(s, steps).execs && IsLive(Execute(s, steps), e)
    requires InLockedSection(Execute(s, steps).execs[e])
    ensures var v := ViewOf(Execute(s, steps), e);
      v.space.lock == RunHeld(v.exec.run) || (Doomed(v.exec) && IsTerminal(v.row.status))
  {
    ReachableInv(s, steps);
    assert ExecInv(Execute(s, steps), e);
  }

  /** ...and that apply changes nothing until it gives up the lock. */
  lemma DoomedApplyIsInert(now: int, v: View, step: Step, swept: bool)
    requires ViewOk(now, v, swept) && Doomed(v.exec) && IsExecStep(step)
    ensures var v2 := ExecStep(now, v, step);
      && v2.row.status == v.row.status && v2.row.spawns == v.row.spawns
      && (Doomed(v2.exec) || v2.exec.stage.Done?)
  {
  }

  /** No step but the user's own unlock ends a user's lock. */
  lemma {:induction false} UserLockIsKept(s: State, step: Step, w: SpaceId)
    requires Consistent(s) && w in s.spaces && s.spaces[w].lock.UserHeld? && step != UserUnlock(w)
    ensures Next(s, step).spaces[w].lock.UserHeld?
  {
    if IsExecStep(step) {
      UserLockKeptByExec(s, step, w);
    } else {
      UserLockKeptBySystem(s, step, w);
    }
  }

  lemma UserLockKeptByExec(s: State, step: Step, w: SpaceId)
    requires Consistent(s) && w in s.spaces && s.spaces[w].lock.UserHeld? && IsExecStep(step)
    ensures ExecNext(s, step).spaces[w].lock.UserHeld?
  {
    if step.exec in s.execs {
      SpaceAfterExec(s, step, w);
      if s.runs[s.execs[step.exec].run].space == w { UserLockKeptByStep(s.now, ViewOf(s, step.exec), step); }
    }
  }

  lemma UserLockKeptBySystem(s: State, step: Step, w: SpaceId)
    requires Consistent(s) && w in s.spaces && s.spaces[w].lock.UserHeld? && step != UserUnlock(w) && !IsExecStep(step)
    ensures SystemNext(s, step).spaces[w].lock.UserHeld?
  {
  }

  lemma UserLockKeptByStep(now: int, v: View, step: Step)
    requires IsExecStep(step) && v.space.lock.UserHeld?
    ensures ExecStep(now, v, step).space.lock.UserHeld?
  {
  }

  lemma {:induction false} UserLockOutlastsRuns(s: State, steps: seq<Step>, w: SpaceId)
    requires Consistent(s) && w in s.spaces && s.spaces[w].lock.UserHeld? && UserUnlock(w) !in steps
    ensures Execute(s, steps).spaces[w].lock.UserHeld?
    decreases |steps|
  {
    if steps != [] {
      UserLockIsKept(s, steps[0], w);
      UserLockOutlastsRuns(Next(s, steps[0]), steps[1..], w);
    }
  }

  // ---- Ended runs stay ended ----------------------------------------------------------------

  lemma EndKeptByExec(now: int, v: View, step: Step, swept: bool)
    requires ViewOk(now, v, swept) && IsExecStep(step) && IsAbsorbing(v.row.status)
    ensures ExecStep(now, v, step).row.status == v.row.status
  {
    if step.Publish? && PublishStep(now, v, step.to) != v && v.row.status != step.to {
      FinalHasOneExit(v.row.status, step.to);
    }
  }

  lemma EndedRunAllows(row: Run, change: Change)
    requires IsAbsorbing(row.status) && ChangeAllowed(row, change)
    ensures change.ErrorUnguarded? || (change.ForceCancel? && row.status.Canceled?)
  {
  }

  /** What one step makes of the status of an ended run. */
  function AfterEndStep(status: Status, step: Step, r: RunId): Status {
    if step == ChangeRun(r, ErrorUnguarded) then Errored
    else if step == ChangeRun(r, ForceCancel) && status.Canceled? then ForceCanceled
    else status
  }

  lemma EndKeptByChange(s: State, q: RunId, change: Change, r: RunId)
    requires Consistent(s) && r in s.runs && IsAbsorbing(s.runs[r].status)
    ensures SystemNext(s, ChangeRun(q, change)).runs[r].status ==
      AfterEndStep(s.runs[r].status, ChangeRun(q, change), r)
  {
    StatusAfterChange(s, q, change, r);
    if q == r && ChangeAllowed(s.runs[r], change) { EndedRunAllows(s.runs[r], change); }
  }

  lemma EndKeptByDispatch(s: State, step: Step, r: RunId)
    requires Consistent(s) && r in s.runs && IsAbsorbing(s.runs[r].status) && !IsExecStep(step) && !step.ChangeRun?
    ensures SystemNext(s, step).runs[r].status == s.runs[r].status
  {
    match step
    case Claim(q, to, e) => StatusAfterClaim(s, q, to, e, r);
    case LaunchApply(q, launch, e) => StatusAfterLaunch(s, q, launch, e, r);
    case _ => StatusAfterOthers(s, step, r);
  }

  lemma {:induction false} EndKeptBySystem(s: State, step: Step, r: RunId)
    requires Consistent(s) && r in s.runs && IsAbsorbing(s.runs[r].status) && !IsExecStep(step)
    ensures SystemNext(s, step).runs[r].status == AfterEndStep(s.runs[r].status, step, r)
  {
    if step.ChangeRun? {
      EndKeptByChange(s, step.run, step.change, r);
    } else {
      EndKeptByDispatch(s, step, r);
    }
  }

  lemma EndKeptByOwn(s: State, step: Step)
    requires Inv(s) && IsExecStep(step) && step.exec in s.execs && IsAbsorbing(ViewOf(s, step.exec).row.status)
    ensures ExecStep(s.now, ViewOf(s, step.exec), step).row.status == ViewOf(s, step.exec).row.status
  {
    InvOfView(s, step.exec);
    EndKeptByExec(s.now, ViewOf(s, step.exec), step, s.execs[step.exec].run in s.sweeps);
  }

  lemma {:induction false} EndKeptByExecs(s: State, step: Step, r: RunId)
    requires Inv(s) && r in s.runs && IsAbsorbing(s.runs[r].status) && IsExecStep(step)
    ensures ExecNext(s, step).runs[r].status == s.runs[r].status
  {
    if step.exec in s.execs {
      RowAfterExec(s, step, r);
      if s.execs[step.exec].run == r { EndKeptByOwn(s, step); }
    }
  }

  lemma ExecutorsAreNoOperators(status: Status, step: Step, r: RunId)
    requires IsExecStep(step)
    ensures AfterEndStep(status, step, r) == status
  {
  }

  /** What becomes of the status of an ended run over many steps. */
  function AfterEnd(status: Status, steps: seq<Step>, r: RunId): Status {
    if ChangeRun(r, ErrorUnguarded) in steps then Errored
    else if status.Canceled? && ChangeRun(r, ForceCancel) in steps then ForceCanceled else status
  }

  /** Every writer reads the status in one step and writes in a later one. The status of an
      ended run changes exactly by the operator's forced cancel of a canceled run, and by the
      errored write of a failed configuration download, which looks at no status at all. */
  lemma {:induction false} EndIsKept(s: State, step: Step, r: RunId)
    requires Inv(s) && r in s.runs && IsAbsorbing(s.runs[r].status)
    ensures Next(s, step).runs[r].status == AfterEndStep(s.runs[r].status, step, r)
  {
    if IsExecStep(step) {
      EndKeptByExecs(s, step, r);
      ExecutorsAreNoOperators(s.runs[r].status, step, r);
    } else {
      EndKeptBySystem(s, step, r);
    }
  }

  lemma EndStaysEnd(status: Status, step: Step, r: RunId)
    requires IsAbsorbing(status)
    ensures IsAbsorbing(AfterEndStep(status, step, r))
  {
  }

  lemma AfterEndSplits(status: Status, steps: seq<Step>, r: RunId)
    requires steps != []
    ensures AfterEnd(status, steps, r) == AfterEnd(AfterEndStep(status, steps[0], r), steps[1..], r)
  {
    assert steps == [steps[0]] + steps[1..];
  }

  lemma {:induction false} EndOutlastsSteps(s: State, steps: seq<Step>, r: RunId)
    requires Inv(s) && r in s.runs && IsAbsorbing(s.runs[r].status)
    ensures Execute(s, steps).runs[r].status == AfterEnd(s.runs[r].status, steps, r)
    decreases |steps|
  {
    if steps != [] {
      EndIsKept(s, steps[0], r);
      EndStaysEnd(s.runs[r].status, steps[0], r);
      NextKeepsInv(s, steps[0]);
      EndOutlastsSteps(Next(s, steps[0]), steps[1..], r);
      AfterEndSplits(s.runs[r].status, steps, r);
    }
  }

  /** A run that is canceled, force-canceled, applied, errored or discarded at any point of a
      run of the system has that status ever after, exactly up to the forced cancel and the
      unguarded errored write. */
  lemma {:induction false} EndedRunsStayEnded(s: State, before: seq<Step>, after: seq<Step>, r: RunId)
    requires Initial(s) && r in s.runs && IsAbsorbing(Execute(s, before).runs[r].status)
    ensures Execute(s, before + after).runs[r].status == AfterEnd(Execute(s, before).runs[r].status, after, r)
  {
    ReachableInv(s, before);
    EndOutlastsSteps(Execute(s, before), after, r);
    ExecuteAppends(s, before, after);
  }

  // ---- Every write against the status table ---------------------------------------------------

  /** The moves outside the status table: reverts of a claim and requeues by recovery, deferrals
      and reverts of an apply, the claim for an agent pool, and what operators and the error
      fences do to runs that are over. */
  predicate OffTable(from: Status, to: Status) {
    || (to.Pending? && (from.Fetching? || from.FetchingCompleted? || from.Queuing?))
    || (to.Confirmed? && !IsFinal(from))
    || (to.PlanQueued? && from.Pending?)
    || (to.ForceCanceled? && from.Canceled?)
    || (to.Discarded? && from.Unreachable?)
    || (to.Errored? && (from.Unreachable? || from.PlannedAndFinished?))
  }

  predicate Follows(from: Status, to: Status) {
    to == from || CanTransition(from, to) || OffTable(from, to)
  }

  /** The ends that the unguarded errored write overwrites. */
  predicate EndedOtherwise(status: Status) {
    IsAbsorbing(status) && !status.Errored?
  }

  lemma LiveStatusCanError(from: Status)
    requires !IsFinal(from)
    ensures CanTransition(from, Errored) && CanTransition(from, Canceled) && CanTransition(from, ForceCanceled)
  {
  }

  lemma ExecFollowsTable(now: int, v: View, step: Step, swept: bool)
    requires ViewOk(now, v, swept) && IsExecStep(step)
    ensures Follows(v.row.status, ExecStep(now, v, step).row.status)
  {
    if !IsFinal(v.row.status) { LiveStatusCanError(v.row.status); }
  }

  lemma ChangeFollowsTable(row: Run, change: Change)
    requires ChangeAllowed(row, change)
    ensures Follows(row.status, ChangeTarget(change)) <==> !(change.ErrorUnguarded? && EndedOtherwise(row.status))
  {
    if !IsFinal(row.status) { LiveStatusCanError(row.status); }
  }

  lemma ClaimFollowsTable(s: State, q: RunId, to: Status, e: ExecId, r: RunId)
    requires Consistent(s) && r in s.runs
    ensures Follows(s.runs[r].status, SystemNext(s, Claim(q, to, e)).runs[r].status)
  {
  }

  lemma LaunchFollowsTable(s: State, q: RunId, launch: Launch, e: ExecId, r: RunId)
    requires Consistent(s) && r in s.runs
    ensures Follows(s.runs[r].status, SystemNext(s, LaunchApply(q, launch, e)).runs[r].status)
  {
    StatusAfterLaunch(s, q, launch, e, r);
    if q == r && LaunchAllowed(s.runs[r], launch) { LaunchIsOnTable(s.runs[r], launch); }
  }

  lemma LaunchIsOnTable(row: Run, launch: Launch)
    requires LaunchAllowed(row, launch)
    ensures CanTransition(row.status, LaunchTarget(launch))
  {
  }

  lemma ChangesFollowTable(s: State, q: RunId, change: Change, r: RunId)
    requires Consistent(s) && r in s.runs
    ensures Follows(s.runs[r].status, SystemNext(s, ChangeRun(q, change)).runs[r].status) <==>
            !(q == r && change.ErrorUnguarded? && EndedOtherwise(s.runs[r].status))
  {
    StatusAfterChange(s, q, change, r);
    if q == r && ChangeAllowed(s.runs[r], change) { ChangeFollowsTable(s.runs[r], change); }
  }

  lemma SystemFollowsTable(s: State, step: Step, r: RunId)
    requires Consistent(s) && r in s.runs && !IsExecStep(step)
    ensures Follows(s.runs[r].status, SystemNext(s, step).runs[r].status) <==>
            !(step == ChangeRun(r, ErrorUnguarded) && EndedOtherwise(s.runs[r].status))
  {
    match step
    case Claim(q, to, e) => ClaimFollowsTable(s, q, to, e, r);
    case LaunchApply(q, launch, e) => LaunchFollowsTable(s, q, launch, e, r);
    case ChangeRun(q, change) => ChangesFollowTable(s, q, change, r);
    case _ => StatusAfterOthers(s, step, r);
  }

  lemma ExecutorsFollowTable(s: State, step: Step, r: RunId)
    requires Inv(s) && r in s.runs && IsExecStep(step)
    ensures Follows(s.runs[r].status, ExecNext(s, step).runs[r].status)
  {
    if step.exec in s.execs {
      RowAfterExec(s, step, r);
      if s.execs[step.exec].run == r {
        InvOfView(s, step.exec);
        ExecFollowsTable(s.now, ViewOf(s, step.exec), step, r in s.sweeps);
      }
    }
  }

  /** In every reachable state, each status write of any writer is an edge of the status table or
      one of the moves named above, except exactly the unguarded errored write on a run that
      ended otherwise. */
  lemma {:induction false} StatusesFollowTable(s: State, step: Step, r: RunId)
    requires Inv(s) && r in s.runs
    ensures Follows(s.runs[r].status, Next(s, step).runs[r].status) <==>
            !(step == ChangeRun(r, ErrorUnguarded) && EndedOtherwise(s.runs[r].status))
  {
    if IsExecStep(step) {
      ExecutorsFollowTable(s, step, r);
    } else {
      SystemFollowsTable(s, step, r);
    }
  }
}
