/** Safety of the run protocol over whole runs: one apply process per run, the workspace
    lock during an apply, exclusive leases, and statuses that end a run. */
module RunSafety {
  import opened RunStatus
  import opened RunProtocol

  // ---- The invariant, on the rows it talks about --------------------------------------------

  /** Every lost outcome has been followed by another apply process: no further one may start. */
  predicate Accounted(row: Run) {
    row.spawns == row.lost + 1
  }

  /** Every reopening has been followed by another apply process, likewise. */
  predicate Exhausted(row: Run) {
    row.spawns == row.reopened + 1
  }

  predicate RunOk(now: int, r: RunId, row: Run, sp: Space, swept: bool) {
    && (row.leased && now < row.expires ==> sp.owner == OwnedBy(r, row.token) && sp.expires == row.expires)
    && row.lost <= row.spawns <= row.lost + 1
    && row.spawns <= row.reopened + 1
    && (Exhausted(row) ==> row.status.Applying? || IsFinal(row.status))
    && (Accounted(row) ==> IsFinal(row.status) || sp.lock == RunHeld(r))
    && row.plans <= row.requeued + 1
    && (IsBeforePlanning(row.status) ==> row.plans <= row.requeued)
    && (row.status.PlannedAndSaved? ==> row.savePlan)
    && (swept ==> IsTerminal(row.status))
  }

  predicate OwnerOk(r: RunId, row: Run, sp: Space) {
    sp.owner.OwnedBy? && sp.owner.run == r ==> row.leased && row.token == sp.owner.token && row.expires == sp.expires
  }

  predicate AfterLoad(x: Exec) {
    x.stage.Loaded? || x.stage.Deferring? || InLockedSection(x)
  }

  /** An apply that loaded an ended run: it may still take the lock, but gets no further. */
  predicate Doomed(x: Exec) {
    IsTerminal(x.loaded) && (x.stage.Loaded? || x.stage.Deferring? || x.stage.Locked? || x.stage.Settled?)
  }

  predicate ExecOk(now: int, v: View, swept: bool) {
    && (HasToken(v.exec) ==> v.exec.token <= v.row.token)
    && (InPlanPhase(v.exec) ==> !IsFinal(v.exec.loaded))
    && (AfterLoad(v.exec) && IsTerminal(v.exec.loaded) ==> Doomed(v.exec) && IsTerminal(v.row.status))
    && (Live(now, v) ==>
          && (InLockedSection(v.exec) ==> v.space.lock == RunHeld(v.exec.run) || Doomed(v.exec))
          && (v.exec.stage.PlanPrep? ==> IsBeforePlanning(v.row.status) || IsFinal(v.row.status))
          && (v.exec.stage.PlanReady? ==>
                v.row.plans <= v.row.requeued && (v.row.status.Planning? || IsFinal(v.row.status)))
          && (swept && AfterLoad(v.exec) ==> IsTerminal(v.exec.loaded))
          && (Accounted(v.row) && BeforeSpawn(v.exec) ==>
                IsFinal(v.row.status) && (v.exec.stage.Locked? || v.exec.stage.PreApply?))
          && (Accounted(v.row) && v.exec.stage.Settled? ==> IsFinal(v.row.status))
          && (Exhausted(v.row) && BeforeSpawn(v.exec) ==> v.exec.stage.Locked? || v.exec.stage.PreApply?)
          && (v.exec.stage.Started? ==> v.row.status.Applying? || IsFinal(v.row.status))
          && (v.exec.stage.Spawned? ==> Accounted(v.row) && (v.row.status.Applying? || IsFinal(v.row.status)))
          && (v.exec.stage.Cleared? ==> IsTerminal(v.row.status)))
  }

  predicate ViewOk(now: int, v: View, swept: bool) {
    && RunOk(now, v.exec.run, v.row, v.space, swept)
    && OwnerOk(v.exec.run, v.row, v.space)
    && ExecOk(now, v, swept)
  }

  // ---- The invariant, on states ----------------------------------------------------------------

  ghost predicate RunInv(s: State, r: RunId)
    requires Consistent(s) && r in s.runs
  {
    RunOk(s.now, r, s.runs[r], SpaceOf(s, r), r in s.sweeps) && OwnerOk(r, s.runs[r], SpaceOf(s, r))
  }

  ghost predicate SpaceInv(s: State, w: SpaceId)
    requires w in s.spaces
  {
    var owner := s.spaces[w].owner;
    owner.OwnedBy? ==> owner.run in s.runs && s.runs[owner.run].space == w
  }

  ghost predicate ExecInv(s: State, e: ExecId)
    requires Consistent(s) && e in s.execs
  {
    ExecOk(s.now, ViewOf(s, e), s.execs[e].run in s.sweeps)
  }

  /** Two executions of one run never share a lease generation. */
  ghost predicate Distinct(s: State, e: ExecId, f: ExecId)
    requires Consistent(s) && e in s.execs && f in s.execs
  {
    e != f && HasToken(s.execs[e]) && HasToken(s.execs[f]) && s.execs[e].run == s.execs[f].run ==>
      s.execs[e].token != s.execs[f].token
  }

  ghost predicate Inv(s: State) {
    && Consistent(s)
    && (forall r {:trigger RunInv(s, r)} | r in s.runs :: RunInv(s, r))
    && (forall w {:trigger SpaceInv(s, w)} | w in s.spaces :: SpaceInv(s, w))
    && (forall e {:trigger ExecInv(s, e)} | e in s.execs :: ExecInv(s, e))
    && (forall e, f {:trigger Distinct(s, e, f)} | e in s.execs && f in s.execs :: Distinct(s, e, f))
  }

  // ---- What a step owes to the rows it does not touch ---------------------------------------------

  /** `live` says that the acting execution holds the run's live lease. */
  predicate Frame(now: int, r: RunId, row: Run, sp: Space, row2: Run, sp2: Space, swept: bool, live: bool) {
    // statuses that end a run keep ending it, lease generations only grow
    && (IsFinal(row.status) ==> IsFinal(row2.status))
    && (IsTerminal(row.status) ==> IsTerminal(row2.status))
    && row.token <= row2.token
    // a lease that is live afterwards was live before, unless it is a new generation
    && (row2.leased && now < row2.expires ==>
          row2.token > row.token || (row2.token == row.token && row.leased && now < row.expires))
    // spawning and unlocking need the live lease, or a sweep of an ended run
    && ((row2.plans == row.plans && row2.spawns == row.spawns && row2.lost == row.lost
         && row2.reopened == row.reopened) || live)
    && row.requeued <= row2.requeued
    && (IsBeforePlanning(row.status) ==> IsBeforePlanning(row2.status) || IsFinal(row2.status) || live)
    && (row.status.Applying? ==> row2.status.Applying? || IsFinal(row2.status) || live)
    && (row.status.Planning? ==> row2.status.Planning? || IsFinal(row2.status) || live)
    && (sp2.lock != sp.lock ==> sp.lock.Unlocked? || (sp.lock == RunHeld(r) && (swept || live)))
    // the workspace's lease copy is only taken from its own run or after it expired
    && ((sp2.owner == sp.owner && sp2.expires == sp.expires) || sp.owner.Nobody? || sp.owner.run == r ||
        sp.expires <= now)
    && ((sp2.owner == sp.owner && sp2.expires == sp.expires) || sp2.owner.Nobody? || sp2.owner.run == r)
  }

  /** What an execution's step keeps about its own rows and owes to the others. */
  predicate StepOk(now: int, v: View, v2: View, swept: bool) {
    && ViewOk(now, v2, swept)
    && Frame(now, v.exec.run, v.row, v.space, v2.row, v2.space, swept, Live(now, v))
    && (HasToken(v2.exec) ==> v2.exec.token > v.row.token || (HasToken(v.exec) && v2.exec.token == v.exec.token))
  }

  lemma LeaseStepOk(now: int, v: View, step: Step, swept: bool)
    requires ViewOk(now, v, swept) && (step.AcquireLease? || step.RenewLease? || step.ReleaseLease? || step.DropLease?)
    ensures StepOk(now, v, ExecStep(now, v, step), swept)
  {
  }

  lemma EntryStepOk(now: int, v: View, step: Step, swept: bool)
    requires ViewOk(now, v, swept) && (step.LeaseBusy? || step.Load? || step.AutoApply?)
    ensures StepOk(now, v, ExecStep(now, v, step), swept)
  {
  }

  lemma FinalHasOneExit(from: Status, to: Status)
    requires IsFinal(from) && CanTransition(from, to)
    ensures from.Canceled? && to.Pending?
  {
  }

  lemma FetchingHasOneEntry(from: Status)
    requires CanTransition(from, Fetching)
    ensures from.Pending?
  {
  }

  lemma ApplyingOnlyEnds(to: Status)
    requires CanTransition(Applying, to)
    ensures IsFinal(to)
  {
  }

  lemma PublishWriteOk(now: int, v: View, to: Status, swept: bool)
    requires ViewOk(now, v, swept) && Live(now, v)
    requires IsFinal(v.row.status) ==> to == v.row.status
    requires to.Fetching? ==> IsBeforePlanning(v.row.status)
    requires v.row.status.Applying? ==> to.Applying? || IsFinal(to)
    requires !PublishStage(v.exec, v.row, to).Gone?
    ensures StepOk(now, v, Write(v, to, PublishStage(v.exec, v.row, to)), swept)
  {
  }

  lemma PublishStepOk(now: int, v: View, to: Status, swept: bool)
    requires ViewOk(now, v, swept)
    ensures StepOk(now, v, PublishStep(now, v, to), swept)
  {
    if PublishStep(now, v, to) != v {
      if v.row.status != to {
        if IsFinal(v.row.status) { FinalHasOneExit(v.row.status, to); }
        if to.Fetching? { FetchingHasOneEntry(v.row.status); }
        if v.row.status.Applying? { ApplyingOnlyEnds(to); }
      }
      PublishWriteOk(now, v, to, swept);
    }
  }

  lemma WriteStepOk(now: int, v: View, step: Step, swept: bool)
    requires ViewOk(now, v, swept) && IsExecStep(step)
    requires step.RejectPlan? || step.Fence? || step.Requeue? || step.Defer?
    ensures StepOk(now, v, ExecStep(now, v, step), swept)
  {
  }

  lemma LockStepOk(now: int, v: View, step: Step, swept: bool)
    requires ViewOk(now, v, swept) && (step.AcquireLock? || step.ReleaseLock? || step.Move?)
    ensures StepOk(now, v, ExecStep(now, v, step), swept)
  {
  }

  lemma ProcessStepOk(now: int, v: View, step: Step, swept: bool)
    requires ViewOk(now, v, swept) && (step.SpawnPlan? || step.Spawn? || step.StoreFailed?)
    ensures StepOk(now, v, ExecStep(now, v, step), swept)
  {
  }

  lemma {:induction false} ExecStepOk(now: int, v: View, step: Step, swept: bool)
    requires ViewOk(now, v, swept) && IsExecStep(step)
    ensures StepOk(now, v, ExecStep(now, v, step), swept)
  {
    if step.Publish? {
      PublishStepOk(now, v, step.to, swept);
    } else if step.RejectPlan? || step.Fence? || step.Requeue? || step.Defer? {
      WriteStepOk(now, v, step, swept);
    } else if step.AcquireLock? || step.ReleaseLock? || step.Move? {
      LockStepOk(now, v, step, swept);
    } else if step.SpawnPlan? || step.Spawn? || step.StoreFailed? {
      ProcessStepOk(now, v, step, swept);
    } else if step.LeaseBusy? || step.Load? || step.AutoApply? {
      EntryStepOk(now, v, step, swept);
    } else {
      LeaseStepOk(now, v, step, swept);
    }
  }

  lemma OtherExecOfRun(now: int, v: View, row2: Run, sp2: Space, swept: bool, live: bool)
    requires ExecOk(now, v, swept) && RunOk(now, v.exec.run, v.row, v.space, swept)
    requires Frame(now, v.exec.run, v.row, v.space, row2, sp2, swept, live)
    requires live ==> !Live(now, v)
    ensures ExecOk(now, View(row2, sp2, v.exec), swept)
  {
  }

  lemma OtherExecOfSpace(now: int, v: View, r: RunId, row: Run, row2: Run, sp2: Space, sweptR: bool, live: bool,
                         swept: bool)
    requires v.exec.run != r && ExecOk(now, v, swept) && Frame(now, r, row, v.space, row2, sp2, sweptR, live)
    ensures ExecOk(now, View(v.row, sp2, v.exec), swept)
  {
  }

  lemma OtherRunOfSpace(now: int, q: RunId, other: Run, r: RunId, row: Run, sp: Space, row2: Run, sp2: Space,
                        swept: bool, live: bool, sweptQ: bool)
    requires q != r && RunOk(now, q, other, sp, sweptQ) && OwnerOk(q, other, sp)
    requires Frame(now, r, row, sp, row2, sp2, swept, live)
    ensures RunOk(now, q, other, sp2, sweptQ)
    ensures (sp2.owner == sp.owner && sp2.expires == sp.expires) || sp2.owner.Nobody? || sp2.owner.run == r
            ==> OwnerOk(q, other, sp2)
  {
  }

  // ---- Whole states ---------------------------------------------------------------------------------

  lemma PutKeepsRuns(s: State, r: RunId, row2: Run, sp2: Space, live: bool, q: RunId)
    requires Inv(s) && r in s.runs && q in s.runs && SameRun(s.runs[r], row2)
    requires Frame(s.now, r, s.runs[r], SpaceOf(s, r), row2, sp2, r in s.sweeps, live)
    requires RunOk(s.now, r, row2, sp2, r in s.sweeps) && OwnerOk(r, row2, sp2)
    ensures RunInv(Put(s, r, row2, sp2), q)
  {
    if q != r {
      assert RunInv(s, q);
      if s.runs[q].space == row2.space {
        OtherRunOfSpace(s.now, q, s.runs[q], r, s.runs[r], SpaceOf(s, r), row2, sp2, r in s.sweeps, live,
                        q in s.sweeps);
        assert SpaceInv(s, row2.space);
      }
    }
  }

  lemma PutKeepsSpaces(s: State, r: RunId, row2: Run, sp2: Space, live: bool, w: SpaceId)
    requires Inv(s) && r in s.runs && w in s.spaces && SameRun(s.runs[r], row2)
    requires Frame(s.now, r, s.runs[r], SpaceOf(s, r), row2, sp2, r in s.sweeps, live)
    ensures SpaceInv(Put(s, r, row2, sp2), w)
  {
    assert SpaceInv(s, w);
  }

  lemma PutKeepsExec(s: State, r: RunId, row2: Run, sp2: Space, live: bool, f: ExecId)
    requires Inv(s) && r in s.runs && f in s.execs && SameRun(s.runs[r], row2)
    requires Frame(s.now, r, s.runs[r], SpaceOf(s, r), row2, sp2, r in s.sweeps, live)
    requires live && s.execs[f].run == r ==> !IsLive(s, f)
    ensures ExecInv(Put(s, r, row2, sp2), f)
  {
    assert ExecInv(s, f);
    if s.execs[f].run == r {
      assert RunInv(s, r);
      OtherExecOfRun(s.now, ViewOf(s, f), row2, sp2, r in s.sweeps, live);
    } else if s.runs[s.execs[f].run].space == row2.space {
      OtherExecOfSpace(s.now, ViewOf(s, f), r, s.runs[r], row2, sp2, r in s.sweeps, live, s.execs[f].run in s.sweeps);
    }
  }

  /** An unfenced rewrite of one run and its workspace. */
  lemma PutKeepsInv(s: State, r: RunId, row2: Run, sp2: Space)
    requires Inv(s) && r in s.runs && SameRun(s.runs[r], row2)
    requires Frame(s.now, r, s.runs[r], SpaceOf(s, r), row2, sp2, r in s.sweeps, false)
    requires RunOk(s.now, r, row2, sp2, r in s.sweeps) && OwnerOk(r, row2, sp2)
    ensures Inv(Put(s, r, row2, sp2))
  {
    var t := Put(s, r, row2, sp2);
    forall q | q in t.runs ensures RunInv(t, q) { PutKeepsRuns(s, r, row2, sp2, false, q); }
    forall w | w in t.spaces ensures SpaceInv(t, w) { PutKeepsSpaces(s, r, row2, sp2, false, w); }
    forall f | f in t.execs ensures ExecInv(t, f) { PutKeepsExec(s, r, row2, sp2, false, f); }
    forall e, f | e in t.execs && f in t.execs ensures Distinct(t, e, f) { assert Distinct(s, e, f); }
  }

  lemma LiveExcludes(s: State, e: ExecId, f: ExecId)
    requires Inv(s) && e in s.execs && f in s.execs && e != f && s.execs[e].run == s.execs[f].run && IsLive(s, e)
    ensures !IsLive(s, f)
  {
    assert Distinct(s, e, f);
  }

  lemma InstallKeepsExecs(s: State, e: ExecId, v2: View, f: ExecId)
    requires Inv(s) && e in s.execs && f in s.execs
    requires SameRun(s.runs[s.execs[e].run], v2.row) && v2.exec.run == s.execs[e].run
    requires StepOk(s.now, ViewOf(s, e), v2, v2.exec.run in s.sweeps)
    ensures ExecInv(Install(s, e, v2), f)
  {
    if f != e {
      if s.execs[f].run == s.execs[e].run && IsLive(s, e) { LiveExcludes(s, e, f); }
      PutKeepsExec(s, v2.exec.run, v2.row, v2.space, IsLive(s, e), f);
      assert ViewOf(Install(s, e, v2), f) == ViewOf(Put(s, v2.exec.run, v2.row, v2.space), f);
    }
  }

  lemma InstallKeepsTokens(s: State, e: ExecId, v2: View, f: ExecId, g: ExecId)
    requires Inv(s) && e in s.execs && f in s.execs && g in s.execs
    requires SameRun(s.runs[s.execs[e].run], v2.row) && v2.exec.run == s.execs[e].run
    requires StepOk(s.now, ViewOf(s, e), v2, v2.exec.run in s.sweeps)
    ensures Distinct(Install(s, e, v2), f, g)
  {
    assert Distinct(s, f, g) && ExecInv(s, f) && ExecInv(s, g);
  }

  lemma InstallKeepsInv(s: State, e: ExecId, v2: View)
    requires Inv(s) && e in s.execs
    requires SameRun(s.runs[s.execs[e].run], v2.row) && v2.exec.run == s.execs[e].run
    requires StepOk(s.now, ViewOf(s, e), v2, v2.exec.run in s.sweeps)
    ensures Inv(Install(s, e, v2))
  {
    var t, r := Install(s, e, v2), v2.exec.run;
    var put := Put(s, r, v2.row, v2.space);
    forall q | q in t.runs ensures RunInv(t, q) {
      PutKeepsRuns(s, r, v2.row, v2.space, IsLive(s, e), q);
      assert RunInv(put, q);
    }
    forall w | w in t.spaces ensures SpaceInv(t, w) {
      PutKeepsSpaces(s, r, v2.row, v2.space, IsLive(s, e), w);
      assert SpaceInv(put, w);
    }
    forall f | f in t.execs ensures ExecInv(t, f) { InstallKeepsExecs(s, e, v2, f); }
    forall f, g | f in t.execs && g in t.execs ensures Distinct(t, f, g) { InstallKeepsTokens(s, e, v2, f, g); }
  }

  lemma DispatchKeepsInv(s: State, e: ExecId, x: Exec)
    requires Inv(s) && e !in s.execs && x.run in s.runs && x.stage.Dispatched?
    ensures Inv(Dispatch(s, e, x))
  {
    var t := Dispatch(s, e, x);
    forall q | q in t.runs ensures RunInv(t, q) { assert RunInv(s, q); }
    forall w | w in t.spaces ensures SpaceInv(t, w) { assert SpaceInv(s, w); }
    forall f | f in t.execs ensures ExecInv(t, f) {
      if f != e { assert ExecInv(s, f) && ViewOf(t, f) == ViewOf(s, f); }
    }
    forall f, g | f in t.execs && g in t.execs ensures Distinct(t, f, g) {
      if f != e && g != e { assert Distinct(s, f, g); }
    }
  }

  /** Statuses that end a run keep ending it, so a status write cannot break the invariant. */
  lemma SetStatusKeepsInv(s: State, r: RunId, to: Status)
    requires Inv(s) && r in s.runs && !to.PlannedAndSaved?
    requires IsFinal(s.runs[r].status) ==> IsFinal(to)
    requires IsTerminal(s.runs[r].status) ==> IsTerminal(to)
    requires IsBeforePlanning(to) ==> IsBeforePlanning(s.runs[r].status)
    requires IsBeforePlanning(s.runs[r].status) ==> IsBeforePlanning(to) || IsFinal(to)
    requires !s.runs[r].status.Planning? && !s.runs[r].status.Applying?
    ensures Inv(SetStatus(s, r, to))
  {
    assert RunInv(s, r);
    PutKeepsInv(s, r, s.runs[r].(status := to), SpaceOf(s, r));
  }

  lemma ChangeKeepsInv(s: State, r: RunId, change: Change)
    requires Inv(s) && r in s.runs && ChangeAllowed(s.runs[r], change)
    ensures Inv(Put(s, r, Changed(s.runs[r], change), SpaceOf(s, r)))
  {
    assert RunInv(s, r);
    PutKeepsInv(s, r, Changed(s.runs[r], change), SpaceOf(s, r));
  }

  lemma {:induction false} RunStepsKeepInv(s: State, step: Step)
    requires Inv(s)
    requires step.Claim? || step.ChangeRun? || step.LaunchApply? || step.StartRecovery?
    ensures Inv(SystemNext(s, step))
  {
    if step.run in s.runs {
      match step
      case Claim(r, to, e) =>
        if ClaimAllowed(s, r) && (to.Fetching? || to.PlanQueued? || to.Unreachable? || to.Errored?) {
          SetStatusKeepsInv(s, r, to);
          if to.Fetching? && e !in s.execs {
            DispatchKeepsInv(SetStatus(s, r, to), e, Exec(r, PlanExec, Dispatched, to, 0));
          }
        }
      case ChangeRun(r, change) =>
        if ChangeAllowed(s.runs[r], change) { ChangeKeepsInv(s, r, change); }
      case LaunchApply(r, launch, e) =>
        if e !in s.execs && LaunchAllowed(s.runs[r], launch) {
          var to := LaunchTarget(launch);
          SetStatusKeepsInv(s, r, to);
          DispatchKeepsInv(SetStatus(s, r, to), e, Exec(r, ApplyExec, Dispatched, to, 0));
        }
      case StartRecovery(r, e) =>
        if e !in s.execs { DispatchKeepsInv(s, e, Exec(r, RecoveryExec, Dispatched, s.runs[r].status, 0)); }
    }
  }

  /** A reconciler acts on what it read earlier: whatever ended stays ended, and an execution
      that gets a lease later loads an ended run and cannot become more than doomed. */
  lemma SweepReadKeepsInv(s: State, r: RunId, clock: int)
    requires Inv(s) && r in s.runs
    ensures Inv(SweepReadStep(s, r, clock))
  {
    var t := SweepReadStep(s, r, clock);
    if t != s {
      forall q | q in t.runs ensures RunInv(t, q) { assert RunInv(s, q); }
      forall w | w in t.spaces ensures SpaceInv(t, w) { assert SpaceInv(s, w); }
      forall f | f in t.execs ensures ExecInv(t, f) { assert ExecInv(s, f) && ViewOf(t, f) == ViewOf(s, f); }
      forall f, g | f in t.execs && g in t.execs ensures Distinct(t, f, g) { assert Distinct(s, f, g); }
    }
  }

  lemma SweepWriteKeepsInv(s: State, r: RunId)
    requires Inv(s) && r in s.runs
    ensures Inv(SweepWriteStep(s, r))
  {
    assert RunInv(s, r);
    if SweepWriteStep(s, r) != s { PutKeepsInv(s, r, s.runs[r], SpaceOf(s, r).(lock := Unlocked)); }
  }

  lemma ClearExpiredKeepsInv(s: State, r: RunId)
    requires Inv(s) && r in s.runs
    ensures Inv(ClearExpiredStep(s, r))
  {
    assert RunInv(s, r);
    var row, space := s.runs[r], SpaceOf(s, r);
    if row.leased && row.expires <= s.now {
      PutKeepsInv(s, r, row.(leased := false),
                  if space.owner == OwnedBy(r, row.token) && space.expires <= s.now then space.(owner := Nobody)
                  else space);
    }
  }

  lemma TickKeepsInv(s: State, now: int)
    requires Inv(s) && s.now <= now
    ensures Inv(s.(now := now))
  {
    var t := s.(now := now);
    forall q | q in t.runs ensures RunInv(t, q) { assert RunInv(s, q); }
    forall w | w in t.spaces ensures SpaceInv(t, w) { assert SpaceInv(s, w); }
    forall f | f in t.execs ensures ExecInv(t, f) { assert ExecInv(s, f) && ViewOf(t, f) == ViewOf(s, f); }
    forall f, g | f in t.execs && g in t.execs ensures Distinct(t, f, g) { assert Distinct(s, f, g); }
  }

  lemma UserLockKeepsInv(s: State, w: SpaceId, from: Lock, to: Lock)
    requires Inv(s) && w in s.spaces && !from.RunHeld? && !to.RunHeld?
    ensures Inv(UserLockStep(s, w, from, to))
  {
    var t := UserLockStep(s, w, from, to);
    forall q | q in t.runs ensures RunInv(t, q) { assert RunInv(s, q); }
    forall v | v in t.spaces ensures SpaceInv(t, v) { assert SpaceInv(s, v); }
    forall f | f in t.execs ensures ExecInv(t, f) { assert ExecInv(s, f); }
    forall f, g | f in t.execs && g in t.execs ensures Distinct(t, f, g) { assert Distinct(s, f, g); }
  }

  lemma InvOfView(s: State, e: ExecId)
    requires Inv(s) && e in s.execs
    ensures ViewOk(s.now, ViewOf(s, e), s.execs[e].run in s.sweeps)
  {
    assert RunInv(s, s.execs[e].run) && ExecInv(s, e);
  }

  lemma {:induction false} ExecKeepsInv(s: State, step: Step)
    requires Inv(s) && IsExecStep(step)
    ensures Inv(ExecNext(s, step))
  {
    if step.exec in s.execs {
      InvOfView(s, step.exec);
      ExecStepOk(s.now, ViewOf(s, step.exec), step, s.execs[step.exec].run in s.sweeps);
      InstallKeepsInv(s, step.exec, ExecStep(s.now, ViewOf(s, step.exec), step));
    }
  }

  lemma {:induction false} SystemStepKeepsInv(s: State, step: Step)
    requires Inv(s) && !IsExecStep(step)
    ensures Inv(SystemNext(s, step))
  {
    match step
    case Tick(now) => if s.now <= now { TickKeepsInv(s, now); }
    case UserLock(w) => if w in s.spaces { UserLockKeepsInv(s, w, Unlocked, UserHeld); }
    case UserUnlock(w) => if w in s.spaces { UserLockKeepsInv(s, w, UserHeld, Unlocked); }
    case SweepRead(r, clock) => if r in s.runs { SweepReadKeepsInv(s, r, clock); }
    case SweepWrite(r) => if r in s.runs { SweepWriteKeepsInv(s, r); }
    case ClearExpired(r) => if r in s.runs { ClearExpiredKeepsInv(s, r); }
    case Claim(_, _, _) => RunStepsKeepInv(s, step);
    case ChangeRun(_, _) => RunStepsKeepInv(s, step);
    case LaunchApply(_, _, _) => RunStepsKeepInv(s, step);
    case StartRecovery(_, _) => RunStepsKeepInv(s, step);
    case _ =>
  }

  lemma {:induction false} NextKeepsInv(s: State, step: Step)
    requires Inv(s)
    ensures Inv(Next(s, step))
  {
    if !IsExecStep(step) {
      SystemStepKeepsInv(s, step);
    } else {
      ExecKeepsInv(s, step);
    }
  }

  lemma {:induction false} ExecuteKeepsInv(s: State, steps: seq<Step>)
    requires Inv(s)
    ensures Inv(Execute(s, steps))
    decreases |steps|
  {
    if steps != [] {
      NextKeepsInv(s, steps[0]);
      ExecuteKeepsInv(Next(s, steps[0]), steps[1..]);
    }
  }

  lemma InitialInv(s: State)
    requires Initial(s)
    ensures Inv(s)
  {
  }
}
