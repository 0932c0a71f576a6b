/** The workspace lock during an apply, exactly: a live executor inside the locked section
    finds its run named by the lock until a reconciler acts on an outdated decision, and a run
    of the system in which that happens. */
module RunLocks {
  import opened RunStatus
  import opened RunProtocol
  import opened RunSafety
  import opened RunTheorems
  import opened RunTraces
  import opened RunReplay

  predicate Inside(now: int, v: View) {
    Live(now, v) && InLockedSection(v.exec)
  }

  predicate NamesRun(v: View) {
    v.space.lock == RunHeld(v.exec.run)
  }

  ghost predicate Named(s: State, e: ExecId)
    requires Consistent(s) && e in s.execs
  {
    Inside(s.now, ViewOf(s, e)) ==> NamesRun(ViewOf(s, e))
  }

  /** Whoever is inside the locked section with a live lease has the lock. */
  ghost predicate LocksNameRuns(s: State)
    requires Consistent(s)
  {
    forall e | e in s.execs :: Named(s, e)
  }

  /** A reconciler acts on its decision about the run of an execution that is inside. */
  predicate SweepsAway(s: State, step: Step, e: ExecId)
    requires Consistent(s) && e in s.execs
  {
    step == SweepWrite(s.execs[e].run) && s.execs[e].run in s.sweeps && Inside(s.now, ViewOf(s, e))
  }

  // ---- One step ---------------------------------------------------------------------------------------

  lemma OwnStepKeepsLock(now: int, v: View, step: Step)
    requires IsExecStep(step) && (Inside(now, v) ==> NamesRun(v))
    ensures var v2 := ExecStep(now, v, step); Inside(now, v2) ==> NamesRun(v2)
  {
  }

  lemma LockChangesByOwner(now: int, v: View, step: Step)
    requires IsExecStep(step)
    ensures var lock2 := ExecStep(now, v, step).space.lock;
      lock2 == v.space.lock || v.space.lock.Unlocked? || (NamesRun(v) && LiveOnSpace(now, v))
  {
  }

  /** Nobody becomes live by another execution's step. */
  lemma OtherStepRevivesNobody(s: State, step: Step, e: ExecId)
    requires Inv(s) && IsExecStep(step) && step.exec in s.execs && e in s.execs && e != step.exec
    requires IsLive(ExecNext(s, step), e)
    ensures IsLive(s, e)
  {
    RowAfterExec(s, step, s.execs[e].run);
    if s.execs[e].run == s.execs[step.exec].run {
      InvOfView(s, step.exec);
      ExecStepOk(s.now, ViewOf(s, step.exec), step, s.execs[e].run in s.sweeps);
      assert ExecInv(s, e);
    }
  }

  /** Two executions never both hold the workspace's lease. */
  lemma OwnerIsTheLiveOne(s: State, e: ExecId, f: ExecId)
    requires Inv(s) && e in s.execs && f in s.execs && IsLive(s, e) && LiveOnSpace(s.now, ViewOf(s, f))
    requires s.execs[e].run == s.execs[f].run
    ensures e == f
  {
    assert RunInv(s, s.execs[e].run) && Distinct(s, e, f);
  }

  lemma OtherStepKeepsLock(s: State, step: Step, e: ExecId)
    requires Inv(s) && IsExecStep(step) && step.exec in s.execs && e in s.execs && e != step.exec && Named(s, e)
    ensures Named(ExecNext(s, step), e)
  {
    var f, w := step.exec, s.runs[s.execs[e].run].space;
    if IsLive(ExecNext(s, step), e) {
      OtherStepRevivesNobody(s, step, e);
      SpaceAfterExec(s, step, w);
      LockChangesByOwner(s.now, ViewOf(s, f), step);
      if s.execs[e].run == s.execs[f].run && LiveOnSpace(s.now, ViewOf(s, f)) { OwnerIsTheLiveOne(s, e, f); }
    }
  }

  lemma OwnStepKeepsNamed(s: State, step: Step)
    requires Consistent(s) && IsExecStep(step) && step.exec in s.execs && Named(s, step.exec)
    ensures Named(ExecNext(s, step), step.exec)
  {
    OwnStepKeepsLock(s.now, ViewOf(s, step.exec), step);
  }

  lemma ExecStepKeepsNamed(s: State, step: Step, e: ExecId)
    requires Inv(s) && IsExecStep(step) && e in s.execs && Named(s, e)
    ensures Named(ExecNext(s, step), e)
  {
    if step.exec in s.execs {
      if e == step.exec { OwnStepKeepsNamed(s, step); } else { OtherStepKeepsLock(s, step, e); }
    }
  }

  lemma SystemStepKeepsNamed(s: State, step: Step, e: ExecId)
    requires Inv(s) && !IsExecStep(step) && e in s.execs && Named(s, e)
    ensures Named(SystemNext(s, step), e) <==> !SweepsAway(s, step, e)
  {
    if step.SweepWrite? {
      SweepWriteUnnames(s, step.run, e);
    } else {
      OthersKeepNamed(s, step, e);
    }
  }

  lemma SweepWriteUnnames(s: State, r: RunId, e: ExecId)
    requires Consistent(s) && e in s.execs && Named(s, e)
    ensures Named(SystemNext(s, SweepWrite(r)), e) <==> !SweepsAway(s, SweepWrite(r), e)
  {
  }

  lemma OthersKeepNamed(s: State, step: Step, e: ExecId)
    requires Consistent(s) && !IsExecStep(step) && !step.SweepWrite? && e in s.execs && Named(s, e)
    ensures Named(SystemNext(s, step), e)
  {
    if step.UserLock? || step.UserUnlock? || step.SweepRead? {
      LockingKeepsNamed(s, step, e);
    } else if step.ClearExpired? || step.Tick? {
      LeasesKeepNamed(s, step, e);
    } else {
      RowsKeepNamed(s, step, e);
    }
  }

  lemma LockingKeepsNamed(s: State, step: Step, e: ExecId)
    requires Consistent(s) && (step.UserLock? || step.UserUnlock? || step.SweepRead?) && e in s.execs && Named(s, e)
    ensures Named(SystemNext(s, step), e)
  {
  }

  lemma LeasesKeepNamed(s: State, step: Step, e: ExecId)
    requires Consistent(s) && (step.ClearExpired? || step.Tick?) && e in s.execs && Named(s, e)
    ensures Named(SystemNext(s, step), e)
  {
  }

  lemma RowsKeepNamed(s: State, step: Step, e: ExecId)
    requires Consistent(s) && e in s.execs && Named(s, e)
    requires step.Claim? || step.ChangeRun? || step.LaunchApply? || step.StartRecovery?
    ensures Named(SystemNext(s, step), e)
  {
  }

  /** From a state of the invariant: an execution that is inside, live, and has the lock loses
      it while still live and inside exactly by the reconciler's late write; and that execution
      is doomed, so nothing is applied without the lock. */
  lemma {:induction false} LockIsLostExactly(s: State, step: Step, e: ExecId)
    requires Inv(s) && e in s.execs && Named(s, e)
    ensures Named(Next(s, step), e) <==> !SweepsAway(s, step, e)
    ensures SweepsAway(s, step, e) ==> Doomed(s.execs[e])
  {
    if IsExecStep(step) {
      ExecStepKeepsNamed(s, step, e);
    } else {
      SystemStepKeepsNamed(s, step, e);
      assert ExecInv(s, e);
    }
  }

  // ---- Whole runs -----------------------------------------------------------------------------------------

  lemma NewcomersAreOutside(s: State, step: Step, e: ExecId)
    requires Consistent(s) && e in Next(s, step).execs && e !in s.execs
    ensures Named(Next(s, step), e)
  {
  }

  ghost predicate TakesLockAway(s: State, step: Step)
    requires Consistent(s)
  {
    exists e :: e in s.execs && SweepsAway(s, step, e)
  }

  lemma {:induction false} LocksAfterStep(s: State, step: Step)
    requires Inv(s) && LocksNameRuns(s)
    ensures LocksNameRuns(Next(s, step)) <==> !TakesLockAway(s, step)
  {
    var t := Next(s, step);
    forall e | e in t.execs && e !in s.execs ensures Named(t, e) { NewcomersAreOutside(s, step, e); }
    forall e | e in s.execs ensures Named(t, e) <==> !SweepsAway(s, step, e) { LockIsLostExactly(s, step, e); }
  }

  ghost predicate AlwaysNamed(s: State, steps: seq<Step>)
    requires Consistent(s)
    decreases |steps|
  {
    LocksNameRuns(s) && (steps != [] ==> AlwaysNamed(Next(s, steps[0]), steps[1..]))
  }

  ghost predicate NeverTakesLockAway(s: State, steps: seq<Step>)
    requires Consistent(s)
    decreases |steps|
  {
    steps != [] ==> !TakesLockAway(s, steps[0]) && NeverTakesLockAway(Next(s, steps[0]), steps[1..])
  }

  lemma {:induction false} LocksOverSteps(s: State, steps: seq<Step>)
    requires Inv(s) && LocksNameRuns(s)
    ensures AlwaysNamed(s, steps) <==> NeverTakesLockAway(s, steps)
    decreases |steps|
  {
    if steps != [] {
      LocksAfterStep(s, steps[0]);
      NextKeepsInv(s, steps[0]);
      if !TakesLockAway(s, steps[0]) {
        LocksOverSteps(Next(s, steps[0]), steps[1..]);
      } else {
        assert !AlwaysNamed(Next(s, steps[0]), steps[1..]);
      }
    }
  }

  /** Over every run of the system: at every moment whoever is inside the locked section with a
      live lease has the lock, exactly if no reconciler acts on a decision about the run of an
      execution that has meanwhile got inside. */
  lemma {:induction false} LockNamesRunExactly(s: State, steps: seq<Step>)
    requires Initial(s)
    ensures AlwaysNamed(s, steps) <==> NeverTakesLockAway(s, steps)
  {
    InitialInv(s);
    LocksOverSteps(s, steps);
  }

  // ---- The late sweep ----------------------------------------------------------------------------------------

  const FAILED := View(ENTERED.row.(status := Errored), ENTERED.space, Exec(0, ApplyExec, Settled, ApplyQueued, 2))
  const LEFT_BEHIND := View(ENTERED.row.(status := Errored, leased := false), Space(RunHeld(0), Nobody, 5),
                            Exec(0, ApplyExec, Gone, ApplyQueued, 2))
  const LATE_ENTRY := View(LEFT_BEHIND.row, Space(Unlocked, Nobody, 5), BLOCKED.exec)
  const INSIDE := View(LEFT_BEHIND.row.(leased := true, token := 3), Space(RunHeld(0), OwnedBy(0, 3), 5),
                       Exec(0, ApplyExec, Locked, Errored, 3))

  function Swept(row: Run, space: Space, execs: map<ExecId, Exec>): State {
    Solo(row, space, execs).(sweeps := {0})
  }

  /** An apply fails before its process and leaves its lock behind, as releasing it fails too. */
  lemma Fails() returns (chain: seq<Step>)
    ensures StepsOf(chain, 1) && ViewAfter(0, ENTERED, chain, 1) == FAILED
  {
    chain := [Publish(1, Errored)];
  }

  lemma GivesLeaseBack() returns (chain: seq<Step>)
    ensures StepsOf(chain, 1) && ViewAfter(0, FAILED, chain, 1) == LEFT_BEHIND
  {
    chain := [Move(1, Done), ReleaseLease(1)];
  }

  lemma SecondLeavesLock() returns (chain: seq<Step>)
    ensures StepsOf(chain, 1) && ViewAfter(0, LAUNCHED, chain, 1) == LEFT_BEHIND
  {
    var a := Enters();
    var b := Fails();
    var c := GivesLeaseBack();
    ViewAfterJoins(0, LAUNCHED, a, b, 1);
    ViewAfterJoins(0, LAUNCHED, a + b, c, 1);
    chain := a + b + c;
  }

  lemma LockIsLeftBehind() returns (steps: seq<Step>, execs: map<ExecId, Exec>)
    ensures ForRunZero(execs) && 2 in execs && execs[2] == BLOCKED.exec
    ensures Execute(START, steps) == Solo(LEFT_BEHIND.row, LEFT_BEHIND.space, execs)
  {
    steps, execs := RunIsDispatchedTwice();
    var chain := SecondLeavesLock();
    steps, execs := SoloStretch(START, steps, LAUNCHED, execs, 1, chain, LEFT_BEHIND);
  }

  lemma SoloSweepRead(row: Run, space: Space, execs: map<ExecId, Exec>)
    requires ForRunZero(execs) && IsTerminal(row.status) && !row.leased
    ensures Consistent(Solo(row, space, execs))
    ensures Next(Solo(row, space, execs), SweepRead(0, 0)) == Swept(row, space, execs)
  {
    assert {} + {0} == {0};
  }

  lemma SweptRelease(row: Run, space: Space, execs: map<ExecId, Exec>)
    requires ForRunZero(execs) && space.lock == RunHeld(0)
    ensures Consistent(Swept(row, space, execs))
    ensures Next(Swept(row, space, execs), SweepWrite(0)) == Swept(row, space.(lock := Unlocked), execs)
  {
    Overwrite(0, row, row);
    Overwrite(row.space, space, space.(lock := Unlocked));
  }

  lemma StillInside(v: View, execs: map<ExecId, Exec>, e: ExecId)
    requires ForRunZero(execs) && e in execs && execs[e] == v.exec && v.exec.run == 0 && Inside(0, v) && !NamesRun(v)
    ensures Consistent(Swept(v.row, v.space, execs)) && !Named(Swept(v.row, v.space, execs), e)
  {
  }

  /** Two reconcilers read the lock and the errored run; one of them releases the lock. */
  lemma LockIsSwept() returns (steps: seq<Step>, execs: map<ExecId, Exec>)
    ensures ForRunZero(execs) && 2 in execs && execs[2] == BLOCKED.exec
    ensures Execute(START, steps) == Swept(LATE_ENTRY.row, LATE_ENTRY.space, execs)
  {
    steps, execs := LockIsLeftBehind();
    SoloSweepRead(LEFT_BEHIND.row, LEFT_BEHIND.space, execs);
    SweptRelease(LEFT_BEHIND.row, LEFT_BEHIND.space, execs);
    steps := Extend(START, steps, SweepRead(0, 0));
    steps := Extend(START, steps, SweepWrite(0));
  }

  lemma LateApplyEnters() returns (chain: seq<Step>)
    ensures StepsOf(chain, 2) && ViewAfter(0, LATE_ENTRY, chain, 2) == INSIDE
  {
    chain := [AcquireLease(2, 5), Load(2), AcquireLock(2)];
  }

  lemma LateApplyIsInside() returns (steps: seq<Step>, execs: map<ExecId, Exec>)
    ensures ForRunZero(execs) && 2 in execs && execs[2] == INSIDE.exec
    ensures Execute(START, steps) == Swept(INSIDE.row, INSIDE.space, execs)
  {
    var before, execs0 := LockIsSwept();
    var chain := LateApplyEnters();
    steps, execs := before + chain, execs0[2 := INSIDE.exec];
    SoloInstall(LATE_ENTRY, execs0, 2, INSIDE);
    ExecuteAppends(START, before, chain);
    StretchIsInstalled(Swept(LATE_ENTRY.row, LATE_ENTRY.space, execs0), chain, 2);
  }

  /** The second dispatch of the run takes the lock meanwhile, and the other reconciler, acting
      on what it read before, releases that. */
  lemma {:induction false} LateSweepTakesLock() returns (s: State, steps: seq<Step>, e: ExecId)
    ensures Initial(s) && e in Execute(s, steps).execs && !Named(Execute(s, steps), e)
  {
    var execs;
    s, e := START, 2;
    steps, execs := LateApplyIsInside();
    SweptRelease(INSIDE.row, INSIDE.space, execs);
    StillInside(INSIDE.(space := INSIDE.space.(lock := Unlocked)), execs, 2);
    steps := Extend(START, steps, SweepWrite(0));
  }
}
