/** What an execution lease is good for: it is granted exactly when the workspace is free, a
    renewal makes it last, and until it expires nobody but its holder can end it. */
module RunLeases {
  import opened RunStatus
  import opened RunProtocol
  import opened RunSafety
  import opened RunTheorems

  /** Both rows name the execution's lease generation and expire at `until`. */
  predicate Holds(v: View, until: int) {
    && HasToken(v.exec)
    && v.row.leased && v.row.token == v.exec.token && v.row.expires == until
    && v.space.owner == OwnedBy(v.exec.run, v.exec.token) && v.space.expires == until
  }

  /** The execution may act, on the run's row and on the workspace's. */
  predicate Acting(s: State, e: ExecId)
    requires Consistent(s) && e in s.execs
  {
    IsLive(s, e) && LiveOnSpace(s.now, ViewOf(s, e))
  }

  // ---- One step ---------------------------------------------------------------------------------------

  /** Somebody's lease on the workspace has not expired. */
  predicate Taken(now: int, space: Space) {
    !space.owner.Nobody? && now < space.expires
  }

  /** A dispatched execution is granted the lease exactly if the workspace's row shows none that
      is good; that the run's own row shows none either goes without saying. */
  lemma {:induction false} LeaseIsGrantedExactly(s: State, e: ExecId, until: int)
    requires Inv(s) && e in s.execs && s.execs[e].stage.Dispatched? && s.now < until
    ensures var t := Next(s, AcquireLease(e, until));
      && (Acting(t, e) <==> !Taken(s.now, SpaceOf(s, s.execs[e].run)))
      && (Acting(t, e) ==> Holds(ViewOf(t, e), until) && t.execs[e].stage.Leased?)
  {
    assert RunInv(s, s.execs[e].run);
  }

  lemma RenewalHolds(s: State, e: ExecId, until: int)
    requires Consistent(s) && e in s.execs && Acting(s, e)
    ensures Holds(ViewOf(Next(s, RenewLease(e, until)), e), until)
  {
  }

  lemma TickKeepsView(s: State, e: ExecId, clock: int)
    requires Consistent(s) && e in s.execs && s.now <= clock
    ensures Next(s, Tick(clock)).now == clock && ViewOf(Next(s, Tick(clock)), e) == ViewOf(s, e)
  {
  }

  /** A renewal makes the lease last: at every clock reading before the new expiry the execution
      is live, on the run's row and on the workspace's. */
  lemma {:induction false} RenewalLasts(s: State, e: ExecId, until: int, clock: int)
    requires Consistent(s) && e in s.execs && Acting(s, e) && s.now <= clock < until
    ensures Acting(Next(Next(s, RenewLease(e, until)), Tick(clock)), e)
  {
    var t := Next(s, RenewLease(e, until));
    RenewalHolds(s, e, until);
    TickKeepsView(t, e, clock);
  }

  /** The holder gives the lease up: its work is done, or the watchdog had given up before. */
  predicate GivesUp(s: State, step: Step, e: ExecId)
    requires e in s.execs
  {
    step == DropLease(e) || (step == ReleaseLease(e) && s.execs[e].stage.Done?)
  }

  /** Until when the lease is good after the step. */
  function Expiry(step: Step, e: ExecId, until: int): int {
    if step.RenewLease? && step.exec == e then step.until else until
  }

  lemma OwnStepKeepsLease(now: int, v: View, step: Step, e: ExecId, until: int)
    requires IsExecStep(step) && step.exec == e && Holds(v, until) && now < until
    requires !step.DropLease? && !(step.ReleaseLease? && v.exec.stage.Done?)
    ensures Holds(ExecStep(now, v, step), Expiry(step, e, until))
  {
  }

  lemma OwnStepGivesUp(now: int, v: View, step: Step, until: int)
    requires Holds(v, until) && (step.DropLease? || (step.ReleaseLease? && v.exec.stage.Done?))
    ensures !ExecStep(now, v, step).row.leased
  {
  }

  /** Another execution of the run, of an other lease generation, leaves the lease alone. */
  lemma SiblingKeepsLease(now: int, v: View, w: View, step: Step, until: int)
    requires IsExecStep(step) && Holds(v, until) && now < until && w.row == v.row && w.space == v.space
    requires w.exec.run == v.exec.run && (HasToken(w.exec) ==> w.exec.token != v.exec.token)
    ensures var w2 := ExecStep(now, w, step); Holds(View(w2.row, w2.space, v.exec), until)
  {
  }

  /** So does an execution of another run of the workspace. */
  lemma NeighbourKeepsLease(now: int, v: View, w: View, step: Step, until: int)
    requires IsExecStep(step) && Holds(v, until) && now < until && w.space == v.space && w.exec.run != v.exec.run
    ensures Holds(v.(space := ExecStep(now, w, step).space), until)
  {
  }

  lemma OthersKeepLease(s: State, step: Step, e: ExecId, until: int)
    requires Inv(s) && e in s.execs && Holds(ViewOf(s, e), until) && s.now < until
    requires IsExecStep(step) && step.exec in s.execs && step.exec != e
    ensures Holds(ViewOf(ExecNext(s, step), e), until)
  {
    var f := step.exec;
    RowAfterExec(s, step, s.execs[e].run);
    SpaceAfterExec(s, step, s.runs[s.execs[e].run].space);
    if s.execs[f].run == s.execs[e].run {
      assert Distinct(s, e, f);
      SiblingKeepsLease(s.now, ViewOf(s, e), ViewOf(s, f), step, until);
    } else if s.runs[s.execs[f].run].space == s.runs[s.execs[e].run].space {
      NeighbourKeepsLease(s.now, ViewOf(s, e), ViewOf(s, f), step, until);
    }
  }

  lemma RowsKeepLease(s: State, step: Step, e: ExecId, until: int)
    requires Consistent(s) && e in s.execs && Holds(ViewOf(s, e), until)
    requires step.Claim? || step.ChangeRun? || step.LaunchApply? || step.StartRecovery?
    ensures Holds(ViewOf(SystemNext(s, step), e), until)
  {
  }

  lemma LocksKeepLease(s: State, step: Step, e: ExecId, until: int)
    requires Consistent(s) && e in s.execs && Holds(ViewOf(s, e), until) && s.now < until
    requires !IsExecStep(step) && !step.Claim? && !step.ChangeRun? && !step.LaunchApply? && !step.StartRecovery?
    ensures Holds(ViewOf(SystemNext(s, step), e), until)
  {
  }

  lemma SystemKeepsLease(s: State, step: Step, e: ExecId, until: int)
    requires Consistent(s) && !IsExecStep(step) && e in s.execs && Holds(ViewOf(s, e), until) && s.now < until
    ensures Holds(ViewOf(SystemNext(s, step), e), until)
  {
    if step.Claim? || step.ChangeRun? || step.LaunchApply? || step.StartRecovery? {
      RowsKeepLease(s, step, e, until);
    } else {
      LocksKeepLease(s, step, e, until);
    }
  }

  lemma HolderKeepsLease(s: State, step: Step, e: ExecId, until: int)
    requires Consistent(s) && IsExecStep(step) && step.exec == e
    requires e in s.execs && Holds(ViewOf(s, e), until) && s.now < until
    ensures if GivesUp(s, step, e) then !IsLive(ExecNext(s, step), e)
            else Holds(ViewOf(ExecNext(s, step), e), Expiry(step, e, until))
  {
    if GivesUp(s, step, e) {
      OwnStepGivesUp(s.now, ViewOf(s, e), step, until);
    } else {
      OwnStepKeepsLease(s.now, ViewOf(s, e), step, e, until);
    }
  }

  lemma ExecutorsKeepLease(s: State, step: Step, e: ExecId, until: int)
    requires Inv(s) && IsExecStep(step) && e in s.execs && Holds(ViewOf(s, e), until) && s.now < until
    ensures if GivesUp(s, step, e) then !IsLive(ExecNext(s, step), e)
            else Holds(ViewOf(ExecNext(s, step), e), Expiry(step, e, until))
  {
    if step.exec == e {
      HolderKeepsLease(s, step, e, until);
    } else {
      assert !GivesUp(s, step, e) && Expiry(step, e, until) == until;
      if step.exec in s.execs { OthersKeepLease(s, step, e, until); } else { assert ExecNext(s, step) == s; }
    }
  }

  lemma {:induction false} StepKeepsLease(s: State, step: Step, e: ExecId, until: int)
    requires Inv(s) && e in s.execs && Holds(ViewOf(s, e), until) && s.now < until
    ensures if GivesUp(s, step, e) then !IsLive(Next(s, step), e)
            else Holds(ViewOf(Next(s, step), e), Expiry(step, e, until))
  {
    if IsExecStep(step) {
      ExecutorsKeepLease(s, step, e, until);
    } else {
      SystemKeepsLease(s, step, e, until);
    }
  }

  // ---- Whole runs -----------------------------------------------------------------------------------------

  /** The execution may act at every moment. */
  ghost predicate AlwaysActing(s: State, steps: seq<Step>, e: ExecId)
    requires Consistent(s) && e in s.execs
    decreases |steps|
  {
    Acting(s, e) && (steps != [] ==> AlwaysActing(Next(s, steps[0]), steps[1..], e))
  }

  /** Each renewal comes before the last expiry, and the holder does not give the lease up. */
  ghost predicate RenewedInTime(s: State, steps: seq<Step>, e: ExecId, until: int)
    requires Consistent(s) && e in s.execs
    decreases |steps|
  {
    && s.now < until
    && (steps != [] ==>
          && !GivesUp(s, steps[0], e)
          && RenewedInTime(Next(s, steps[0]), steps[1..], e, Expiry(steps[0], e, until)))
  }

  /** Over every run of the system from a state of the invariant, whatever everybody else does:
      an execution that holds the lease may act at every moment exactly if the clock stays below
      the expiry that its last renewal set and it does not give the lease up itself. */
  lemma {:induction false} LeaseLastsExactly(s: State, steps: seq<Step>, e: ExecId, until: int)
    requires Inv(s) && e in s.execs && Holds(ViewOf(s, e), until)
    ensures AlwaysActing(s, steps, e) <==> RenewedInTime(s, steps, e, until)
    decreases |steps|
  {
    if steps != [] && s.now < until {
      StepKeepsLease(s, steps[0], e, until);
      if !GivesUp(s, steps[0], e) {
        NextKeepsInv(s, steps[0]);
        LeaseLastsExactly(Next(s, steps[0]), steps[1..], e, Expiry(steps[0], e, until));
      }
    }
  }
}
