/** The workspace queue: at most one ordinary run of a workspace is in a blocking status,
    except through one door, which is named exactly and shown to be reachable. */
module RunQueue {
  import opened RunStatus
  import opened RunProtocol
  import opened RunSafety
  import opened RunTheorems

  /** An executor acting on a row that went back to pending: it enters its plan, or defers its
      apply to confirmed, without passing the queue's claim guard. */
  predicate ActsOnPending(now: int, v: View, step: Step) {
    && v.row.status.Pending? && Live(now, v)
    && ((step.Publish? && step.to.Fetching? && v.exec.stage.PlanEntry?)
        || (step.Defer? && v.exec.stage.Deferring? && v.exec.loaded.Pending?))
  }

  ghost predicate JumpsQueue(s: State, step: Step)
    requires Consistent(s)
  {
    && IsExecStep(step) && step.exec in s.execs
    && var v := ViewOf(s, step.exec);
      && ActsOnPending(s.now, v, step) && Ordinary(v.row)
      && exists q :: q in s.runs && Occupies(s.runs[q], v.row.space)
  }

  /** Which executor steps bring a waiting run into a blocking status. */
  lemma EntersByExec(now: int, v: View, step: Step, swept: bool)
    requires ViewOk(now, v, swept) && IsExecStep(step) && Ordinary(v.row)
    ensures var status2 := ExecStep(now, v, step).row.status;
      !IsBlocking(v.row.status) && IsBlocking(status2) <==> ActsOnPending(now, v, step)
  {
  }

  /** After an executor's step, who occupies the queue. */
  lemma OccupiesAfterExec(s: State, step: Step, q: RunId)
    requires Inv(s) && IsExecStep(step) && step.exec in s.execs && q in s.runs
    ensures var row2 := ExecNext(s, step).runs[q];
      Occupies(row2, row2.space) && !Occupies(s.runs[q], s.runs[q].space) <==>
      && q == s.execs[step.exec].run && Ordinary(s.runs[q]) && ActsOnPending(s.now, ViewOf(s, step.exec), step)
  {
    RowAfterExec(s, step, q);
    if q == s.execs[step.exec].run && Ordinary(s.runs[q]) {
      InvOfView(s, step.exec);
      EntersByExec(s.now, ViewOf(s, step.exec), step, q in s.sweeps);
    }
  }

  lemma JumpMakesTwo(s: State, step: Step)
    requires Inv(s) && JumpsQueue(s, step)
    ensures !OneOccupant(ExecNext(s, step))
  {
    var q :| q in s.runs && Occupies(s.runs[q], ViewOf(s, step.exec).row.space);
    var t, r := ExecNext(s, step), s.execs[step.exec].run;
    OccupiesAfterExec(s, step, r);
    RowAfterExec(s, step, q);
    assert Occupies(t.runs[q], t.runs[q].space) && Occupies(t.runs[r], t.runs[r].space);
  }

  lemma NoJumpKeepsOne(s: State, step: Step)
    requires Inv(s) && OneOccupant(s) && IsExecStep(step) && step.exec in s.execs && !JumpsQueue(s, step)
    ensures OneOccupant(ExecNext(s, step))
  {
    var t := ExecNext(s, step);
    forall q, r | q in t.runs && r in t.runs && t.runs[q].space == t.runs[r].space
                  && Occupies(t.runs[q], t.runs[q].space) && Occupies(t.runs[r], t.runs[r].space)
      ensures q == r
    {
      OccupiesAfterExec(s, step, q);
      OccupiesAfterExec(s, step, r);
    }
  }

  /** No operator brings a waiting ordinary run into a blocking status... */
  lemma EntersByOperator(row: Run, change: Change)
    requires Ordinary(row) && (row.status.PlannedAndSaved? ==> row.savePlan) && ChangeAllowed(row, change)
    ensures IsBlocking(ChangeTarget(change)) ==> IsBlocking(row.status)
  {
  }

  /** ...nor does a poller or reconciler, except a claim, whose guard wants an empty queue. */
  lemma EntersBySystem(s: State, step: Step, r: RunId)
    requires Inv(s) && r in s.runs && !IsExecStep(step) && Ordinary(s.runs[r])
    ensures IsBlocking(SystemNext(s, step).runs[r].status) && !IsBlocking(s.runs[r].status) ==>
              step.Claim? && step.run == r && ClaimAllowed(s, r)
  {
    assert RunInv(s, r);
    match step
    case Claim(q, to, e) => StatusAfterClaim(s, q, to, e, r);
    case LaunchApply(q, launch, e) => StatusAfterLaunch(s, q, launch, e, r);
    case ChangeRun(q, change) =>
      StatusAfterChange(s, q, change, r);
      if q == r && ChangeAllowed(s.runs[r], change) { EntersByOperator(s.runs[r], change); }
    case _ => StatusAfterOthers(s, step, r);
  }

  lemma OthersUntouched(s: State, step: Step, q: RunId)
    requires Consistent(s) && q in s.runs && step.Claim? && step.run != q
    ensures SystemNext(s, step).runs[q] == s.runs[q]
  {
  }

  lemma {:induction false} OccupantsAfterSystem(s: State, step: Step)
    requires Inv(s) && OneOccupant(s) && !IsExecStep(step)
    ensures OneOccupant(SystemNext(s, step))
  {
    var t := SystemNext(s, step);
    forall q, r | q in t.runs && r in t.runs && t.runs[q].space == t.runs[r].space
                  && Occupies(t.runs[q], t.runs[q].space) && Occupies(t.runs[r], t.runs[r].space)
      ensures q == r
    {
      EntersBySystem(s, step, q);
      EntersBySystem(s, step, r);
      if step.Claim? && step.run != q { OthersUntouched(s, step, q); }
      if step.Claim? && step.run != r { OthersUntouched(s, step, r); }
    }
  }

  /** A step of a reachable state gives some workspace a second occupant exactly when an
      executor acts on a pending row while another run occupies the queue. */
  lemma {:induction false} SecondOccupantExactly(s: State, step: Step)
    requires Inv(s) && OneOccupant(s)
    ensures OneOccupant(Next(s, step)) <==> !JumpsQueue(s, step)
  {
    if IsExecStep(step) {
      if JumpsQueue(s, step) {
        JumpMakesTwo(s, step);
      } else if step.exec in s.execs {
        NoJumpKeepsOne(s, step);
      }
    } else {
      OccupantsAfterSystem(s, step);
    }
  }

  ghost predicate AlwaysOneOccupant(s: State, steps: seq<Step>)
    requires Consistent(s)
    decreases |steps|
  {
    OneOccupant(s) && (steps != [] ==> AlwaysOneOccupant(Next(s, steps[0]), steps[1..]))
  }

  ghost predicate NeverJumpsQueue(s: State, steps: seq<Step>)
    requires Consistent(s)
    decreases |steps|
  {
    steps != [] ==> !JumpsQueue(s, steps[0]) && NeverJumpsQueue(Next(s, steps[0]), steps[1..])
  }

  lemma {:induction false} OccupantsOverSteps(s: State, steps: seq<Step>)
    requires Inv(s) && OneOccupant(s)
    ensures AlwaysOneOccupant(s, steps) <==> NeverJumpsQueue(s, steps)
    decreases |steps|
  {
    if steps != [] {
      SecondOccupantExactly(s, steps[0]);
      NextKeepsInv(s, steps[0]);
      if !JumpsQueue(s, steps[0]) {
        OccupantsOverSteps(Next(s, steps[0]), steps[1..]);
      } else {
        assert !AlwaysOneOccupant(Next(s, steps[0]), steps[1..]);
      }
    }
  }

  /** Over every run of the system, across claims, drain reverts, contention reverts and
      requeues: one occupant at every moment exactly if no step jumps the queue. */
  lemma {:induction false} OneOccupantExactly(s: State, steps: seq<Step>)
    requires Initial(s)
    ensures AlwaysOneOccupant(s, steps) <==> NeverJumpsQueue(s, steps)
  {
    InitialInv(s);
    OccupantsOverSteps(s, steps);
  }
}
