/** Exactly when a run's apply process is started again: not only how often at most, but which
    steps every further start needs before it, and in which order. */
module RunStarts {
  import opened RunStatus
  import opened RunProtocol
  import opened RunSafety
  import opened RunTheorems
  import opened RunLocks

  /** A process is started, a live executor loses its outcome, a deferral reopens the run. */
  datatype Mark = Begin | Lose | Reopen

  predicate Begins(now: int, v: View) {
    Live(now, v) && v.exec.stage.Started?
  }

  predicate MarksView(now: int, v: View, step: Step, m: Mark) {
    match m
    case Begin => step.Spawn? && Begins(now, v)
    case Lose => step.StoreFailed? && Loses(now, v)
    case Reopen => step.Defer? && Reopens(now, v)
  }

  predicate Acts(s: State, step: Step, r: RunId)
    requires Consistent(s)
  {
    IsExecStep(step) && step.exec in s.execs && s.execs[step.exec].run == r
  }

  predicate Marked(s: State, step: Step, r: RunId, m: Mark)
    requires Consistent(s)
  {
    Acts(s, step, r) && MarksView(s.now, ViewOf(s, step.exec), step, m)
  }

  /** Steps with the wanted marks occur in the wanted order, whatever comes between them. */
  ghost predicate Passes(s: State, steps: seq<Step>, r: RunId, wanted: seq<Mark>)
    requires Consistent(s)
    decreases |steps|
  {
    wanted == [] ||
    (steps != [] &&
     Passes(Next(s, steps[0]), steps[1..], r, if Marked(s, steps[0], r, wanted[0]) then wanted[1..] else wanted))
  }

  /** A first start and `n` further ones, each behind a lost outcome and a reopening. */
  function Chain(n: nat): (c: seq<Mark>)
    ensures c != [] && c[0].Begin?
  {
    if n == 0 then [Begin] else [Begin, Lose, Reopen] + Chain(n - 1)
  }

  function BeginCount(wanted: seq<Mark>): nat {
    if wanted == [] then 0 else (if wanted[0].Begin? then 1 else 0) + BeginCount(wanted[1..])
  }

  lemma BeginCountOf(m: Mark, rest: seq<Mark>)
    ensures BeginCount([m] + rest) == (if m.Begin? then 1 else 0) + BeginCount(rest)
  {
    assert ([m] + rest)[1..] == rest;
  }

  lemma {:induction false} ChainCounts(n: nat)
    ensures BeginCount(Chain(n)) == n + 1
  {
    if n == 0 {
      BeginCountOf(Begin, []);
    } else {
      ChainCounts(n - 1);
      BeginCountOf(Reopen, Chain(n - 1));
      BeginCountOf(Lose, [Reopen] + Chain(n - 1));
      BeginCountOf(Begin, [Lose] + ([Reopen] + Chain(n - 1)));
      assert Chain(n) == [Begin] + ([Lose] + ([Reopen] + Chain(n - 1)));
    }
  }

  // ---- What single steps do --------------------------------------------------------------------------------

  lemma SpawnsByStep(now: int, v: View, step: Step)
    requires IsExecStep(step)
    ensures ExecStep(now, v, step).row.spawns == v.row.spawns + if MarksView(now, v, step, Begin) then 1 else 0
  {
  }

  lemma SpawnsByOwn(s: State, step: Step, r: RunId)
    requires Consistent(s) && r in s.runs && Acts(s, step, r)
    ensures ExecNext(s, step).runs[r].spawns ==
            s.runs[r].spawns + if MarksView(s.now, ViewOf(s, step.exec), step, Begin) then 1 else 0
  {
    RowAfterExec(s, step, r);
    SpawnsByStep(s.now, ViewOf(s, step.exec), step);
  }

  lemma SpawnsByOther(s: State, step: Step, r: RunId)
    requires Consistent(s) && r in s.runs && IsExecStep(step) && !Acts(s, step, r)
    ensures ExecNext(s, step).runs[r].spawns == s.runs[r].spawns
  {
    if step.exec in s.execs { RowAfterExec(s, step, r); }
  }

  lemma SpawnsByExec(s: State, step: Step, r: RunId)
    requires Consistent(s) && r in s.runs && IsExecStep(step)
    ensures ExecNext(s, step).runs[r].spawns == s.runs[r].spawns + if Marked(s, step, r, Begin) then 1 else 0
  {
    if Acts(s, step, r) { SpawnsByOwn(s, step, r); } else { SpawnsByOther(s, step, r); }
  }

  lemma SpawnsBySystem(s: State, step: Step, r: RunId)
    requires Consistent(s) && r in s.runs && !IsExecStep(step)
    ensures SystemNext(s, step).runs[r].spawns == s.runs[r].spawns
  {
  }

  lemma {:induction false} SpawnsAfter(s: State, step: Step, r: RunId)
    requires Consistent(s) && r in s.runs
    ensures Next(s, step).runs[r].spawns == s.runs[r].spawns + if Marked(s, step, r, Begin) then 1 else 0
  {
    if IsExecStep(step) {
      SpawnsByExec(s, step, r);
    } else {
      SpawnsBySystem(s, step, r);
    }
  }

  lemma LostOnlyByMark(s: State, step: Step, r: RunId)
    requires Consistent(s) && r in s.runs && !Marked(s, step, r, Lose)
    ensures Next(s, step).runs[r].lost == s.runs[r].lost
  {
    OutcomesAreRarelyLost(s, step, r);
  }

  lemma NoBeginWhileAccounted(s: State, step: Step, r: RunId)
    requires Inv(s) && r in s.runs && Accounted(s.runs[r])
    ensures !Marked(s, step, r, Begin)
  {
    if Marked(s, step, r, Begin) { InvOfView(s, step.exec); }
  }

  lemma BeginCloses(s: State, step: Step, r: RunId)
    requires Inv(s) && r in s.runs && Marked(s, step, r, Begin)
    ensures Accounted(Next(s, step).runs[r])
  {
    assert RunInv(s, r);
    if Accounted(s.runs[r]) { NoBeginWhileAccounted(s, step, r); }
    SpawnsAfter(s, step, r);
    LostOnlyByMark(s, step, r);
  }

  lemma StaysAccounted(s: State, step: Step, r: RunId)
    requires Inv(s) && r in s.runs && Accounted(s.runs[r]) && !Marked(s, step, r, Lose)
    ensures Accounted(Next(s, step).runs[r]) && Next(s, step).runs[r].spawns == s.runs[r].spawns
  {
    NoBeginWhileAccounted(s, step, r);
    SpawnsAfter(s, step, r);
    LostOnlyByMark(s, step, r);
  }

  // ---- A run that is applying or over, with nobody on the way to a process ---------------------------------

  predicate AtRest(row: Run) {
    row.status.Applying? || IsFinal(row.status)
  }

  predicate Barred(now: int, v: View) {
    Live(now, v) && BeforeSpawn(v.exec) ==> v.exec.stage.Locked? || v.exec.stage.PreApply?
  }

  ghost predicate Shut(s: State, r: RunId)
    requires Consistent(s) && r in s.runs
  {
    AtRest(s.runs[r]) && forall e | e in s.execs && s.execs[e].run == r :: Barred(s.now, ViewOf(s, e))
  }

  lemma StaysAtRest(now: int, v: View, step: Step)
    requires IsExecStep(step) && AtRest(v.row) && !(step.Defer? && Reopens(now, v))
    ensures AtRest(ExecStep(now, v, step).row)
  {
    if step.Publish? && PublishStep(now, v, step.to) != v && v.row.status != step.to {
      if IsFinal(v.row.status) { FinalHasOneExit(v.row.status, step.to); } else { ApplyingOnlyEnds(step.to); }
    }
  }

  lemma StaysBarred(now: int, v: View, step: Step)
    requires IsExecStep(step) && AtRest(v.row) && Barred(now, v)
    ensures Barred(now, ExecStep(now, v, step))
  {
    if step.Publish? && PublishStep(now, v, step.to) != v && v.row.status != step.to {
      if IsFinal(v.row.status) { FinalHasOneExit(v.row.status, step.to); } else { ApplyingOnlyEnds(step.to); }
    }
  }

  lemma OthersStayBarred(s: State, step: Step, e: ExecId)
    requires Inv(s) && IsExecStep(step) && step.exec in s.execs && e in s.execs && e != step.exec
    requires Barred(s.now, ViewOf(s, e))
    ensures Barred(s.now, ViewOf(ExecNext(s, step), e))
  {
    if IsLive(ExecNext(s, step), e) { OtherStepRevivesNobody(s, step, e); }
  }

  lemma OwnStaysBarred(s: State, step: Step)
    requires Consistent(s) && IsExecStep(step) && step.exec in s.execs
    requires AtRest(ViewOf(s, step.exec).row) && Barred(s.now, ViewOf(s, step.exec))
    ensures Barred(s.now, ViewOf(ExecNext(s, step), step.exec))
  {
    StaysBarred(s.now, ViewOf(s, step.exec), step);
  }

  lemma OwnStaysAtRest(s: State, step: Step, r: RunId)
    requires Consistent(s) && r in s.runs && AtRest(s.runs[r]) && IsExecStep(step) && !Marked(s, step, r, Reopen)
    requires step.exec in s.execs && s.execs[step.exec].run == r
    ensures AtRest(ExecStep(s.now, ViewOf(s, step.exec), step).row)
  {
    StaysAtRest(s.now, ViewOf(s, step.exec), step);
  }

  lemma AtRestAfterExec(s: State, step: Step, r: RunId)
    requires Consistent(s) && r in s.runs && AtRest(s.runs[r]) && IsExecStep(step) && !Marked(s, step, r, Reopen)
    ensures AtRest(ExecNext(s, step).runs[r])
  {
    if step.exec in s.execs {
      RowAfterExec(s, step, r);
      if s.execs[step.exec].run == r { OwnStaysAtRest(s, step, r); }
    }
  }

  lemma ShutByExec(s: State, step: Step, r: RunId)
    requires Inv(s) && r in s.runs && Shut(s, r) && IsExecStep(step) && !Marked(s, step, r, Reopen)
    ensures Shut(ExecNext(s, step), r)
  {
    AtRestAfterExec(s, step, r);
    if step.exec in s.execs {
      var t := ExecNext(s, step);
      forall e | e in t.execs && t.execs[e].run == r ensures Barred(t.now, ViewOf(t, e)) {
        if e == step.exec { OwnStaysBarred(s, step); } else { OthersStayBarred(s, step, e); }
      }
    }
  }

  lemma AtRestAfterChange(row: Run, change: Change)
    requires AtRest(row) && ChangeAllowed(row, change)
    ensures IsFinal(ChangeTarget(change))
  {
  }

  lemma AtRestAfterSystem(s: State, step: Step, r: RunId)
    requires Consistent(s) && r in s.runs && AtRest(s.runs[r]) && !IsExecStep(step)
    ensures AtRest(SystemNext(s, step).runs[r])
  {
    if step.ChangeRun? {
      AtRestAfterChanges(s, step.run, step.change, r);
    } else {
      AtRestAfterDispatch(s, step, r);
    }
  }

  lemma AtRestAfterDispatch(s: State, step: Step, r: RunId)
    requires Consistent(s) && r in s.runs && AtRest(s.runs[r]) && !IsExecStep(step) && !step.ChangeRun?
    ensures SystemNext(s, step).runs[r].status == s.runs[r].status
  {
    match step
    case Claim(q, to, e) => AtRestIsNotClaimed(s, q, to, e, r);
    case LaunchApply(q, launch, e) => AtRestIsNotLaunched(s, q, launch, e, r);
    case _ => StatusAfterOthers(s, step, r);
  }

  lemma AtRestIsNotClaimed(s: State, q: RunId, to: Status, e: ExecId, r: RunId)
    requires Consistent(s) && r in s.runs && AtRest(s.runs[r])
    ensures SystemNext(s, Claim(q, to, e)).runs[r].status == s.runs[r].status
  {
    StatusAfterClaim(s, q, to, e, r);
  }

  lemma AtRestIsNotLaunched(s: State, q: RunId, launch: Launch, e: ExecId, r: RunId)
    requires Consistent(s) && r in s.runs && AtRest(s.runs[r])
    ensures SystemNext(s, LaunchApply(q, launch, e)).runs[r].status == s.runs[r].status
  {
    StatusAfterLaunch(s, q, launch, e, r);
  }

  lemma AtRestAfterChanges(s: State, q: RunId, change: Change, r: RunId)
    requires Consistent(s) && r in s.runs && AtRest(s.runs[r])
    ensures AtRest(SystemNext(s, ChangeRun(q, change)).runs[r])
  {
    StatusAfterChange(s, q, change, r);
    if q == r && ChangeAllowed(s.runs[r], change) { AtRestAfterChange(s.runs[r], change); }
  }

  lemma BarredBySystem(s: State, step: Step, e: ExecId)
    requires Consistent(s) && !IsExecStep(step) && e in SystemNext(s, step).execs
    requires e in s.execs ==> Barred(s.now, ViewOf(s, e))
    ensures Barred(SystemNext(s, step).now, ViewOf(SystemNext(s, step), e))
  {
  }

  lemma ShutBySystem(s: State, step: Step, r: RunId)
    requires Inv(s) && r in s.runs && Shut(s, r) && !IsExecStep(step)
    ensures Shut(SystemNext(s, step), r)
  {
    AtRestAfterSystem(s, step, r);
    var t := SystemNext(s, step);
    forall e | e in t.execs && t.execs[e].run == r ensures Barred(t.now, ViewOf(t, e)) { BarredBySystem(s, step, e); }
  }

  /** Nothing but the reopening deferral opens a run again. */
  lemma {:induction false} StaysShut(s: State, step: Step, r: RunId)
    requires Inv(s) && r in s.runs && Shut(s, r) && !Marked(s, step, r, Reopen)
    ensures Shut(Next(s, step), r)
  {
    if IsExecStep(step) {
      ShutByExec(s, step, r);
    } else {
      ShutBySystem(s, step, r);
    }
  }

  lemma NoBeginWhileShut(s: State, step: Step, r: RunId)
    requires Consistent(s) && r in s.runs && Shut(s, r)
    ensures !Marked(s, step, r, Begin)
  {
    if IsExecStep(step) && step.exec in s.execs && s.execs[step.exec].run == r {
      assert Barred(s.now, ViewOf(s, step.exec));
    }
  }

  /** The executor that loses an outcome was the only live one, and its run was applying. */
  lemma LoseShuts(s: State, step: Step, r: RunId)
    requires Inv(s) && r in s.runs && Marked(s, step, r, Lose)
    ensures Shut(ExecNext(s, step), r)
  {
    InvOfView(s, step.exec);
    RowAfterExec(s, step, r);
    var t := ExecNext(s, step);
    forall f | f in t.execs && t.execs[f].run == r ensures Barred(t.now, ViewOf(t, f)) {
      if f != step.exec {
        LiveExcludes(s, step.exec, f);
        if IsLive(t, f) { OtherStepRevivesNobody(s, step, f); }
      }
    }
  }

  // ---- Whole runs --------------------------------------------------------------------------------------------

  /** Every start that is passed counts. */
  lemma {:induction false} PassesCount(s: State, steps: seq<Step>, r: RunId, wanted: seq<Mark>)
    requires Consistent(s) && r in s.runs && Passes(s, steps, r, wanted)
    ensures Execute(s, steps).runs[r].spawns >= s.runs[r].spawns + BeginCount(wanted)
    decreases |steps|
  {
    if steps != [] {
      var left := if wanted == [] || !Marked(s, steps[0], r, wanted[0]) then wanted else wanted[1..];
      SpawnsAfter(s, steps[0], r);
      PassesCount(Next(s, steps[0]), steps[1..], r, left);
    }
  }

  lemma AfterLose(s: State, step: Step, r: RunId)
    requires Inv(s) && r in s.runs && Marked(s, step, r, Lose)
    ensures Shut(Next(s, step), r) && Next(s, step).runs[r].spawns == s.runs[r].spawns
  {
    SpawnsAfter(s, step, r);
    LoseShuts(s, step, r);
  }

  lemma PassesOn(s: State, steps: seq<Step>, r: RunId, mark: Mark, wanted: seq<Mark>)
    requires Consistent(s) && steps != []
    requires Passes(Next(s, steps[0]), steps[1..], r, if Marked(s, steps[0], r, mark) then wanted else [mark] + wanted)
    ensures Passes(s, steps, r, [mark] + wanted)
  {
    assert ([mark] + wanted)[1..] == wanted;
  }

  function AfterBegin(n: nat): (c: seq<Mark>)
    ensures Chain(n) == [Begin] + c
  {
    if n == 0 then [] else [Lose, Reopen] + Chain(n - 1)
  }

  lemma {:induction false} BeginsPass(s: State, steps: seq<Step>, r: RunId, n: nat)
    requires Inv(s) && r in s.runs && Execute(s, steps).runs[r].spawns > s.runs[r].spawns + n
    ensures Passes(s, steps, r, [Begin] + AfterBegin(n))
    decreases |steps|
  {
    NextKeepsInv(s, steps[0]);
    SpawnsAfter(s, steps[0], r);
    if !Marked(s, steps[0], r, Begin) {
      BeginsPass(Next(s, steps[0]), steps[1..], r, n);
    } else if n > 0 {
      BeginCloses(s, steps[0], r);
      LosesPass(Next(s, steps[0]), steps[1..], r, n - 1);
    }
    PassesOn(s, steps, r, Begin, AfterBegin(n));
  }

  lemma {:induction false} LosesPass(s: State, steps: seq<Step>, r: RunId, n: nat)
    requires Inv(s) && r in s.runs && Accounted(s.runs[r])
    requires Execute(s, steps).runs[r].spawns > s.runs[r].spawns + n
    ensures Passes(s, steps, r, [Lose] + ([Reopen] + Chain(n)))
    ensures Passes(s, steps, r, [Lose, Reopen] + Chain(n))
    decreases |steps|
  {
    assert [Lose, Reopen] + Chain(n) == [Lose] + ([Reopen] + Chain(n));
    NextKeepsInv(s, steps[0]);
    if Marked(s, steps[0], r, Lose) {
      AfterLose(s, steps[0], r);
      ReopensPass(Next(s, steps[0]), steps[1..], r, n);
    } else {
      StaysAccounted(s, steps[0], r);
      LosesPass(Next(s, steps[0]), steps[1..], r, n);
    }
    PassesOn(s, steps, r, Lose, [Reopen] + Chain(n));
  }

  lemma {:induction false} ReopensPass(s: State, steps: seq<Step>, r: RunId, n: nat)
    requires Inv(s) && r in s.runs && Shut(s, r)
    requires Execute(s, steps).runs[r].spawns > s.runs[r].spawns + n
    ensures Passes(s, steps, r, [Reopen] + Chain(n))
    decreases |steps|
  {
    NextKeepsInv(s, steps[0]);
    NoBeginWhileShut(s, steps[0], r);
    SpawnsAfter(s, steps[0], r);
    if Marked(s, steps[0], r, Reopen) {
      BeginsPass(Next(s, steps[0]), steps[1..], r, n);
    } else {
      StaysShut(s, steps[0], r);
      ReopensPass(Next(s, steps[0]), steps[1..], r, n);
    }
    PassesOn(s, steps, r, Reopen, Chain(n));
  }

  /** Over every run of the system: a run's apply process is started more than `n` times exactly
      if its steps contain, in this order, a start and `n` times a lost outcome, a reopening
      deferral and another start. */
  lemma {:induction false} ProcessesStartedExactly(s: State, steps: seq<Step>, r: RunId, n: nat)
    requires Initial(s) && r in s.runs
    ensures Execute(s, steps).runs[r].spawns > n <==> Passes(s, steps, r, Chain(n))
  {
    InitialInv(s);
    if Execute(s, steps).runs[r].spawns > n { BeginsPass(s, steps, r, n); }
    if Passes(s, steps, r, Chain(n)) {
      PassesCount(s, steps, r, Chain(n));
      ChainCounts(n);
    }
  }
}
