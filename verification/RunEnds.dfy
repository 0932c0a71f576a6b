/** Runs of the system in which a run that ended is marked errored afterwards: the download of
    its configuration fails, and that write asks no status. */
module RunEnds {
  import opened RunStatus
  import opened RunProtocol
  import opened RunTraces
  import opened RunReplay

  const SETTLED := View(STARTED.row.(status := Applied, spawns := 1), STARTED.space, STARTED.exec.(stage := Settled))

  lemma Applies() returns (chain: seq<Step>)
    ensures StepsOf(chain, 1) && ViewAfter(0, STARTED, chain, 1) == SETTLED
  {
    chain := [Spawn(1), Publish(1, Applied)];
  }

  lemma SecondApplies() returns (chain: seq<Step>)
    ensures StepsOf(chain, 1) && ViewAfter(0, LAUNCHED, chain, 1) == SETTLED
  {
    var a := Enters();
    var b := Publishes();
    var c := Applies();
    ViewAfterJoins(0, LAUNCHED, a, b, 1);
    ViewAfterJoins(0, LAUNCHED, a + b, c, 1);
    chain := a + b + c;
  }

  lemma RunIsApplied() returns (steps: seq<Step>, execs: map<ExecId, Exec>)
    ensures ForRunZero(execs) && Execute(START, steps) == Solo(SETTLED.row, SETTLED.space, execs)
  {
    steps, execs := RunIsDispatchedTwice();
    var chain := SecondApplies();
    steps, execs := SoloStretch(START, steps, LAUNCHED, execs, 1, chain, SETTLED);
  }

  /** Whatever a run has reached, a failed configuration download marks it errored. */
  lemma DownloadFails(steps: seq<Step>, row: Run, space: Space, execs: map<ExecId, Exec>) returns (after: seq<Step>)
    requires Consistent(START) && ForRunZero(execs) && Execute(START, steps) == Solo(row, space, execs)
    ensures 0 in START.runs && Execute(START, steps).runs[0].status == row.status
    ensures Execute(START, steps + after).runs[0].status.Errored?
  {
    after := [ChangeRun(0, ErrorUnguarded)];
    ExecuteAppends(START, steps, after);
    SoloChange(row, space, execs, ErrorUnguarded);
    assert after[1..] == [];
  }

  lemma StartIsInitial()
    ensures Initial(START) && 0 in START.runs
  {
  }

  /** A run that was applied is marked errored afterwards. */
  lemma {:induction false} AppliedRunCanError() returns (before: seq<Step>, after: seq<Step>)
    ensures Initial(START) && 0 in START.runs
    ensures Execute(START, before).runs[0].status.Applied?
    ensures Execute(START, before + after).runs[0].status.Errored?
  {
    var execs;
    StartIsInitial();
    before, execs := RunIsApplied();
    after := DownloadFails(before, SETTLED.row, SETTLED.space, execs);
  }

  const WITHDRAWN := CLAIMED.row.(status := Canceled)

  lemma RunIsCanceled() returns (steps: seq<Step>)
    ensures Consistent(START) && Execute(START, steps) == Solo(WITHDRAWN, CLAIMED.space, map[])
  {
    SoloChange(CLAIMED.row.(status := Pending), CLAIMED.space, map[], Cancel);
    steps := Extend(START, [], ChangeRun(0, Cancel));
  }

  /** So is one that was canceled. */
  lemma {:induction false} CanceledRunCanError() returns (before: seq<Step>, after: seq<Step>)
    ensures Initial(START) && 0 in START.runs
    ensures Execute(START, before).runs[0].status.Canceled?
    ensures Execute(START, before + after).runs[0].status.Errored?
  {
    StartIsInitial();
    before := RunIsCanceled();
    after := DownloadFails(before, WITHDRAWN, CLAIMED.space, map[]);
  }
}
