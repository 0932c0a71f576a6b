/** A run of the system in which a run's apply process is started twice, because a live
    executor could not store the outcome of the first one. */
module RunReplay {
  import opened RunStatus
  import opened RunProtocol
  import opened RunTraces

  // ---- States with one run ------------------------------------------------------------------------

  function Solo(row: Run, space: Space, execs: map<ExecId, Exec>): State {
    State(0, map[0 := row], map[row.space := space], execs, {})
  }

  predicate ForRunZero(execs: map<ExecId, Exec>) {
    forall e | e in execs :: execs[e].run == 0
  }

  lemma Overwrite<K, V>(k: K, a: V, b: V)
    ensures map[k := a][k := b] == map[k := b]
  {
  }

  lemma SoloInstall(v: View, execs: map<ExecId, Exec>, e: ExecId, v2: View)
    requires ForRunZero(execs) && e in execs && execs[e] == v.exec && SameRun(v.row, v2.row) &&
      v2.exec.run == v.exec.run
    ensures Consistent(Solo(v.row, v.space, execs)) && ForRunZero(execs[e := v2.exec])
    ensures Install(Solo(v.row, v.space, execs), e, v2) == Solo(v2.row, v2.space, execs[e := v2.exec])
  {
    Overwrite(0, v.row, v2.row);
    Overwrite(v.row.space, v.space, v2.space);
  }

  lemma SoloStretch(s: State, steps: seq<Step>, v: View, execs: map<ExecId, Exec>, e: ExecId, chain: seq<Step>,
                    v2: View)
    returns (steps2: seq<Step>, execs2: map<ExecId, Exec>)
    requires Consistent(s) && ForRunZero(execs) && e in execs && execs[e] == v.exec && StepsOf(chain, e)
    requires Execute(s, steps) == Solo(v.row, v.space, execs) && v2 == ViewAfter(0, v, chain, e)
    ensures execs2 == execs[e := v2.exec] && ForRunZero(execs2) && Execute(s, steps2) == Solo(v2.row, v2.space, execs2)
  {
    steps2, execs2 := steps + chain, execs[e := v2.exec];
    SoloInstall(v, execs, e, v2);
    ExecuteAppends(s, steps, chain);
    StretchIsInstalled(Solo(v.row, v.space, execs), chain, e);
  }

  lemma SoloLaunchStep(row: Run, space: Space, execs: map<ExecId, Exec>, launch: Launch, e: ExecId)
    requires ForRunZero(execs) && e !in execs && LaunchAllowed(row, launch)
    ensures var to := LaunchTarget(launch);
      && Consistent(Solo(row, space, execs)) && ForRunZero(execs[e := Exec(0, ApplyExec, Dispatched, to, 0)])
      && Next(Solo(row, space, execs), LaunchApply(0, launch, e)) ==
         Solo(row.(status := to), space, execs[e := Exec(0, ApplyExec, Dispatched, to, 0)])
  {
    Overwrite(0, row, row.(status := LaunchTarget(launch)));
    Overwrite(row.space, space, space);
  }

  lemma SoloLaunch(s: State, steps: seq<Step>, row: Run, space: Space, execs: map<ExecId, Exec>, launch: Launch,
                   e: ExecId)
    returns (steps2: seq<Step>, execs2: map<ExecId, Exec>)
    requires Consistent(s) && ForRunZero(execs) && e !in execs && LaunchAllowed(row, launch)
    requires Execute(s, steps) == Solo(row, space, execs)
    ensures execs2 == execs[e := Exec(0, ApplyExec, Dispatched, LaunchTarget(launch), 0)] && ForRunZero(execs2)
    ensures Execute(s, steps2) == Solo(row.(status := LaunchTarget(launch)), space, execs2)
  {
    execs2 := execs[e := Exec(0, ApplyExec, Dispatched, LaunchTarget(launch), 0)];
    SoloLaunchStep(row, space, execs, launch, e);
    steps2 := Extend(s, steps, LaunchApply(0, launch, e));
  }

  lemma SoloChange(row: Run, space: Space, execs: map<ExecId, Exec>, change: Change)
    requires ForRunZero(execs) && ChangeAllowed(row, change)
    ensures Consistent(Solo(row, space, execs))
    ensures Next(Solo(row, space, execs), ChangeRun(0, change)) == Solo(Changed(row, change), space, execs)
  {
    Overwrite(0, row, Changed(row, change));
    Overwrite(row.space, space, space);
  }

  lemma SoloUserLock(s: State, steps: seq<Step>, row: Run, space: Space, execs: map<ExecId, Exec>, locks: bool)
    returns (steps2: seq<Step>)
    requires Consistent(s) && ForRunZero(execs) && Execute(s, steps) == Solo(row, space, execs)
    requires if locks then space.lock.Unlocked? else space.lock.UserHeld?
    ensures Execute(s, steps2) == Solo(row, space.(lock := if locks then UserHeld else Unlocked), execs)
  {
    steps2 := Extend(s, steps, if locks then UserLock(row.space) else UserUnlock(row.space));
    Overwrite(row.space, space, space.(lock := if locks then UserHeld else Unlocked));
  }

  // ---- The four executions ----------------------------------------------------------------------------

  // The first execution plans.

  const CLAIMED := View(Run(0, Fetching, false, false, false, 0, 0, 0, 0, 0, 0, 0), Space(Unlocked, Nobody, 0),
                        Exec(0, PlanExec, Dispatched, Fetching, 0))
  const FETCHED := View(Run(0, FetchingCompleted, false, false, true, 1, 5, 0, 0, 0, 0, 0),
                        Space(Unlocked, OwnedBy(0, 1), 5),
                        Exec(0, PlanExec, PlanPrep, Fetching, 1))
  const TASKS_RUN := View(Run(0, PrePlanCompleted, false, false, true, 1, 5, 0, 0, 0, 0, 0),
                          Space(Unlocked, OwnedBy(0, 1), 5),
                          Exec(0, PlanExec, PlanPrep, Fetching, 1))
  const PREPARED := View(Run(0, PlanQueued, false, false, true, 1, 5, 0, 0, 0, 0, 0), Space(Unlocked, OwnedBy(0, 1), 5),
                         Exec(0, PlanExec, PlanPrep, Fetching, 1))
  const PLANNED := View(Run(0, Planned, false, false, false, 1, 5, 0, 0, 0, 0, 0), Space(Unlocked, Nobody, 5),
                        Exec(0, PlanExec, Gone, Fetching, 1))

  lemma Fetches() returns (chain: seq<Step>)
    ensures StepsOf(chain, 0) && ViewAfter(0, CLAIMED, chain, 0) == FETCHED
  {
    chain := [AcquireLease(0, 5), Load(0), Publish(0, Fetching), Publish(0, FetchingCompleted)];
  }

  lemma RunsTasks() returns (chain: seq<Step>)
    ensures StepsOf(chain, 0) && ViewAfter(0, FETCHED, chain, 0) == TASKS_RUN
  {
    chain := [Publish(0, PrePlanRunning), Publish(0, PrePlanCompleted)];
  }

  lemma Prepares() returns (chain: seq<Step>)
    ensures StepsOf(chain, 0) && ViewAfter(0, TASKS_RUN, chain, 0) == PREPARED
  {
    chain := [Publish(0, Queuing), Publish(0, PlanQueued)];
  }

  lemma Plans() returns (chain: seq<Step>)
    ensures StepsOf(chain, 0) && ViewAfter(0, PREPARED, chain, 0) == PLANNED
  {
    chain := [Publish(0, Planning), Publish(0, Planned), Move(0, Done), ReleaseLease(0)];
  }

  // The second loses the outcome of its apply.

  const LAUNCHED := View(Run(0, ApplyQueued, false, false, false, 1, 5, 0, 0, 0, 0, 0), Space(Unlocked, Nobody, 5),
                         Exec(0, ApplyExec, Dispatched, Confirmed, 0))
  const ENTERED := View(Run(0, ApplyQueued, false, false, true, 2, 5, 0, 0, 0, 0, 0),
                        Space(RunHeld(0), OwnedBy(0, 2), 5),
                        Exec(0, ApplyExec, PreApply, ApplyQueued, 2))
  const STARTED := View(Run(0, Applying, false, false, true, 2, 5, 0, 0, 0, 0, 0), Space(RunHeld(0), OwnedBy(0, 2), 5),
                        Exec(0, ApplyExec, Started, ApplyQueued, 2))
  const LOST := View(Run(0, Applying, false, false, true, 2, 5, 0, 0, 1, 1, 0), Space(RunHeld(0), OwnedBy(0, 2), 5),
                     Exec(0, ApplyExec, Settled, ApplyQueued, 2))
  const LEFT := View(Run(0, Applying, false, false, false, 2, 5, 0, 0, 1, 1, 0), Space(Unlocked, Nobody, 5),
                     Exec(0, ApplyExec, Gone, ApplyQueued, 2))

  lemma Enters() returns (chain: seq<Step>)
    ensures StepsOf(chain, 1) && ViewAfter(0, LAUNCHED, chain, 1) == ENTERED
  {
    chain := [AcquireLease(1, 5), Load(1), AcquireLock(1), Move(1, PreApply)];
  }

  lemma Publishes() returns (chain: seq<Step>)
    ensures StepsOf(chain, 1) && ViewAfter(0, ENTERED, chain, 1) == STARTED
  {
    chain := [Publish(1, ApplyQueued), Publish(1, Applying)];
  }

  lemma Loses() returns (chain: seq<Step>)
    ensures StepsOf(chain, 1) && ViewAfter(0, STARTED, chain, 1) == LOST
  {
    chain := [Spawn(1), StoreFailed(1)];
  }

  lemma Leaves() returns (chain: seq<Step>)
    ensures StepsOf(chain, 1) && ViewAfter(0, LOST, chain, 1) == LEFT
  {
    chain := [ReleaseLock(1), ReleaseLease(1)];
  }

  // The third finds the workspace locked by a user and defers the applying run.

  const BLOCKED := View(Run(0, Applying, false, false, false, 2, 5, 0, 0, 1, 1, 0), Space(UserHeld, Nobody, 5),
                        Exec(0, ApplyExec, Dispatched, ApplyQueued, 0))
  const DEFERRED := View(Run(0, Confirmed, false, false, true, 3, 5, 0, 0, 1, 1, 1), Space(UserHeld, OwnedBy(0, 3), 5),
                         Exec(0, ApplyExec, Done, Applying, 3))
  const RETURNED := View(Run(0, Confirmed, false, false, false, 3, 5, 0, 0, 1, 1, 1), Space(UserHeld, Nobody, 5),
                         Exec(0, ApplyExec, Gone, Applying, 3))

  lemma Defers() returns (chain: seq<Step>)
    ensures StepsOf(chain, 2) && ViewAfter(0, BLOCKED, chain, 2) == DEFERRED
  {
    chain := [AcquireLease(2, 5), Load(2), Move(2, Deferring), Defer(2)];
  }

  lemma Returns() returns (chain: seq<Step>)
    ensures StepsOf(chain, 2) && ViewAfter(0, DEFERRED, chain, 2) == RETURNED
  {
    chain := [ReleaseLease(2)];
  }

  // The fourth applies again.

  const AGAIN := View(Run(0, ApplyQueued, false, false, false, 3, 5, 0, 0, 1, 1, 1), Space(Unlocked, Nobody, 5),
                      Exec(0, ApplyExec, Dispatched, ApplyQueued, 0))
  const REENTERED := View(Run(0, ApplyQueued, false, false, true, 4, 5, 0, 0, 1, 1, 1),
                          Space(RunHeld(0), OwnedBy(0, 4), 5),
                          Exec(0, ApplyExec, PreApply, ApplyQueued, 4))
  const RESTARTED := View(Run(0, Applying, false, false, true, 4, 5, 0, 0, 1, 1, 1),
                          Space(RunHeld(0), OwnedBy(0, 4), 5),
                          Exec(0, ApplyExec, Started, ApplyQueued, 4))
  const REPEATED := View(Run(0, Applying, false, false, true, 4, 5, 0, 0, 2, 1, 1), Space(RunHeld(0), OwnedBy(0, 4), 5),
                         Exec(0, ApplyExec, Spawned, ApplyQueued, 4))

  lemma Reenters() returns (chain: seq<Step>)
    ensures StepsOf(chain, 3) && ViewAfter(0, AGAIN, chain, 3) == REENTERED
  {
    chain := [AcquireLease(3, 5), Load(3), AcquireLock(3), Move(3, PreApply)];
  }

  lemma PublishesAgain() returns (chain: seq<Step>)
    ensures StepsOf(chain, 3) && ViewAfter(0, REENTERED, chain, 3) == RESTARTED
  {
    chain := [Publish(3, ApplyQueued), Publish(3, Applying)];
  }

  lemma Repeats() returns (chain: seq<Step>)
    ensures StepsOf(chain, 3) && ViewAfter(0, RESTARTED, chain, 3) == REPEATED
  {
    chain := [Spawn(3)];
  }

  lemma FirstPlans() returns (chain: seq<Step>)
    ensures StepsOf(chain, 0) && ViewAfter(0, CLAIMED, chain, 0) == PLANNED
  {
    var a := Fetches();
    var b := RunsTasks();
    var c := Prepares();
    var d := Plans();
    ViewAfterJoins(0, CLAIMED, a, b, 0);
    ViewAfterJoins(0, CLAIMED, a + b, c, 0);
    ViewAfterJoins(0, CLAIMED, a + b + c, d, 0);
    chain := a + b + c + d;
  }

  lemma SecondLoses() returns (chain: seq<Step>)
    ensures StepsOf(chain, 1) && ViewAfter(0, LAUNCHED, chain, 1) == LEFT
  {
    var a := Enters();
    var b := Publishes();
    var c := Loses();
    var d := Leaves();
    ViewAfterJoins(0, LAUNCHED, a, b, 1);
    ViewAfterJoins(0, LAUNCHED, a + b, c, 1);
    ViewAfterJoins(0, LAUNCHED, a + b + c, d, 1);
    chain := a + b + c + d;
  }

  lemma ThirdDefers() returns (chain: seq<Step>)
    ensures StepsOf(chain, 2) && ViewAfter(0, BLOCKED, chain, 2) == RETURNED
  {
    var a := Defers();
    var b := Returns();
    ViewAfterJoins(0, BLOCKED, a, b, 2);
    chain := a + b;
  }

  lemma FourthRepeats() returns (chain: seq<Step>)
    ensures StepsOf(chain, 3) && ViewAfter(0, AGAIN, chain, 3) == REPEATED
  {
    var a := Reenters();
    var b := PublishesAgain();
    var c := Repeats();
    ViewAfterJoins(0, AGAIN, a, b, 3);
    ViewAfterJoins(0, AGAIN, a + b, c, 3);
    chain := a + b + c;
  }

  // ---- The run of the system ----------------------------------------------------------------------------

  const START := Solo(CLAIMED.row.(status := Pending), CLAIMED.space, map[])

  lemma RunIsClaimed()
    ensures Consistent(START) && Next(START, Claim(0, Fetching, 0)) ==
      Solo(CLAIMED.row, CLAIMED.space, map[0 := CLAIMED.exec])
  {
    Overwrite(0, CLAIMED.row.(status := Pending), CLAIMED.row);
    Overwrite(0, CLAIMED.space, CLAIMED.space);
  }

  lemma RunIsPlanned() returns (steps: seq<Step>, execs: map<ExecId, Exec>)
    ensures ForRunZero(execs) && 1 !in execs && 2 !in execs && 3 !in execs
    ensures Execute(START, steps) == Solo(PLANNED.row, PLANNED.space, execs)
  {
    RunIsClaimed();
    steps := Extend(START, [], Claim(0, Fetching, 0));
    var chain := FirstPlans();
    steps, execs := SoloStretch(START, steps, CLAIMED, map[0 := CLAIMED.exec], 0, chain, PLANNED);
  }

  const CONFIRMED := PLANNED.row.(status := Confirmed)

  /** Two dispatches of the planned run. */
  lemma RunIsDispatched() returns (steps: seq<Step>, execs: map<ExecId, Exec>)
    ensures ForRunZero(execs) && 1 in execs && 2 !in execs && 3 !in execs && execs[1] == LAUNCHED.exec
    ensures Execute(START, steps) == Solo(CONFIRMED, PLANNED.space, execs)
  {
    steps, execs := RunIsPlanned();
    steps, execs := SoloLaunch(START, steps, PLANNED.row, PLANNED.space, execs, ApplyAction, 1);
  }

  lemma RunIsDispatchedTwice() returns (steps: seq<Step>, execs: map<ExecId, Exec>)
    ensures ForRunZero(execs) && 1 in execs && 2 in execs && 3 !in execs && execs[1] == LAUNCHED.exec &&
      execs[2] == BLOCKED.exec
    ensures Execute(START, steps) == Solo(LAUNCHED.row, LAUNCHED.space, execs)
  {
    steps, execs := RunIsDispatched();
    steps, execs := SoloLaunch(START, steps, CONFIRMED, PLANNED.space, execs, ScheduledClaim, 2);
  }

  lemma OutcomeIsLost() returns (steps: seq<Step>, execs: map<ExecId, Exec>)
    ensures ForRunZero(execs) && 2 in execs && execs[2] == BLOCKED.exec && 3 !in execs
    ensures Execute(START, steps) == Solo(LEFT.row, LEFT.space, execs)
  {
    steps, execs := RunIsDispatchedTwice();
    var chain := SecondLoses();
    steps, execs := SoloStretch(START, steps, LAUNCHED, execs, 1, chain, LEFT);
  }

  /** While a user holds the lock, the second dispatch sends the applying run back to confirmed. */
  lemma ApplyIsDeferred() returns (steps: seq<Step>, execs: map<ExecId, Exec>)
    ensures ForRunZero(execs) && 3 !in execs && Execute(START, steps) == Solo(RETURNED.row, RETURNED.space, execs)
  {
    steps, execs := OutcomeIsLost();
    steps := SoloUserLock(START, steps, LEFT.row, LEFT.space, execs, true);
    var chain := ThirdDefers();
    steps, execs := SoloStretch(START, steps, BLOCKED, execs, 2, chain, RETURNED);
  }

  lemma RunIsDispatchedAgain() returns (steps: seq<Step>, execs: map<ExecId, Exec>)
    ensures ForRunZero(execs) && 3 in execs && execs[3] == AGAIN.exec &&
      Execute(START, steps) == Solo(AGAIN.row, AGAIN.space, execs)
  {
    steps, execs := ApplyIsDeferred();
    steps := SoloUserLock(START, steps, RETURNED.row, RETURNED.space, execs, false);
    steps, execs := SoloLaunch(START, steps, RETURNED.row, AGAIN.space, execs, ScheduledClaim, 3);
  }

  lemma ApplyIsRepeated() returns (steps: seq<Step>)
    ensures Execute(START, steps).runs == map[0 := REPEATED.row]
  {
    var before, execs := RunIsDispatchedAgain();
    var chain := FourthRepeats();
    var execs2;
    steps, execs2 := SoloStretch(START, before, AGAIN, execs, 3, chain, REPEATED);
  }

  /** The bound on apply processes is tight: a lost outcome can be followed by a second one. */
  lemma {:induction false} LostOutcomeCanRepeatApply() returns (s: State, steps: seq<Step>)
    ensures Initial(s) && 0 in s.runs
    ensures Execute(s, steps).runs[0].spawns == 2 && Execute(s, steps).runs[0].lost == 1
  {
    s := START;
    steps := ApplyIsRepeated();
  }
}
