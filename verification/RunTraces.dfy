/** A run of the system, step by step from an initial state, in which two runs of a workspace
    get past its queue. Stretches of steps by one execution are worked out on its view and
    then placed into the state. */
module RunTraces {
  import opened RunStatus
  import opened RunProtocol

  // ---- Stretches of steps by one execution ----------------------------------------------------

  predicate StepsOf(chain: seq<Step>, e: ExecId) {
    forall k | 0 <= k < |chain| :: IsExecStep(chain[k]) && chain[k].exec == e
  }

  function ViewAfter(now: int, v: View, chain: seq<Step>, e: ExecId): (v2: View)
    requires StepsOf(chain, e)
    ensures SameRun(v.row, v2.row) && v2.exec.run == v.exec.run
    decreases |chain|
  {
    if chain == [] then v else ViewAfter(now, ExecStep(now, v, chain[0]), chain[1..], e)
  }

  lemma InstallOwnView(s: State, e: ExecId)
    requires Consistent(s) && e in s.execs
    ensures Install(s, e, ViewOf(s, e)) == s
  {
    var v := ViewOf(s, e);
    assert s.runs[v.exec.run := v.row] == s.runs && s.spaces[v.row.space := v.space] == s.spaces &&
      s.execs[e := v.exec] == s.execs;
  }

  lemma InstallTwice(s: State, e: ExecId, v: View, v2: View)
    requires Consistent(s) && e in s.execs
    requires SameRun(s.runs[s.execs[e].run], v.row) && v.exec.run == s.execs[e].run
    requires SameRun(v.row, v2.row) && v2.exec.run == v.exec.run
    ensures Install(Install(s, e, v), e, v2) == Install(s, e, v2)
    ensures ViewOf(Install(s, e, v), e) == v
  {
    var t := Install(s, e, v);
    assert t.runs[v2.exec.run := v2.row] == s.runs[v2.exec.run := v2.row];
    assert t.spaces[v2.row.space := v2.space] == s.spaces[v2.row.space := v2.space];
    assert t.execs[e := v2.exec] == s.execs[e := v2.exec];
  }

  lemma {:induction false} StretchIsInstalled(s: State, chain: seq<Step>, e: ExecId)
    requires Consistent(s) && e in s.execs && StepsOf(chain, e)
    ensures Execute(s, chain) == Install(s, e, ViewAfter(s.now, ViewOf(s, e), chain, e))
    decreases |chain|
  {
    if chain == [] {
      InstallOwnView(s, e);
    } else {
      var v := ExecStep(s.now, ViewOf(s, e), chain[0]);
      InstallTwice(s, e, v, ViewAfter(s.now, v, chain[1..], e));
      StretchIsInstalled(Install(s, e, v), chain[1..], e);
    }
  }

  lemma {:induction false} ViewAfterJoins(now: int, v: View, before: seq<Step>, after: seq<Step>, e: ExecId)
    requires StepsOf(before, e) && StepsOf(after, e)
    ensures StepsOf(before + after, e)
    ensures ViewAfter(now, v, before + after, e) == ViewAfter(now, ViewAfter(now, v, before, e), after, e)
    decreases |before|
  {
    if before == [] {
      assert before + after == after;
    } else {
      assert (before + after)[1..] == before[1..] + after;
      ViewAfterJoins(now, ExecStep(now, v, before[0]), before[1..], after, e);
    }
  }

  // ---- States with one workspace -----------------------------------------------------------------

  predicate Sound(rows: map<RunId, Run>, execs: map<ExecId, Exec>) {
    && (forall r | r in rows :: rows[r].space == 0)
    && (forall e | e in execs :: execs[e].run in rows)
  }

  function Snap(rows: map<RunId, Run>, space: Space, execs: map<ExecId, Exec>): (s: State)
    requires Sound(rows, execs)
    ensures Consistent(s)
  {
    State(0, rows, map[0 := space], execs, {})
  }

  /** A run of the system that got from `s` to `t`, extended by a system step. */
  lemma Extend(s: State, steps: seq<Step>, step: Step) returns (steps2: seq<Step>)
    requires Consistent(s)
    ensures Execute(s, steps2) == Next(Execute(s, steps), step)
  {
    steps2 := steps + [step];
    ExecuteAppends(s, steps, [step]);
    assert [step][1..] == [];
  }

  lemma InstallSnap(rows: map<RunId, Run>, space: Space, execs: map<ExecId, Exec>, e: ExecId, v: View)
    requires Sound(rows, execs) && e in execs && SameRun(rows[execs[e].run], v.row) && v.exec.run == execs[e].run
    ensures Sound(rows[v.exec.run := v.row], execs[e := v.exec])
    ensures Install(Snap(rows, space, execs), e, v) == Snap(rows[v.exec.run := v.row], v.space, execs[e := v.exec])
  {
    assert map[0 := space][0 := v.space] == map[0 := v.space];
  }

  lemma ExtendStretch(s: State, steps: seq<Step>, rows: map<RunId, Run>, space: Space, execs: map<ExecId, Exec>,
                      e: ExecId, chain: seq<Step>, v: View) returns (steps2: seq<Step>)
    requires Consistent(s) && Sound(rows, execs) && e in execs && StepsOf(chain, e)
    requires Execute(s, steps) == Snap(rows, space, execs)
    requires v == ViewAfter(0, View(rows[execs[e].run], space, execs[e]), chain, e)
    ensures Sound(rows[v.exec.run := v.row], execs[e := v.exec])
    ensures Execute(s, steps2) == Snap(rows[v.exec.run := v.row], v.space, execs[e := v.exec])
  {
    var t := Snap(rows, space, execs);
    steps2 := steps + chain;
    ExecuteAppends(s, steps, chain);
    StretchIsInstalled(t, chain, e);
    assert ViewOf(t, e) == View(rows[execs[e].run], space, execs[e]);
    InstallSnap(rows, space, execs, e, v);
  }

  lemma ClaimSnap(rows: map<RunId, Run>, space: Space, execs: map<ExecId, Exec>, r: RunId, e: ExecId)
    requires Sound(rows, execs) && r in rows && e !in execs && ClaimAllowed(Snap(rows, space, execs), r)
    ensures Sound(rows[r := rows[r].(status := Fetching)], execs[e := Exec(r, PlanExec, Dispatched, Fetching, 0)])
    ensures Next(Snap(rows, space, execs), Claim(r, Fetching, e)) ==
            Snap(rows[r := rows[r].(status := Fetching)], space, execs[e := Exec(r, PlanExec, Dispatched, Fetching, 0)])
  {
  }

  lemma RecoverySnap(rows: map<RunId, Run>, space: Space, execs: map<ExecId, Exec>, r: RunId, e: ExecId)
    requires Sound(rows, execs) && r in rows && e !in execs && IsRequeuable(rows[r].status)
    ensures Sound(rows, execs[e := Exec(r, RecoveryExec, Dispatched, rows[r].status, 0)])
    ensures Next(Snap(rows, space, execs), StartRecovery(r, e)) ==
            Snap(rows, space, execs[e := Exec(r, RecoveryExec, Dispatched, rows[r].status, 0)])
  {
  }

  lemma ExtendClaim(s: State, steps: seq<Step>, rows: map<RunId, Run>, space: Space, execs: map<ExecId, Exec>,
                    r: RunId, e: ExecId) returns (steps2: seq<Step>)
    requires Consistent(s) && Sound(rows, execs) && Execute(s, steps) == Snap(rows, space, execs)
    requires r in rows && e !in execs && ClaimAllowed(Snap(rows, space, execs), r)
    ensures Sound(rows[r := rows[r].(status := Fetching)], execs[e := Exec(r, PlanExec, Dispatched, Fetching, 0)])
    ensures Execute(s, steps2) ==
            Snap(rows[r := rows[r].(status := Fetching)], space, execs[e := Exec(r, PlanExec, Dispatched, Fetching, 0)])
  {
    ClaimSnap(rows, space, execs, r, e);
    steps2 := Extend(s, steps, Claim(r, Fetching, e));
  }

  lemma ExtendRecovery(s: State, steps: seq<Step>, rows: map<RunId, Run>, space: Space, execs: map<ExecId, Exec>,
                       r: RunId, e: ExecId) returns (steps2: seq<Step>)
    requires Consistent(s) && Sound(rows, execs) && Execute(s, steps) == Snap(rows, space, execs)
    requires r in rows && e !in execs && IsRequeuable(rows[r].status)
    ensures Sound(rows, execs[e := Exec(r, RecoveryExec, Dispatched, rows[r].status, 0)])
    ensures Execute(s, steps2) == Snap(rows, space, execs[e := Exec(r, RecoveryExec, Dispatched, rows[r].status, 0)])
  {
    RecoverySnap(rows, space, execs, r, e);
    steps2 := Extend(s, steps, StartRecovery(r, e));
  }

  const WAITING := Run(0, Pending, false, false, false, 0, 0, 0, 0, 0, 0, 0)
  const FREE := Space(Unlocked, Nobody, 0)

  // ---- Two runs of one workspace past the queue --------------------------------------------------

  const USED := Space(Unlocked, Nobody, 5)
  const ENTERED_LATE := View(Run(0, Fetching, false, false, true, 2, 5, 0, 0, 0, 0, 0),
                             Space(Unlocked, OwnedBy(0, 2), 5),
                             Exec(0, PlanExec, PlanPrep, Pending, 2))
  const REQUEUED := Run(0, Pending, false, false, false, 1, 5, 0, 0, 0, 0, 0)

  lemma RecoveryRequeues() returns (chain: seq<Step>)
    ensures StepsOf(chain, 1)
    ensures ViewAfter(0, View(Run(0, Fetching, false, false, false, 0, 0, 0, 0, 0, 0, 0), Space(Unlocked, Nobody, 0),
                           Exec(0, RecoveryExec, Dispatched, Fetching, 0)), chain, 1)
            == View(REQUEUED, USED, Exec(0, RecoveryExec, Gone, Fetching, 1))
  {
    chain := [AcquireLease(1, 5), Requeue(1), ReleaseLease(1)];
  }

  lemma LateExecutorEnters() returns (chain: seq<Step>)
    ensures StepsOf(chain, 0)
    ensures ViewAfter(0, View(REQUEUED, USED, LATE), chain, 0) == ENTERED_LATE
  {
    chain := [AcquireLease(0, 5), Load(0), Publish(0, Fetching)];
  }

  const TWO_WAITING := map[0 := WAITING, 1 := WAITING]
  const LATE := Exec(0, PlanExec, Dispatched, Fetching, 0)
  const RECOVERY := Exec(0, RecoveryExec, Dispatched, Fetching, 0)

  lemma RequeuedUnderneath(s: State) returns (steps: seq<Step>)
    requires s == Snap(TWO_WAITING, FREE, map[])
    ensures Execute(s, steps) == Snap(TWO_WAITING[0 := WAITING.(status := Fetching)][0 := REQUEUED], USED,
                                      map[][0 := LATE][1 := RECOVERY][1 := RECOVERY.(stage := Gone, token := 1)])
  {
    var rows := TWO_WAITING[0 := WAITING.(status := Fetching)];
    steps := ExtendClaim(s, [], TWO_WAITING, FREE, map[], 0, 0);
    steps := ExtendRecovery(s, steps, rows, FREE, map[][0 := LATE], 0, 1);
    var recovery := RecoveryRequeues();
    steps := ExtendStretch(s, steps, rows, FREE, map[][0 := LATE][1 := RECOVERY], 1, recovery,
                           View(REQUEUED, USED, RECOVERY.(stage := Gone, token := 1)));
  }

  lemma TwoOccupants(rows: map<RunId, Run>, space: Space, execs: map<ExecId, Exec>)
    requires Sound(rows, execs) && 0 in rows && 1 in rows && Occupies(rows[0], 0) && Occupies(rows[1], 0)
    ensures !OneOccupant(Snap(rows, space, execs))
  {
    var s := Snap(rows, space, execs);
    assert Occupies(s.runs[0], s.runs[0].space) && Occupies(s.runs[1], s.runs[1].space);
  }

  lemma QueueMovesOn(rows: map<RunId, Run>, space: Space, execs: map<ExecId, Exec>)
    requires Sound(rows, execs) && rows.Keys == {0, 1} && rows[0] == REQUEUED && rows[1] == WAITING
    ensures ClaimAllowed(Snap(rows, space, execs), 1)
  {
  }

  lemma LateExecutorJumps(s: State, steps: seq<Step>, rows: map<RunId, Run>, execs: map<ExecId, Exec>)
    returns (steps2: seq<Step>)
    requires Consistent(s) && Sound(rows, execs) && Execute(s, steps) == Snap(rows, USED, execs)
    requires 0 in rows && rows[0] == REQUEUED && 0 in execs && execs[0] == LATE
    ensures Sound(rows[0 := ENTERED_LATE.row], execs[0 := ENTERED_LATE.exec])
    ensures Execute(s, steps2) == Snap(rows[0 := ENTERED_LATE.row], ENTERED_LATE.space, execs[0 := ENTERED_LATE.exec])
  {
    var entry := LateExecutorEnters();
    steps2 := ExtendStretch(s, steps, rows, USED, execs, 0, entry, ENTERED_LATE);
  }

  const MOVED_ON := TWO_WAITING[0 := WAITING.(status := Fetching)][0 := REQUEUED]
  const WITH_LATE: map<ExecId, Exec> := map[][0 := LATE][1 := RECOVERY][1 := RECOVERY.(stage := Gone, token := 1)]

  lemma SecondRunClaimed(s: State) returns (steps: seq<Step>, rows: map<RunId, Run>, execs: map<ExecId, Exec>)
    requires s == Snap(TWO_WAITING, FREE, map[])
    ensures Sound(rows, execs) && Execute(s, steps) == Snap(rows, USED, execs)
    ensures 0 in rows && 1 in rows && rows[0] == REQUEUED && rows[1] == WAITING.(status := Fetching)
    ensures 0 in execs && execs[0] == LATE
  {
    steps := RequeuedUnderneath(s);
    QueueMovesOn(MOVED_ON, USED, WITH_LATE);
    steps := ExtendClaim(s, steps, MOVED_ON, USED, WITH_LATE, 1, 2);
    rows, execs := MOVED_ON[1 := WAITING.(status := Fetching)],
      WITH_LATE[2 := Exec(1, PlanExec, Dispatched, Fetching, 0)];
  }

  lemma QueueIsJumped(s: State) returns (steps: seq<Step>)
    requires s == Snap(TWO_WAITING, FREE, map[])
    ensures !OneOccupant(Execute(s, steps))
  {
    var claimed, rows, execs := SecondRunClaimed(s);
    steps := LateExecutorJumps(s, claimed, rows, execs);
    TwoOccupants(rows[0 := ENTERED_LATE.row], ENTERED_LATE.space, execs[0 := ENTERED_LATE.exec]);
  }

  /** A claimed run is requeued by recovery before its own, late executor gets the lease; by
      then the workspace's queue has moved on, and the executor still enters its plan. */
  lemma {:induction false} QueueCanBeJumped() returns (s: State, steps: seq<Step>)
    ensures Initial(s) && !OneOccupant(Execute(s, steps))
  {
    s := Snap(TWO_WAITING, FREE, map[]);
    steps := QueueIsJumped(s);
  }
}
