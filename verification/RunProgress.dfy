/** What the protocol lets happen: a run whose claim is allowed, in a workspace that nobody has
    locked or leased, can be planned and applied from every state, step by step, touching
    nothing else; and so can a whole queue. */
module RunProgress {
  import opened RunStatus
  import opened RunProtocol
  import opened RunTraces

  // ---- One execution's way, step by step ------------------------------------------------------

  /** The execution's steps lead from one view to the other. */
  predicate Leads(now: int, v: View, e: ExecId, chain: seq<Step>, v2: View) {
    StepsOf(chain, e) && ViewAfter(now, v, chain, e) == v2
  }

  lemma Go(now: int, v: View, e: ExecId, chain: seq<Step>, v2: View, step: Step, v3: View) returns (chain2: seq<Step>)
    requires Leads(now, v, e, chain, v2) && IsExecStep(step) && step.exec == e && v3 == ExecStep(now, v2, step)
    ensures Leads(now, v, e, chain2, v3)
  {
    chain2 := chain + [step];
    ViewAfterJoins(now, v, chain, [step], e);
    assert [step][1..] == [];
  }

  lemma GoPublish(now: int, v: View, e: ExecId, chain: seq<Step>, v2: View, to: Status, stage: Stage)
    returns (chain2: seq<Step>)
    requires Leads(now, v, e, chain, v2) && Live(now, v2)
    requires PublishStage(v2.exec, v2.row, to) == stage && !stage.Gone? && WriteLegal(v2.row.status, to)
    ensures Leads(now, v, e, chain2, Write(v2, to, stage))
  {
    chain2 := Go(now, v, e, chain, v2, Publish(e, to), Write(v2, to, stage));
  }

  lemma GoFurther(now: int, v: View, e: ExecId, chain: seq<Step>, v2: View, chain2: seq<Step>, v3: View)
    returns (all: seq<Step>)
    requires Leads(now, v, e, chain, v2) && Leads(now, v2, e, chain2, v3)
    ensures Leads(now, v, e, all, v3)
  {
    all := chain + chain2;
    ViewAfterJoins(now, v, chain, chain2, e);
  }

  /** No unexpired lease on either row, and no lock. */
  predicate IsFree(now: int, row: Run, space: Space) {
    && (!row.leased || row.expires <= now) && (space.owner.Nobody? || space.expires <= now)
    && space.lock.Unlocked?
  }

  /** The execution has taken the lease, until just after `now`. */
  function Entered(now: int, v: View): View {
    var token := v.row.token + 1;
    Granted(v, token, now + 1).(exec := v.exec.(stage := PlanEntry, loaded := Fetching, token := token))
  }

  lemma Enters(now: int, v: View, e: ExecId) returns (chain: seq<Step>)
    requires v.exec.stage.Dispatched? && v.exec.kind.PlanExec? && v.row.status.Fetching?
    requires IsFree(now, v.row, v.space)
    ensures Leads(now, v, e, chain, Entered(now, v))
  {
    var leased := AcquireLeaseStep(now, v, now + 1);
    chain := Go(now, v, e, [], v, AcquireLease(e, now + 1), leased);
    chain := Go(now, v, e, chain, leased, Load(e), Entered(now, v));
  }

  lemma Fetches(now: int, v: View, e: ExecId) returns (chain: seq<Step>)
    requires v.exec.stage.PlanEntry? && Live(now, v) && v.row.status.Fetching?
    ensures Leads(now, v, e, chain, Write(v, PrePlanRunning, PlanPrep))
  {
    chain := GoPublish(now, v, e, [], v, Fetching, PlanPrep);
    chain := GoPublish(now, v, e, chain, Write(v, Fetching, PlanPrep), FetchingCompleted, PlanPrep);
    chain := GoPublish(now, v, e, chain, Write(v, FetchingCompleted, PlanPrep), PrePlanRunning, PlanPrep);
  }

  lemma Queues(now: int, v: View, e: ExecId) returns (chain: seq<Step>)
    requires v.exec.stage.PlanPrep? && Live(now, v) && v.row.status.PrePlanRunning?
    ensures Leads(now, v, e, chain, Write(v, PlanQueued, PlanPrep))
  {
    chain := GoPublish(now, v, e, [], v, PrePlanCompleted, PlanPrep);
    chain := GoPublish(now, v, e, chain, Write(v, PrePlanCompleted, PlanPrep), Queuing, PlanPrep);
    chain := GoPublish(now, v, e, chain, Write(v, Queuing, PlanPrep), PlanQueued, PlanPrep);
  }

  lemma Prepares(now: int, v: View, e: ExecId) returns (chain: seq<Step>)
    requires v.exec.stage.PlanEntry? && Live(now, v) && v.row.status.Fetching?
    ensures Leads(now, v, e, chain, Write(v, PlanQueued, PlanPrep))
  {
    var first := Fetches(now, v, e);
    var fetched := Write(v, PrePlanRunning, PlanPrep);
    var second := Queues(now, fetched, e);
    chain := GoFurther(now, v, e, first, fetched, second, Write(v, PlanQueued, PlanPrep));
  }

  /** The plan process has been started. */
  function PlanStarted(v: View): View {
    var v2 := Write(v, Planning, PlanRunning);
    v2.(row := v2.row.(plans := v2.row.plans + 1))
  }

  lemma Plans(now: int, v: View, e: ExecId) returns (chain: seq<Step>)
    requires v.exec.stage.PlanPrep? && Live(now, v) && v.row.status.PlanQueued?
    ensures Leads(now, v, e, chain, Write(PlanStarted(v), PostPlanCompleted, PlanCompleted))
  {
    chain := GoPublish(now, v, e, [], v, Planning, PlanReady);
    var w := PlanStarted(v);
    chain := Go(now, v, e, chain, Write(v, Planning, PlanReady), SpawnPlan(e), w);
    chain := GoPublish(now, v, e, chain, w, Planned, PlanRunning);
    var checks := Checks(now, Write(w, Planned, PlanRunning), e);
    chain := GoFurther(now, v, e, chain, Write(w, Planned, PlanRunning), checks,
                       Write(PlanStarted(v), PostPlanCompleted, PlanCompleted));
  }

  lemma Estimates(now: int, v: View, e: ExecId) returns (chain: seq<Step>)
    requires v.exec.stage.PlanRunning? && Live(now, v) && v.row.status.Planned?
    ensures Leads(now, v, e, chain, Write(v, PolicyChecking, PlanRunning))
  {
    chain := GoPublish(now, v, e, [], v, CostEstimating, PlanRunning);
    chain := GoPublish(now, v, e, chain, Write(v, CostEstimating, PlanRunning), CostEstimated, PlanRunning);
    chain := GoPublish(now, v, e, chain, Write(v, CostEstimated, PlanRunning), PolicyChecking, PlanRunning);
  }

  lemma PassesPolicies(now: int, v: View, e: ExecId) returns (chain: seq<Step>)
    requires v.exec.stage.PlanRunning? && Live(now, v) && v.row.status.PolicyChecking?
    ensures Leads(now, v, e, chain, Write(v, PostPlanCompleted, PlanCompleted))
  {
    chain := GoPublish(now, v, e, [], v, PolicyChecked, PlanRunning);
    chain := GoPublish(now, v, e, chain, Write(v, PolicyChecked, PlanRunning), PostPlanRunning, PlanRunning);
    chain := GoPublish(now, v, e, chain, Write(v, PostPlanRunning, PlanRunning), PostPlanCompleted, PlanCompleted);
  }

  lemma Checks(now: int, v: View, e: ExecId) returns (chain: seq<Step>)
    requires v.exec.stage.PlanRunning? && Live(now, v) && v.row.status.Planned?
    ensures Leads(now, v, e, chain, Write(v, PostPlanCompleted, PlanCompleted))
  {
    var first := Estimates(now, v, e);
    var estimated := Write(v, PolicyChecking, PlanRunning);
    var second := PassesPolicies(now, estimated, e);
    chain := GoFurther(now, v, e, first, estimated, second, Write(v, PostPlanCompleted, PlanCompleted));
  }

  /** The apply has taken the workspace's lock for the run. */
  function LockTaken(v: View): View {
    v.(space := v.space.(lock := RunHeld(v.exec.run)),
       exec := v.exec.(kind := ApplyExec, stage := Locked, loaded := PostPlanCompleted))
  }

  lemma TakesLock(now: int, v: View, e: ExecId) returns (chain: seq<Step>)
    requires v.exec.stage.PlanCompleted? && v.row.status.PostPlanCompleted?
    requires LiveOnSpace(now, v) && v.space.lock.Unlocked?
    ensures Leads(now, v, e, chain, LockTaken(v))
  {
    var w := v.(exec := v.exec.(kind := ApplyExec, stage := Leased));
    var x := w.(exec := w.exec.(stage := Loaded, loaded := PostPlanCompleted));
    chain := Go(now, v, e, [], v, AutoApply(e), w);
    chain := Go(now, v, e, chain, w, Load(e), x);
    chain := Go(now, v, e, chain, x, AcquireLock(e), LockTaken(v));
  }

  /** The apply process has been started. */
  function ApplyStarted(v: View): View {
    var v2 := Write(v, Applying, Spawned);
    v2.(row := v2.row.(spawns := v2.row.spawns + 1))
  }

  lemma Confirms(now: int, v: View, e: ExecId) returns (chain: seq<Step>)
    requires v.exec.stage.Locked? && v.exec.loaded.PostPlanCompleted? && v.row.status.PostPlanCompleted?
    requires Live(now, v)
    ensures Leads(now, v, e, chain, Write(v, Applying, Started))
  {
    chain := GoPublish(now, v, e, [], v, Confirmed, PreApply);
    chain := GoPublish(now, v, e, chain, Write(v, Confirmed, PreApply), ApplyQueued, Queued);
    chain := GoPublish(now, v, e, chain, Write(v, ApplyQueued, Queued), Applying, Started);
  }

  lemma Applies(now: int, v: View, e: ExecId) returns (chain: seq<Step>)
    requires v.exec.stage.Locked? && v.exec.loaded.PostPlanCompleted? && v.row.status.PostPlanCompleted?
    requires Live(now, v)
    ensures Leads(now, v, e, chain, Write(ApplyStarted(v), Applied, Settled))
  {
    chain := Confirms(now, v, e);
    chain := Go(now, v, e, chain, Write(v, Applying, Started), Spawn(e), ApplyStarted(v));
    chain := GoPublish(now, v, e, chain, ApplyStarted(v), Applied, Settled);
  }

  /** Lock and lease given back. */
  function GivenBack(v: View): View {
    View(v.row.(leased := false), v.space.(lock := Unlocked, owner := Nobody), v.exec.(stage := Gone))
  }

  lemma GivesBack(now: int, v: View, e: ExecId) returns (chain: seq<Step>)
    requires v.exec.stage.Settled? && Live(now, v) && LiveOnSpace(now, v) && v.space.lock == RunHeld(v.exec.run)
    ensures Leads(now, v, e, chain, GivenBack(v))
  {
    var w := v.(space := v.space.(lock := Unlocked), exec := v.exec.(stage := Done));
    chain := Go(now, v, e, [], v, ReleaseLock(e), w);
    chain := Go(now, v, e, chain, w, ReleaseLease(e), GivenBack(v));
  }

  /** Where the whole way ends. */
  function Finished(now: int, v: View): View {
    View(v.row.(status := Applied, leased := false, token := v.row.token + 1, expires := now + 1,
                plans := v.row.plans + 1, spawns := v.row.spawns + 1),
         Space(Unlocked, Nobody, now + 1),
         Exec(v.exec.run, ApplyExec, Gone, PostPlanCompleted, v.row.token + 1))
  }

  lemma PlansFully(now: int, v: View, e: ExecId) returns (chain: seq<Step>, v2: View)
    requires v.exec.stage.Dispatched? && v.exec.kind.PlanExec? && v.row.status.Fetching? && IsFree(now, v.row, v.space)
    ensures v2 == Write(PlanStarted(Entered(now, v)), PostPlanCompleted, PlanCompleted)
    ensures Leads(now, v, e, chain, v2)
  {
    chain := Enters(now, v, e);
    var entered := Entered(now, v);
    var next := Prepares(now, entered, e);
    var prepared := Write(entered, PlanQueued, PlanPrep);
    chain := GoFurther(now, v, e, chain, entered, next, prepared);
    v2 := Write(PlanStarted(prepared), PostPlanCompleted, PlanCompleted);
    next := Plans(now, prepared, e);
    chain := GoFurther(now, v, e, chain, prepared, next, v2);
  }

  lemma AppliesFully(now: int, v: View, e: ExecId) returns (chain: seq<Step>)
    requires v.exec.stage.PlanCompleted? && v.row.status.PostPlanCompleted? && v.space.lock.Unlocked?
    requires Live(now, v) && LiveOnSpace(now, v)
    ensures Leads(now, v, e, chain, GivenBack(Write(ApplyStarted(LockTaken(v)), Applied, Settled)))
  {
    chain := TakesLock(now, v, e);
    var locked := LockTaken(v);
    var next := Applies(now, locked, e);
    var applied := Write(ApplyStarted(locked), Applied, Settled);
    chain := GoFurther(now, v, e, chain, locked, next, applied);
    next := GivesBack(now, applied, e);
    chain := GoFurther(now, v, e, chain, applied, next, GivenBack(applied));
  }

  lemma {:induction false} DispatchedRunCanBeApplied(now: int, v: View, e: ExecId) returns (chain: seq<Step>)
    requires v.exec.stage.Dispatched? && v.exec.kind.PlanExec? && v.row.status.Fetching? && IsFree(now, v.row, v.space)
    ensures Leads(now, v, e, chain, Finished(now, v))
  {
    var first, planned := PlansFully(now, v, e);
    var second := AppliesFully(now, planned, e);
    chain := GoFurther(now, v, e, first, planned, second, Finished(now, v));
  }

  // ---- Placed into any state ------------------------------------------------------------------------

  lemma ClaimDispatches(s: State, r: RunId, e: ExecId)
    requires Consistent(s) && r in s.runs && e !in s.execs && ClaimAllowed(s, r)
    ensures var t := Next(s, Claim(r, Fetching, e));
      && t == s.(runs := s.runs[r := s.runs[r].(status := Fetching)],
                 execs := s.execs[e := Exec(r, PlanExec, Dispatched, Fetching, 0)])
      && ViewOf(t, e) == Claimed(s, r)
  {
    assert s.spaces[s.runs[r].space := SpaceOf(s, r)] == s.spaces;
  }

  function Claimed(s: State, r: RunId): View
    requires Consistent(s) && r in s.runs
  {
    View(s.runs[r].(status := Fetching), SpaceOf(s, r), Exec(r, PlanExec, Dispatched, Fetching, 0))
  }

  /** The poller's claim succeeds exactly for a pending run that is speculative or saves its plan, or
      while every ordinary run of the workspace is waiting, saved or over. */
  lemma {:induction false} ClaimSucceedsExactly(s: State, r: RunId, e: ExecId)
    requires Consistent(s) && r in s.runs && e !in s.execs
    ensures Next(s, Claim(r, Fetching, e)) != s <==>
            && s.runs[r].status == Pending
            && (|| s.runs[r].planOnly || s.runs[r].savePlan
                || forall q | q in s.runs && s.runs[q].space == s.runs[r].space ::
                     s.runs[q].planOnly || s.runs[q].savePlan || !IsBlocking(s.runs[q].status))
  {
    var t := Next(s, Claim(r, Fetching, e));
    if ClaimAllowed(s, r) { assert e in t.execs; }
    if !s.runs[r].planOnly && !s.runs[r].savePlan && s.runs[r].status == Pending && !ClaimAllowed(s, r) {
      var q :| q in s.runs && Occupies(s.runs[q], s.runs[r].space);
    }
  }

  /** The state with one more run applied. */
  function WithApplied(s: State, r: RunId, e: ExecId): State
    requires Consistent(s) && r in s.runs
  {
    var v := Finished(s.now, Claimed(s, r));
    s.(runs := s.runs[r := v.row], spaces := s.spaces[s.runs[r].space := v.space], execs := s.execs[e := v.exec])
  }

  /** From any state whatever: a run whose claim is allowed, in a workspace without a lock or an
      unexpired lease, can be claimed, planned and applied. It is applied then, with one process
      of each kind more, the lock and the lease are given back, and nothing else has changed. */
  lemma {:induction false} ClaimableRunCanBeApplied(s: State, r: RunId, e: ExecId) returns (steps: seq<Step>)
    requires Consistent(s) && r in s.runs && e !in s.execs && ClaimAllowed(s, r)
    requires IsFree(s.now, s.runs[r], SpaceOf(s, r))
    ensures Execute(s, steps) == WithApplied(s, r, e)
    ensures var row, space := WithApplied(s, r, e).runs[r], WithApplied(s, r, e).spaces[s.runs[r].space];
      && row.status == Applied && row.plans == s.runs[r].plans + 1 && row.spawns == s.runs[r].spawns + 1
      && row.lost == s.runs[r].lost && row.reopened == s.runs[r].reopened && !row.leased
      && space.lock == Unlocked && space.owner == Nobody
  {
    var claim := Claim(r, Fetching, e);
    var t := Next(s, claim);
    ClaimDispatches(s, r, e);
    var chain := DispatchedRunCanBeApplied(s.now, Claimed(s, r), e);
    steps := [claim] + chain;
    assert steps[1..] == chain;
    StretchIsInstalled(t, chain, e);
    FinishedIsInstalled(s, r, e);
  }

  lemma FinishedIsInstalled(s: State, r: RunId, e: ExecId)
    requires Consistent(s) && r in s.runs && e !in s.execs && ClaimAllowed(s, r)
    ensures Install(Next(s, Claim(r, Fetching, e)), e, Finished(s.now, Claimed(s, r))) == WithApplied(s, r, e)
  {
    ClaimDispatches(s, r, e);
    var v := Finished(s.now, Claimed(s, r));
    assert s.runs[r := s.runs[r].(status := Fetching)][r := v.row] == s.runs[r := v.row];
    assert s.execs[e := Exec(r, PlanExec, Dispatched, Fetching, 0)][e := v.exec] == s.execs[e := v.exec];
  }

  // ---- A whole queue --------------------------------------------------------------------------------------

  lemma {:induction false} AboveAll(ids: set<ExecId>) returns (bound: ExecId)
    ensures forall e :: e in ids ==> e < bound
  {
    if ids == {} {
      bound := 0;
    } else {
      var e :| e in ids;
      var b := AboveAll(ids - {e});
      bound := if b <= e then e + 1 else b;
      assert forall f :: f in ids && f != e ==> f in ids - {e};
    }
  }

  /** No run is under way, and every workspace is free. */
  ghost predicate Idle(s: State) {
    && Consistent(s)
    && (forall r | r in s.runs :: !IsBlocking(s.runs[r].status) && IsFree(s.now, s.runs[r], SpaceOf(s, r)))
  }

  ghost function Waiting(s: State): set<RunId> {
    set r | r in s.runs && s.runs[r].status.Pending?
  }

  lemma IdleAfterRun(s: State, r: RunId, e: ExecId)
    requires Idle(s) && r in s.runs && s.runs[r].status.Pending?
    ensures Idle(WithApplied(s, r, e)) && Waiting(WithApplied(s, r, e)) == Waiting(s) - {r}
  {
    var t := WithApplied(s, r, e);
    forall q | q in t.runs ensures !IsBlocking(t.runs[q].status) && IsFree(t.now, t.runs[q], SpaceOf(t, q)) {
      assert IsFree(s.now, s.runs[q], SpaceOf(s, q)) && !IsBlocking(s.runs[q].status);
    }
  }

  /** Every run that was waiting is applied, with one process of each kind more; the others are as
      they were. */
  ghost predicate Drained(s: State, t: State) {
    && t.runs.Keys == s.runs.Keys
    && forall r | r in s.runs ::
         if s.runs[r].status.Pending?
         then t.runs[r].status == Applied && t.runs[r].plans == s.runs[r].plans + 1 &&
              t.runs[r].spawns == s.runs[r].spawns + 1
         else t.runs[r] == s.runs[r]
  }

  lemma DrainsOn(s: State, r: RunId, e: ExecId, t: State)
    requires Idle(s) && r in s.runs && s.runs[r].status.Pending? && Drained(WithApplied(s, r, e), t)
    ensures Drained(s, t)
  {
  }

  lemma IdleAllowsClaim(s: State, r: RunId)
    requires Idle(s) && r in s.runs && s.runs[r].status.Pending?
    ensures ClaimAllowed(s, r) && IsFree(s.now, s.runs[r], SpaceOf(s, r))
  {
  }

  /** From every idle state there is a way on which every waiting run is planned and applied, one
      after another, each with one process of each kind; the other runs stay as they are. */
  lemma {:induction false} QueueCanDrain(s: State) returns (steps: seq<Step>)
    requires Idle(s)
    ensures Idle(Execute(s, steps)) && Drained(s, Execute(s, steps))
    decreases |Waiting(s)|
  {
    if Waiting(s) == {} {
      assert forall r :: r in s.runs ==> (s.runs[r].status.Pending? ==> r in Waiting(s));
      return [];
    }
    var r :| r in Waiting(s);
    var e := AboveAll(s.execs.Keys);
    IdleAllowsClaim(s, r);
    var first := ClaimableRunCanBeApplied(s, r, e);
    IdleAfterRun(s, r, e);
    var next := WithApplied(s, r, e);
    var rest := QueueCanDrain(next);
    steps := first + rest;
    ExecuteAppends(s, first, rest);
    DrainsOn(s, r, e, Execute(next, rest));
  }
}
