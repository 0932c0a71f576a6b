/** The run execution protocol as a transition system. One step is one awaited
    database statement or transaction (or the spawn itself); executors, pollers,
    operators, reconcilers and the clock interleave freely, and an executor that
    crashed is one that takes no further step. */
module RunProtocol {
  import opened RunStatus

  type RunId = nat
  type SpaceId = nat
  type ExecId = nat

  /** The workspace lock: free, held by a user or team, or held for a run's apply. */
  datatype Lock = Unlocked | UserHeld | RunHeld(run: RunId)

  /** A run row. `leased`, `token` and `expires` are its execution lease; the token counts
      claims, so it also identifies the claiming owner. Five counters record history: `plans`
      and `spawns`, the plan and apply processes started for the run; `requeued`, the times an
      operator sent an apply-queued run back to pending; `lost`, the times a live executor
      could not store the outcome of a started apply; and `reopened`, the times a deferral put
      a run that was applying back to confirmed. */
  datatype Run = Run(space: SpaceId, status: Status, planOnly: bool, savePlan: bool,
                     leased: bool, token: nat, expires: int,
                     plans: nat, requeued: nat, spawns: nat, lost: nat, reopened: nat)

  datatype Owner = Nobody | OwnedBy(run: RunId, token: nat)

  /** A workspace row: its lock and its copy of the execution lease. */
  datatype Space = Space(lock: Lock, owner: Owner, expires: int)

  datatype Kind = PlanExec | ApplyExec | RecoveryExec

  datatype Stage =
    | Dispatched                   // called, no lease yet
    | Leased                       // holds the lease, run row not loaded yet
    | PlanEntry                    // plan: run row loaded, nothing published
    | PlanPrep | PlanReady         // plan: fetching and planning reached
    | PlanRunning | PlanCompleted  // plan: process started (or simulated), post_plan_completed reached
    | Loaded                       // apply: run row loaded, workspace lock not tried
    | Deferring                    // apply: the lock was not available
    | Locked                       // apply: lock acquired, nothing written yet
    | PreApply | Queued | Started  // apply: confirmed, apply_queued and applying reached
    | Spawned                      // apply: the process was started
    | Settled                      // apply: outcome recorded or refused, lock not released yet
    | Cleared                      // recovery: the run was errored, its lock not released yet
    | Done                         // work finished, lease not released yet
    | Gone

  /** A local execution. `loaded` is the status the execution (or the reconciler's page
      read that started it) saw; `token` is the lease generation it claimed. */
  datatype Exec = Exec(run: RunId, kind: Kind, stage: Stage, loaded: Status, token: nat)

  /** `sweeps` holds the runs for which some reconciler has already decided, from its page
      reads, that the workspace lock may be released. */
  datatype State = State(now: int, runs: map<RunId, Run>, spaces: map<SpaceId, Space>,
                         execs: map<ExecId, Exec>, sweeps: set<RunId>)

  /** Unfenced writes of operators, pollers and configuration downloads. All but the last
      compare the status with one they have read; `ErrorUnguarded` asks nothing. */
  datatype Change =
    | Cancel | ForceCancel | Discard | RequeueQueued | OverridePolicy | ScheduleApply
    | RevertClaim | RevertSchedule | RejectSchedule | ErrorUnguarded

  /** Compare-and-set writes that also dispatch an apply. */
  datatype Launch = ApplyAction | ScheduledClaim

  datatype Step =
    | Tick(clock: int)
    | Claim(run: RunId, to: Status, exec: ExecId)
    | ChangeRun(run: RunId, change: Change)
    | LaunchApply(run: RunId, launch: Launch, exec: ExecId)
    | StartRecovery(run: RunId, exec: ExecId)
    | UserLock(space: SpaceId)
    | UserUnlock(space: SpaceId)
    | SweepRead(run: RunId, clock: int)
    | SweepWrite(run: RunId)
    | ClearExpired(run: RunId)
    | AcquireLease(exec: ExecId, until: int)
    | LeaseBusy(exec: ExecId)
    | RenewLease(exec: ExecId, until: int)
    | ReleaseLease(exec: ExecId)
    | DropLease(exec: ExecId)
    | Load(exec: ExecId)
    | Publish(exec: ExecId, to: Status)
    | RejectPlan(exec: ExecId)
    | Fence(exec: ExecId)
    | Requeue(exec: ExecId)
    | AcquireLock(exec: ExecId)
    | Defer(exec: ExecId)
    | SpawnPlan(exec: ExecId)
    | Spawn(exec: ExecId)
    | AutoApply(exec: ExecId)
    | Move(exec: ExecId, stage: Stage)
    | ReleaseLock(exec: ExecId)
    | StoreFailed(exec: ExecId)

  // ---- Rows and views -----------------------------------------------------------------

  predicate Consistent(s: State) {
    && (forall r | r in s.runs :: s.runs[r].space in s.spaces)
    && (forall e | e in s.execs :: s.execs[e].run in s.runs)
  }

  /** No step creates or drops a run or workspace row, or moves a run elsewhere. */
  predicate SameRows(s: State, t: State) {
    && t.runs.Keys == s.runs.Keys && t.spaces.Keys == s.spaces.Keys
    && (forall r | r in s.runs ::
          && t.runs[r].space == s.runs[r].space && t.runs[r].planOnly == s.runs[r].planOnly
          && t.runs[r].savePlan == s.runs[r].savePlan)
    && (forall e | e in s.execs :: e in t.execs && t.execs[e].run == s.execs[e].run)
  }

  /** What one execution reads and writes: its run's row, the workspace row, itself. */
  datatype View = View(row: Run, space: Space, exec: Exec)

  function SpaceOf(s: State, r: RunId): Space
    requires Consistent(s) && r in s.runs
  {
    s.spaces[s.runs[r].space]
  }

  function ViewOf(s: State, e: ExecId): View
    requires Consistent(s) && e in s.execs
  {
    View(s.runs[s.execs[e].run], SpaceOf(s, s.execs[e].run), s.execs[e])
  }

  predicate SameRun(row: Run, row2: Run) {
    row2.space == row.space && row2.planOnly == row.planOnly && row2.savePlan == row.savePlan
  }

  function Put(s: State, r: RunId, row: Run, space: Space): (t: State)
    requires Consistent(s) && r in s.runs && SameRun(s.runs[r], row)
    ensures Consistent(t) && SameRows(s, t)
  {
    s.(runs := s.runs[r := row], spaces := s.spaces[row.space := space])
  }

  function Install(s: State, e: ExecId, v: View): (t: State)
    requires Consistent(s) && e in s.execs
    requires SameRun(s.runs[s.execs[e].run], v.row) && v.exec.run == s.execs[e].run
    ensures Consistent(t) && SameRows(s, t)
  {
    var t := Put(s, v.exec.run, v.row, v.space);
    t.(execs := t.execs[e := v.exec])
  }

  /** A newly dispatched execution. */
  function Dispatch(s: State, e: ExecId, x: Exec): (t: State)
    requires Consistent(s) && e !in s.execs && x.run in s.runs
    ensures Consistent(t) && SameRows(s, t)
  {
    s.(execs := s.execs[e := x])
  }

  predicate HasToken(x: Exec) {
    !x.stage.Dispatched? && !x.stage.Gone?
  }

  /** The execution fence: the executor's lease is the run's current, unexpired one. */
  predicate Live(now: int, v: View) {
    HasToken(v.exec) && v.row.leased && v.row.token == v.exec.token && now < v.row.expires
  }

  /** The workspace half of the fence. */
  predicate LiveOnSpace(now: int, v: View) {
    HasToken(v.exec) && v.space.owner == OwnedBy(v.exec.run, v.exec.token) && now < v.space.expires
  }

  predicate IsLive(s: State, e: ExecId)
    requires Consistent(s) && e in s.execs
  {
    Live(s.now, ViewOf(s, e))
  }

  predicate InPlanPhase(x: Exec) {
    || x.stage.PlanEntry? || x.stage.PlanPrep? || x.stage.PlanReady? || x.stage.PlanRunning? || x.stage.PlanCompleted?
  }

  /** Inside the locked section of the apply: lock taken, not yet released. */
  predicate InLockedSection(x: Exec) {
    BeforeSpawn(x) || x.stage.Spawned? || x.stage.Settled?
  }

  /** The locked section before the apply process is started. */
  predicate BeforeSpawn(x: Exec) {
    x.stage.Locked? || x.stage.PreApply? || x.stage.Queued? || x.stage.Started?
  }

  // ---- Guards and targets of the writes -----------------------------------------------

  /** Runs that hold or wait for the workspace queue: neither speculative nor saved-plan. */
  predicate Ordinary(row: Run) {
    !row.planOnly && !row.savePlan
  }

  predicate Occupies(row: Run, w: SpaceId) {
    row.space == w && Ordinary(row) && IsBlocking(row.status)
  }

  /** The claim's WHERE clause: still pending and, for an ordinary run, no blocking
      ordinary run in the same workspace. */
  predicate ClaimAllowed(s: State, r: RunId)
    requires r in s.runs
  {
    && s.runs[r].status.Pending?
    && (Ordinary(s.runs[r]) ==> forall q | q in s.runs :: !Occupies(s.runs[q], s.runs[r].space))
  }

  predicate ChangeAllowed(row: Run, change: Change) {
    match change
    case Cancel => !IsFinal(row.status)
    case ForceCancel => !IsFinal(row.status) || row.status.Canceled?
    case Discard => IsDiscardable(row.status)
    case RequeueQueued => row.status.Pending? || row.status.PlanQueued? || row.status.ApplyQueued?
    case OverridePolicy => row.status.PolicySoftFailed?
    case ScheduleApply => !row.planOnly && (row.status.Planned? || row.status.PlannedAndSaved?)
    case RevertClaim => row.status.Fetching?
    case RevertSchedule => row.status.ApplyQueued?
    case RejectSchedule => row.status.Confirmed?
    case ErrorUnguarded => true
  }

  function ChangeTarget(change: Change): Status {
    match change
    case Cancel => Canceled
    case ForceCancel => ForceCanceled
    case Discard => Discarded
    case RequeueQueued => Pending
    case OverridePolicy => Planned
    case ScheduleApply => Confirmed
    case RevertClaim => Pending
    case RevertSchedule => Confirmed
    case RejectSchedule => Errored
    case ErrorUnguarded => Errored
  }

  /** An apply-queued run sent back to pending will plan again: the one way to replay a plan. */
  function Changed(row: Run, change: Change): Run {
    row.(status := ChangeTarget(change),
         requeued := row.requeued + if change.RequeueQueued? && row.status.ApplyQueued? then 1 else 0)
  }

  predicate LaunchAllowed(row: Run, launch: Launch) {
    match launch
    case ApplyAction => row.status.Planned? || row.status.PlannedAndSaved?
    case ScheduledClaim => row.status.Confirmed? && !row.planOnly
  }

  function LaunchTarget(launch: Launch): Status {
    match launch
    case ApplyAction => Confirmed
    case ScheduledClaim => ApplyQueued
  }

  /** What the plan phase writes once planning has been reached. */
  predicate PlanWrites(row: Run, to: Status) {
    || to.Planned? || to.CostEstimating? || to.CostEstimated? || to.PolicyChecking? || to.PolicyOverride?
    || to.PolicySoftFailed? || to.PolicyChecked? || to.PostPlanRunning? || to.PostPlanCompleted?
    || to.PlannedAndFinished? || to.Errored? || (to.PlannedAndSaved? && row.savePlan)
  }

  /** Statuses an apply accepts as it found them, without writing `Confirmed` first. */
  predicate EntersDirectly(loaded: Status) {
    loaded.Confirmed? || loaded.ApplyQueued? || loaded.Applying?
  }

  /** Which status an execution publishes at which stage, and the stage it reaches. */
  function PublishStage(x: Exec, row: Run, to: Status): (stage: Stage) {
    match x.stage
    case PlanEntry => if to.Fetching? then PlanPrep else if to.Errored? then PlanEntry else Gone
    case PlanPrep =>
      if to.Planning? then PlanReady
      else if (IsBeforePlanning(to) && !to.Pending? && !to.Fetching?) || to.Errored? then PlanPrep
      else Gone
    case PlanReady => if PlanWrites(row, to) then PlanRunning else Gone
    case PlanRunning =>
      if !PlanWrites(row, to) then Gone else if to.PostPlanCompleted? then PlanCompleted else PlanRunning
    case PlanCompleted => if PlanWrites(row, to) then PlanCompleted else Gone
    case Leased =>
      if x.kind.RecoveryExec? && IsErrorAfterRestart(x.loaded) && to.Errored? then Cleared else Gone
    case Loaded => if to.Errored? then Done else Gone
    case Locked => if to.Confirmed? && !EntersDirectly(x.loaded) then PreApply else Gone
    case PreApply => if to.ApplyQueued? then Queued else if to.Errored? then Settled else Gone
    case Queued => if to.Applying? then Started else Gone
    case Started => if to.Applied? || to.Errored? then Settled else Gone
    case Spawned => if to.Applied? || to.Errored? then Settled else Gone
    case _ => Gone
  }

  /** The status write every execution goes through: same status, or a legal edge. */
  predicate WriteLegal(from: Status, to: Status) {
    from == to || CanTransition(from, to)
  }

  /** Statuses the plan's and the apply's error fences leave alone. */
  predicate FenceSpares(kind: Kind, status: Status) {
    || IsAbsorbing(status)
    || (kind.PlanExec? && (status.Planned? || status.PlannedAndSaved? || status.PlannedAndFinished? ||
                           status.PolicySoftFailed?))
  }

  /** Returns and throws: stage changes without a database write. An apply that was started
      leaves `Spawned` only by publishing an outcome, by reading that the run was canceled,
      or because its error write was refused (fence lost or run already stopped). */
  predicate MoveAllowed(now: int, v: View, to: Stage) {
    match v.exec.stage
    case Leased => to.Done?
    case PlanEntry => to.Done?
    case PlanPrep => to.Done?
    case PlanReady => to.Done?
    case PlanRunning => to.Done?
    case PlanCompleted => to.Done?
    case Loaded => to.Deferring? || to.Done?
    case Deferring => to.Done?
    case Locked => to.Settled? || (to.PreApply? && EntersDirectly(v.exec.loaded))
    case PreApply => to.Settled?
    case Queued => to.Settled?
    case Started => to.Settled?
    case Spawned => to.Settled? && (IsCanceled(v.row.status) || !Live(now, v) || !WriteLegal(v.row.status, Errored))
    case Settled => to.Done?
    case Cleared => to.Done?
    case _ => false
  }

  // ---- Steps of one execution -----------------------------------------------------------

  function At(v: View, stage: Stage): View { v.(exec := v.exec.(stage := stage)) }

  function Write(v: View, to: Status, stage: Stage): View {
    v.(row := v.row.(status := to), exec := v.exec.(stage := stage))
  }

  /** Both rows take the lease generation `token`, good until `until`. */
  function Granted(v: View, token: nat, until: int): View {
    v.(row := v.row.(leased := true, token := token, expires := until),
       space := v.space.(owner := OwnedBy(v.exec.run, token), expires := until))
  }

  /** Claim: take the run's lease if unowned or expired, and the workspace's likewise. */
  function AcquireLeaseStep(now: int, v: View, until: int): View {
    if v.exec.stage.Dispatched? && (!v.row.leased || v.row.expires <= now) &&
       (v.space.owner.Nobody? || v.space.expires <= now) then
      Granted(v, v.row.token + 1, until).(exec := v.exec.(stage := Leased, token := v.row.token + 1))
    else v
  }

  /** Contention: hand the run back to its queue if nobody owns it. */
  function LeaseBusyStep(v: View): View {
    if !v.exec.stage.Dispatched? then v
    else if v.exec.kind.PlanExec? && v.row.status.Fetching? && !v.row.leased then Write(v, Pending, Gone)
    else if v.exec.kind.ApplyExec? && (v.row.status.Confirmed? || v.row.status.ApplyQueued?) && !v.row.leased then
      Write(v, Confirmed, Gone)
    else At(v, Gone)
  }

  function RenewLeaseStep(now: int, v: View, until: int): View {
    if Live(now, v) && LiveOnSpace(now, v) then Granted(v, v.exec.token, until) else v
  }

  /** The release clears both rows or, when the workspace row moved on, neither. */
  function Released(v: View): View {
    if HasToken(v.exec) && v.row.leased && v.row.token == v.exec.token &&
       v.space.owner == OwnedBy(v.exec.run, v.exec.token) then
      v.(row := v.row.(leased := false), space := v.space.(owner := Nobody))
    else v
  }

  /** At the end of the work. A renewal that comes back after the local watchdog has given the
      lease up is released at once, too, while the executor is still winding down. */
  function ReleaseLeaseStep(v: View): View {
    if v.exec.stage.Done? then At(Released(v), Gone) else v
  }

  function LoadStep(v: View): View {
    var x := v.exec.(loaded := v.row.status);
    if !v.exec.stage.Leased? then v
    else match v.exec.kind
      case PlanExec => v.(exec := x.(stage := if IsFinal(v.row.status) then Done else PlanEntry))
      case ApplyExec => v.(exec := x.(stage := if IsCanceled(v.row.status) then Done else Loaded))
      case RecoveryExec => v
  }

  function PublishStep(now: int, v: View, to: Status): View {
    var stage := PublishStage(v.exec, v.row, to);
    if !stage.Gone? && Live(now, v) && WriteLegal(v.row.status, to) then Write(v, to, stage) else v
  }

  /** Executor-policy rejection at plan entry: compares with the loaded status. */
  function RejectPlanStep(now: int, v: View): View {
    if v.exec.stage.PlanEntry? && Live(now, v) && v.row.status == v.exec.loaded then Write(v, Errored, Done) else v
  }

  /** The error fence around a whole plan or apply. */
  function FenceStep(now: int, v: View): View {
    var atEnd := match v.exec.kind
      case PlanExec => InPlanPhase(v.exec)
      case ApplyExec => v.exec.stage.Done?
      case RecoveryExec => false;
    if atEnd && Live(now, v) && !FenceSpares(v.exec.kind, v.row.status) then Write(v, Errored, Done) else v
  }

  function RequeueStep(now: int, v: View): View {
    if v.exec.kind.RecoveryExec? && v.exec.stage.Leased? && IsRequeuable(v.exec.loaded) && Live(now, v) &&
       v.row.status == v.exec.loaded then
      Write(v, Pending, Done)
    else v
  }

  function AcquireLockStep(now: int, v: View): View {
    if v.exec.stage.Loaded? && LiveOnSpace(now, v) && v.space.lock.Unlocked? then
      At(v, Locked).(space := v.space.(lock := RunHeld(v.exec.run)))
    else v
  }

  /** The lock deferral: back to confirmed if the row still has the loaded status. A run that
      was loaded as applying is thereby reopened. */
  function DeferStep(now: int, v: View): View {
    if v.exec.stage.Deferring? && Live(now, v) && v.row.status == v.exec.loaded && !IsFinal(v.exec.loaded) then
      var reopens := if v.exec.loaded.Applying? then 1 else 0;
      At(v, Done).(row := v.row.(status := Confirmed, reopened := v.row.reopened + reopens))
    else v
  }

  function SpawnPlanStep(now: int, v: View): View {
    if v.exec.stage.PlanReady? && Live(now, v) then At(v, PlanRunning).(row := v.row.(plans := v.row.plans + 1)) else v
  }

  function SpawnStep(now: int, v: View): View {
    if v.exec.stage.Started? && Live(now, v) then At(v, Spawned).(row := v.row.(spawns := v.row.spawns + 1)) else v
  }

  /** Release of the workspace lock, by the apply that finished or by recovery. */
  function ReleaseLockStep(now: int, v: View): View {
    var applySide := v.exec.loaded.ApplyQueued? || v.exec.loaded.Applying?;
    if !(v.exec.stage.Settled? || (v.exec.stage.Cleared? && applySide)) then v
    else if LiveOnSpace(now, v) && v.space.lock == RunHeld(v.exec.run) then
      At(v, Done).(space := v.space.(lock := Unlocked))
    else At(v, Done)
  }

  /** The database refuses the outcome of a started apply, its error write included. */
  function StoreFailedStep(now: int, v: View): View {
    if !v.exec.stage.Spawned? then v
    else if Live(now, v) && !IsFinal(v.row.status) then At(v, Settled).(row := v.row.(lost := v.row.lost + 1))
    else At(v, Settled)
  }

  predicate IsExecStep(step: Step) {
    || step.AcquireLease? || step.LeaseBusy? || step.RenewLease? || step.ReleaseLease? || step.DropLease? || step.Load?
    || step.Publish? || step.RejectPlan? || step.Fence? || step.Requeue? || step.AcquireLock? || step.Defer?
    || step.SpawnPlan? || step.Spawn? || step.AutoApply? || step.Move? || step.ReleaseLock? || step.StoreFailed?
  }

  /** An execution's step, as a change of its view. */
  function ExecStep(now: int, v: View, step: Step): (v2: View)
    requires IsExecStep(step)
    ensures SameRun(v.row, v2.row) && v2.exec.run == v.exec.run
  {
    match step
    case AcquireLease(_, until) => AcquireLeaseStep(now, v, until)
    case LeaseBusy(_) => LeaseBusyStep(v)
    case RenewLease(_, until) => RenewLeaseStep(now, v, until)
    case ReleaseLease(_) => ReleaseLeaseStep(v)
    case DropLease(_) => Released(v)
    case Load(_) => LoadStep(v)
    case Publish(_, to) => PublishStep(now, v, to)
    case RejectPlan(_) => RejectPlanStep(now, v)
    case Fence(_) => FenceStep(now, v)
    case Requeue(_) => RequeueStep(now, v)
    case AcquireLock(_) => AcquireLockStep(now, v)
    case Defer(_) => DeferStep(now, v)
    case SpawnPlan(_) => SpawnPlanStep(now, v)
    case Spawn(_) => SpawnStep(now, v)
    case AutoApply(_) =>
      if v.exec.stage.PlanCompleted? then v.(exec := v.exec.(kind := ApplyExec, stage := Leased)) else v
    case Move(_, stage) => if MoveAllowed(now, v, stage) then At(v, stage) else v
    case ReleaseLock(_) => ReleaseLockStep(now, v)
    case StoreFailed(_) => StoreFailedStep(now, v)
  }

  // ---- Steps of operators, pollers and reconcilers -----------------------------------------

  function SetStatus(s: State, r: RunId, to: Status): (t: State)
    requires Consistent(s) && r in s.runs
    ensures Consistent(t) && SameRows(s, t)
  {
    Put(s, r, s.runs[r].(status := to), SpaceOf(s, r))
  }

  /** The queue poller's claim; only a claim for local execution dispatches. */
  function ClaimStep(s: State, r: RunId, to: Status, e: ExecId): (t: State)
    requires Consistent(s) && r in s.runs
    ensures Consistent(t) && SameRows(s, t)
  {
    if !ClaimAllowed(s, r) then s
    else if to.Fetching? && e !in s.execs then
      Dispatch(SetStatus(s, r, Fetching), e, Exec(r, PlanExec, Dispatched, Fetching, 0))
    else if to.PlanQueued? || to.Unreachable? || to.Errored? then SetStatus(s, r, to)
    else s
  }

  function LaunchStep(s: State, r: RunId, launch: Launch, e: ExecId): (t: State)
    requires Consistent(s) && r in s.runs
    ensures Consistent(t) && SameRows(s, t)
  {
    if e !in s.execs && LaunchAllowed(s.runs[r], launch) then
      Dispatch(SetStatus(s, r, LaunchTarget(launch)), e, Exec(r, ApplyExec, Dispatched, LaunchTarget(launch), 0))
    else s
  }

  /** A reconciler's page read of an interrupted run. */
  function StartRecoveryStep(s: State, r: RunId, e: ExecId): (t: State)
    requires Consistent(s) && r in s.runs
    ensures Consistent(t) && SameRows(s, t)
  {
    var status := s.runs[r].status;
    if e !in s.execs && (IsRequeuable(status) || IsErrorAfterRestart(status)) then
      Dispatch(s, e, Exec(r, RecoveryExec, Dispatched, status, 0))
    else s
  }

  /** A reconciler's page reads: the run has ended and, by an earlier clock reading, has no
      live execution. That an even earlier page named the run as the lock's owner is not asked,
      and any number of reconcilers may have come to the decision. */
  function SweepReadStep(s: State, r: RunId, clock: int): State
    requires r in s.runs
  {
    var row := s.runs[r];
    if clock <= s.now && IsTerminal(row.status) && !(row.leased && clock < row.expires) then
      s.(sweeps := s.sweeps + {r})
    else s
  }

  function SweepWriteStep(s: State, r: RunId): (t: State)
    requires Consistent(s) && r in s.runs
    ensures Consistent(t) && SameRows(s, t)
  {
    if r in s.sweeps && SpaceOf(s, r).lock == RunHeld(r) then
      Put(s, r, s.runs[r], SpaceOf(s, r).(lock := Unlocked))
    else s
  }

  function ClearExpiredStep(s: State, r: RunId): (t: State)
    requires Consistent(s) && r in s.runs
    ensures Consistent(t) && SameRows(s, t)
  {
    var row, space := s.runs[r], SpaceOf(s, r);
    if !row.leased || s.now < row.expires then s
    else
      Put(s, r, row.(leased := false),
          if space.owner == OwnedBy(r, row.token) && space.expires <= s.now then space.(owner := Nobody) else space)
  }

  function UserLockStep(s: State, w: SpaceId, from: Lock, to: Lock): State
    requires w in s.spaces
  {
    if s.spaces[w].lock == from then s.(spaces := s.spaces[w := s.spaces[w].(lock := to)]) else s
  }

  function SystemNext(s: State, step: Step): (t: State)
    requires Consistent(s) && !IsExecStep(step)
    ensures Consistent(t) && SameRows(s, t)
  {
    match step
    case Tick(clock) => if s.now <= clock then s.(now := clock) else s
    case Claim(r, to, e) => if r in s.runs then ClaimStep(s, r, to, e) else s
    case ChangeRun(r, change) =>
      if r in s.runs && ChangeAllowed(s.runs[r], change) then
        Put(s, r, Changed(s.runs[r], change), SpaceOf(s, r))
      else s
    case LaunchApply(r, launch, e) => if r in s.runs then LaunchStep(s, r, launch, e) else s
    case StartRecovery(r, e) => if r in s.runs then StartRecoveryStep(s, r, e) else s
    case UserLock(w) => if w in s.spaces then UserLockStep(s, w, Unlocked, UserHeld) else s
    case UserUnlock(w) => if w in s.spaces then UserLockStep(s, w, UserHeld, Unlocked) else s
    case SweepRead(r, clock) => if r in s.runs then SweepReadStep(s, r, clock) else s
    case SweepWrite(r) => if r in s.runs then SweepWriteStep(s, r) else s
    case ClearExpired(r) => if r in s.runs then ClearExpiredStep(s, r) else s
    case _ => s
  }

  function ExecNext(s: State, step: Step): (t: State)
    requires Consistent(s) && IsExecStep(step)
    ensures Consistent(t) && SameRows(s, t)
  {
    if step.exec in s.execs then Install(s, step.exec, ExecStep(s.now, ViewOf(s, step.exec), step)) else s
  }

  /** One step; a step that is not enabled leaves the state alone. */
  function Next(s: State, step: Step): (t: State)
    requires Consistent(s)
    ensures Consistent(t) && SameRows(s, t)
  {
    if IsExecStep(step) then ExecNext(s, step) else SystemNext(s, step)
  }

  /** Every run is still pending, nothing is leased, locked for a run or executing. */
  ghost predicate Initial(s: State) {
    && Consistent(s)
    && s.execs == map[] && s.sweeps == {}
    && (forall r | r in s.runs ::
          && s.runs[r].status.Pending? && !s.runs[r].leased
          && s.runs[r].plans == 0 && s.runs[r].requeued == 0 && s.runs[r].spawns == 0 && s.runs[r].lost == 0
          && s.runs[r].reopened == 0)
    && (forall w | w in s.spaces :: s.spaces[w].owner.Nobody? && !s.spaces[w].lock.RunHeld?)
  }

  /** A whole run of the system: any steps in any order. */
  function Execute(s: State, steps: seq<Step>): (end: State)
    requires Consistent(s)
    ensures Consistent(end) && SameRows(s, end)
    decreases |steps|
  {
    if steps == [] then s
    else Execute(Next(s, steps[0]), steps[1..])
  }

  lemma {:induction false} ExecuteAppends(s: State, before: seq<Step>, after: seq<Step>)
    requires Consistent(s)
    ensures Execute(s, before + after) == Execute(Execute(s, before), after)
    decreases |before|
  {
    if before == [] {
      assert before + after == after;
    } else {
      assert (before + after)[1..] == before[1..] + after;
      ExecuteAppends(Next(s, before[0]), before[1..], after);
    }
  }

  /** At most one ordinary run of each workspace is in a blocking status. */
  ghost predicate OneOccupant(s: State) {
    forall q, r | q in s.runs && r in s.runs && s.runs[q].space == s.runs[r].space ::
      Occupies(s.runs[q], s.runs[q].space) && Occupies(s.runs[r], s.runs[r].space) ==> q == r
  }
}
