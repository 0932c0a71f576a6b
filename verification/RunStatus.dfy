/** The run status table: every status the backend can write, the legal edges
    between them, and the status sets the worker's guarded writes test. */
module RunStatus {

  datatype Status =
    | Pending | Fetching | FetchingCompleted | PrePlanRunning | PrePlanCompleted | Queuing | PlanQueued
    | Planning | Planned | CostEstimating | CostEstimated | PolicyChecking | PolicyOverride | PolicySoftFailed
    | PolicyChecked | PostPlanRunning | PostPlanCompleted | PlannedAndSaved | PlannedAndFinished | Confirmed
    | ApplyQueued | Applying | Applied | Errored | Canceled | Discarded | ForceCanceled | Unreachable

  /** The edges a live status shares: an error or an operator action can interrupt it. */
  predicate Interrupts(to: Status) {
    to.Errored? || to.Canceled? || to.Discarded? || to.ForceCanceled?
  }

  predicate CanTransition(from: Status, to: Status) {
    match from
    case Pending => Interrupts(to) || to.Fetching? || to.Unreachable?
    case Fetching => Interrupts(to) || to.FetchingCompleted?
    case FetchingCompleted => Interrupts(to) || to.PrePlanRunning?
    case PrePlanRunning => Interrupts(to) || to.PrePlanCompleted?
    case PrePlanCompleted => Interrupts(to) || to.Queuing?
    case Queuing => Interrupts(to) || to.PlanQueued?
    case PlanQueued => Interrupts(to) || to.Planning? || to.Pending?
    case Planning =>
      || Interrupts(to) || to.Planned? || to.PlannedAndSaved? || to.PlannedAndFinished?
      || to.PolicySoftFailed? || to.ApplyQueued?
    case Planned => Interrupts(to) || to.CostEstimating? || to.Confirmed? || to.ApplyQueued?
    case CostEstimating => Interrupts(to) || to.CostEstimated?
    case CostEstimated => Interrupts(to) || to.PolicyChecking?
    case PolicyChecking => Interrupts(to) || to.PolicyChecked? || to.PolicyOverride? || to.PolicySoftFailed?
    case PolicyOverride => Interrupts(to) || to.PolicySoftFailed?
    case PolicySoftFailed => Interrupts(to) || to.Planned?
    case PolicyChecked => Interrupts(to) || to.PostPlanRunning?
    case PostPlanRunning => Interrupts(to) || to.PostPlanCompleted?
    case PostPlanCompleted =>
      Interrupts(to) || to.Confirmed? || to.PlannedAndSaved? || to.PlannedAndFinished? || to.Planned?
    case PlannedAndSaved => Interrupts(to) || to.Confirmed? || to.ApplyQueued?
    case Confirmed => Interrupts(to) || to.ApplyQueued?
    case ApplyQueued => Interrupts(to) || to.Applying? || to.Pending?
    case Applying => Interrupts(to) || to.Applied?
    case Canceled => to.Pending?
    case _ => false
  }

  /** Statuses without outgoing edges. `Canceled` is not one of them. */
  predicate IsTerminal(s: Status) {
    s.Applied? || s.Errored? || s.Discarded? || s.ForceCanceled? || s.PlannedAndFinished? || s.Unreachable?
  }

  /** The worker's "has this run stopped" list: the terminal statuses and `Canceled`. */
  predicate IsFinal(s: Status) {
    IsTerminal(s) || s.Canceled?
  }

  predicate IsCanceled(s: Status) {
    s.Canceled? || s.ForceCanceled?
  }

  /** The five statuses that end a run for good. */
  predicate IsAbsorbing(s: Status) {
    s.Canceled? || s.ForceCanceled? || s.Applied? || s.Errored? || s.Discarded?
  }

  /** Statuses that keep other ordinary runs of the workspace in the queue. */
  predicate IsBlocking(s: Status) {
    !IsFinal(s) && !s.Pending? && !s.PlannedAndSaved?
  }

  predicate IsDiscardable(s: Status) {
    s.Pending? || s.Planned? || s.PlannedAndSaved? || s.PolicySoftFailed? || s.Unreachable?
  }

  /** Statuses a run has before its plan starts. */
  predicate IsBeforePlanning(s: Status) {
    || s.Pending? || s.Fetching? || s.FetchingCompleted? || s.PrePlanRunning? || s.PrePlanCompleted? || s.Queuing?
    || s.PlanQueued?
  }

  /** Interrupted statuses from which no side effect can have fired. */
  predicate IsRequeuable(s: Status) {
    s.Fetching? || s.FetchingCompleted? || s.Queuing? || s.PlanQueued?
  }

  /** Interrupted statuses that a restart turns into an error. */
  predicate IsErrorAfterRestart(s: Status) {
    || s.PrePlanRunning? || s.PrePlanCompleted? || s.Planning? || s.CostEstimating? || s.CostEstimated?
    || s.PolicyChecking? || s.PolicyOverride? || s.PolicyChecked? || s.PostPlanRunning?
    || s.PostPlanCompleted? || s.ApplyQueued? || s.Applying?
  }

  // ---- The table, as it is written ----------------------------------------------------------------

  const INTERRUPTS := {Errored, Canceled, Discarded, ForceCanceled}

  /** The legal targets of each status. */
  function Targets(from: Status): set<Status> {
    match from
    case Pending => {Fetching, Unreachable} + INTERRUPTS
    case Fetching => {FetchingCompleted} + INTERRUPTS
    case FetchingCompleted => {PrePlanRunning} + INTERRUPTS
    case PrePlanRunning => {PrePlanCompleted} + INTERRUPTS
    case PrePlanCompleted => {Queuing} + INTERRUPTS
    case Queuing => {PlanQueued} + INTERRUPTS
    case PlanQueued => {Planning, Pending} + INTERRUPTS
    case Planning => {Planned, PlannedAndSaved, PlannedAndFinished, PolicySoftFailed, ApplyQueued} + INTERRUPTS
    case Planned => {CostEstimating, Confirmed, ApplyQueued} + INTERRUPTS
    case CostEstimating => {CostEstimated} + INTERRUPTS
    case CostEstimated => {PolicyChecking} + INTERRUPTS
    case PolicyChecking => {PolicyChecked, PolicyOverride, PolicySoftFailed} + INTERRUPTS
    case PolicyOverride => {PolicySoftFailed} + INTERRUPTS
    case PolicySoftFailed => {Planned} + INTERRUPTS
    case PolicyChecked => {PostPlanRunning} + INTERRUPTS
    case PostPlanRunning => {PostPlanCompleted} + INTERRUPTS
    case PostPlanCompleted => {Confirmed, PlannedAndSaved, PlannedAndFinished, Planned} + INTERRUPTS
    case PlannedAndSaved => {Confirmed, ApplyQueued} + INTERRUPTS
    case Confirmed => {ApplyQueued} + INTERRUPTS
    case ApplyQueued => {Applying, Pending} + INTERRUPTS
    case Applying => {Applied} + INTERRUPTS
    case Canceled => {Pending}
    case _ => {}
  }

  /** An edge is legal exactly if the table has it. */
  lemma TableMeans(from: Status, to: Status)
    ensures CanTransition(from, to) <==> to in Targets(from)
  {
    assert Interrupts(to) <==> to in INTERRUPTS;
  }

  /** The terminal statuses are those without any edge, and every other status but the canceled one
      can be interrupted. */
  lemma TerminalMeans(from: Status)
    ensures IsTerminal(from) <==> forall s :: !CanTransition(from, s)
    ensures IsFinal(from) <==> forall s :: Interrupts(s) ==> !CanTransition(from, s)
  {
    assert IsTerminal(from) || CanTransition(from, if from == Canceled then Pending else Errored);
    if !IsFinal(from) { assert Interrupts(Errored) && CanTransition(from, Errored); }
  }

  /** A status keeps others in the queue exactly from the claim on until the run is over or saved. */
  lemma BlockingMeans(s: Status)
    ensures IsBlocking(s) <==>
            s !in {Pending, PlannedAndSaved, Applied, Errored, Discarded, Canceled, ForceCanceled, PlannedAndFinished,
                   Unreachable}
  {
  }

  /** What a restart makes of an interrupted run: nothing can have happened before the run tasks and
      between them and the plan; where a run waits for a user it is left alone; all else is an error. */
  lemma RestartMeans(s: Status)
    ensures IsRequeuable(s) <==> s in {Fetching, FetchingCompleted, Queuing, PlanQueued}
    ensures IsErrorAfterRestart(s) <==>
            IsBlocking(s) && !IsRequeuable(s) && s !in {Planned, PolicySoftFailed, Confirmed}
    ensures IsBeforePlanning(s) <==> s in {Pending, PrePlanRunning, PrePlanCompleted} || IsRequeuable(s)
  {
  }

  lemma OperatorStatusesMean(s: Status)
    ensures IsDiscardable(s) <==> s in {Pending, Planned, PlannedAndSaved, PolicySoftFailed, Unreachable}
    ensures IsAbsorbing(s) <==> Interrupts(s) || s == Applied
    ensures IsCanceled(s) <==> s in {Canceled, ForceCanceled}
  {
  }
}
