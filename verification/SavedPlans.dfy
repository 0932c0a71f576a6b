/** Saved plans: two files written through temporaries and two renames, and what a later apply
    restores from them, wherever a crash or another writer comes in between. */
module SavedPlans {
  import opened Options

  type Bytes = seq<nat>

  /** A checksum, taken to tell all contents apart. */
  datatype Digest = Digest(of: Bytes)

  function Hash(b: Bytes): Digest {
    Digest(b)
  }

  datatype Metadata = Metadata(sha256: Digest, stateId: Option<nat>, stateSerial: int, configuration: Option<nat>)

  /** The plan file: sealed by the secret store, plain (of an older release), or unreadable. */
  datatype PlanFile = Sealed(bytes: Bytes) | PlainBytes(bytes: Bytes) | Unreadable

  /** The metadata file: well formed or not. */
  datatype MetadataFile = Complete(metadata: Metadata) | Malformed

  /** One planning: what persistSavedPlan was called with. */
  datatype Planning = Planning(bytes: Bytes, stateId: Option<nat>, stateSerial: int, configuration: Option<nat>)

  function MetadataOf(p: Planning): Metadata {
    Metadata(Hash(p.bytes), p.stateId, p.stateSerial, p.configuration)
  }

  /** How far a planning has got: temporaries written, plan renamed, metadata renamed. */
  datatype Progress = Fresh | PlanWritten | BothWritten | PlanRenamed | Finished | Aborted

  datatype Job = Job(planning: Planning, progress: Progress)

  /** A run's saved-plan directory and the plannings that write to it. */
  datatype State = State(plan: Option<PlanFile>, metadata: Option<MetadataFile>, jobs: map<nat, Job>)

  datatype Step =
    | Begin(job: nat, planning: Planning)
    | Advance(job: nat)
    | Abort(job: nat)                       // a write or rename throws, or the fence refuses
    | TearPlan(left: PlanFile)              // a crash leaves something else of the plan file
    | TearMetadata                          // ...or a metadata file that does not parse
    | Cleanup

  /** The next step of a planning: two temporaries, then the renames in this order. */
  function AdvanceStep(s: State, j: nat): State
    requires j in s.jobs
  {
    var p := s.jobs[j].planning;
    match s.jobs[j].progress
    case Fresh => s.(jobs := s.jobs[j := Job(p, PlanWritten)])
    case PlanWritten => s.(jobs := s.jobs[j := Job(p, BothWritten)])
    case BothWritten => s.(jobs := s.jobs[j := Job(p, PlanRenamed)], plan := Some(Sealed(p.bytes)))
    case PlanRenamed => s.(jobs := s.jobs[j := Job(p, Finished)], metadata := Some(Complete(MetadataOf(p))))
    case _ => s
  }

  function Next(s: State, step: Step): State {
    match step
    case Begin(j, p) => if j in s.jobs then s else s.(jobs := s.jobs[j := Job(p, Fresh)])
    case Advance(j) => if j in s.jobs then AdvanceStep(s, j) else s
    case Abort(j) => if j in s.jobs then s.(jobs := s.jobs[j := Job(s.jobs[j].planning, Aborted)]) else s
    case TearPlan(left) => if s.plan.Some? then s.(plan := Some(left)) else s
    case TearMetadata => if s.metadata.Some? then s.(metadata := Some(Malformed)) else s
    case Cleanup => s.(plan := None, metadata := None)
  }

  function Execute(s: State, steps: seq<Step>): State
    decreases |steps|
  {
    if steps == [] then s else Execute(Next(s, steps[0]), steps[1..])
  }

  predicate Initial(s: State) {
    s.plan.None? && s.metadata.None? && s.jobs == map[]
  }

  // ---- Restoring --------------------------------------------------------------------------------

  datatype Restored = Nothing | Failed | Plan(bytes: Bytes, metadata: Metadata)

  /** The metadata is read first and the plan file later; others may write in between. */
  function Restore(metadata: Option<MetadataFile>, plan: Option<PlanFile>): Restored {
    if metadata.None? then Nothing
    else if metadata.value.Malformed? then Failed
    else if plan.None? then Nothing
    else if plan.value.Unreadable? then Failed
    else if Hash(plan.value.bytes) != metadata.value.metadata.sha256 then Failed
    else Plan(plan.value.bytes, metadata.value.metadata)
  }

  /** The checks an apply makes before it uses the restored plan. */
  predicate AppliesTo(r: Restored, configuration: Option<nat>, stateId: Option<nat>, stateSerial: int) {
    && r.Plan? && r.metadata.configuration == configuration
    && r.metadata.stateSerial == stateSerial && r.metadata.stateId == stateId
  }

  // ---- What a restore can yield ---------------------------------------------------------------------

  /** Complete metadata belongs to a planning. */
  ghost predicate Inv(s: State) {
    s.metadata.Some? && s.metadata.value.Complete? ==>
      exists j :: j in s.jobs && MetadataOf(s.jobs[j].planning) == s.metadata.value.metadata
  }

  ghost predicate Extends(s: State, t: State) {
    forall j :: j in s.jobs ==> j in t.jobs && t.jobs[j].planning == s.jobs[j].planning
  }

  lemma NextKeepsInv(s: State, step: Step)
    requires Inv(s)
    ensures Inv(Next(s, step)) && Extends(s, Next(s, step))
  {
    var t := Next(s, step);
    assert Extends(s, t);
    if t.metadata == s.metadata && t.metadata.Some? && t.metadata.value.Complete? {
      var j :| j in s.jobs && MetadataOf(s.jobs[j].planning) == s.metadata.value.metadata;
      assert j in t.jobs;
    }
  }

  lemma {:induction false} ExecuteKeepsInv(s: State, steps: seq<Step>)
    requires Inv(s)
    ensures Inv(Execute(s, steps)) && Extends(s, Execute(s, steps))
    decreases |steps|
  {
    if steps != [] {
      NextKeepsInv(s, steps[0]);
      ExecuteKeepsInv(Next(s, steps[0]), steps[1..]);
    }
  }

  /** However plannings, crashes, torn files and cleanups interleave, and whatever happens between
      the two reads: a restore yields nothing, fails, or yields exactly the bytes that one
      planning hashed, with that planning's metadata. */
  lemma RestoreYieldsAPlanning(s: State, before: seq<Step>, between: seq<Step>)
    requires Initial(s)
    ensures var first := Execute(s, before);
      var r := Restore(first.metadata, Execute(first, between).plan);
      r.Plan? ==>
        exists j ::
          j in first.jobs && first.jobs[j].planning.bytes == r.bytes && MetadataOf(first.jobs[j].planning) == r.metadata
  {
    var first := Execute(s, before);
    ExecuteKeepsInv(s, before);
    var r := Restore(first.metadata, Execute(first, between).plan);
    if r.Plan? {
      var j :| j in first.jobs && MetadataOf(first.jobs[j].planning) == first.metadata.value.metadata;
      assert Hash(first.jobs[j].planning.bytes) == Hash(r.bytes);
    }
  }

  /** So an apply that passes the restore stage uses the plan of one planning, made for the run's
      configuration version and for the very state that is current. */
  lemma AppliedPlanIsCurrent(s: State, before: seq<Step>, between: seq<Step>, configuration: Option<nat>,
                             stateId: Option<nat>, serial: int)
    requires Initial(s)
    requires AppliesTo(Restore(Execute(s, before).metadata, Execute(Execute(s, before), between).plan), configuration,
                       stateId, serial)
    ensures var first := Execute(s, before);
      exists j :: j in first.jobs
        && first.jobs[j].planning ==
           Planning(Restore(first.metadata, Execute(first, between).plan).bytes, stateId, serial, configuration)
  {
    RestoreYieldsAPlanning(s, before, between);
  }

  // ---- Crash points of one planning --------------------------------------------------------------------

  function Advanced(s: State, j: nat, n: nat): (t: State)
    requires j in s.jobs
    ensures j in t.jobs
  {
    if n == 0 then s else AdvanceStep(Advanced(s, j, n - 1), j)
  }

  /** What is restored if the planning stopped for good after `n` of its steps, over whatever was
      there: up to the first rename the earlier plan; between the renames nothing or a failure,
      unless the new bytes are the very bytes of the earlier plan; then the new plan. */
  lemma CrashPoints(s: State, j: nat, n: nat)
    requires j in s.jobs && s.jobs[j].progress.Fresh? && n <= 4
    ensures var t, p := Advanced(s, j, n), s.jobs[j].planning;
      Restore(t.metadata, t.plan) ==
      if n < 3 then Restore(s.metadata, s.plan)
      else if n == 4 then Plan(p.bytes, MetadataOf(p))
      else if s.metadata.None? then Nothing
      else if s.metadata.value.Complete? && s.metadata.value.metadata.sha256 == Hash(p.bytes) then
        Plan(p.bytes, s.metadata.value.metadata)
      else Failed
  {
    var t1 := AdvanceStep(s, j);
    var t2 := AdvanceStep(t1, j);
    var t3 := AdvanceStep(t2, j);
    assert Advanced(s, j, 0) == s;
    assert Advanced(s, j, 1) == t1;
    assert Advanced(s, j, 2) == t2;
    assert Advanced(s, j, 3) == t3;
  }

  // ---- A planning that goes well -----------------------------------------------------------------------

  /** The step does not abort the planning, write over its files or damage them. */
  predicate Spares(step: Step, j: nat) {
    match step
    case Advance(k) => k == j
    case Abort(k) => k != j
    case TearPlan(_) => false
    case TearMetadata => false
    case Cleanup => false
    case Begin(_, _) => true
  }

  function Advances(steps: seq<Step>, j: nat): nat {
    if steps == [] then 0 else (if steps[0] == Advance(j) then 1 else 0) + Advances(steps[1..], j)
  }

  /** The steps the planning has to go, and what it has left behind so far. */
  function ToGo(progress: Progress): nat {
    match progress
    case Fresh => 4
    case PlanWritten => 3
    case BothWritten => 2
    case PlanRenamed => 1
    case _ => 0
  }

  predicate OnTheWay(s: State, j: nat, p: Planning) {
    && j in s.jobs && s.jobs[j].planning == p && !s.jobs[j].progress.Aborted?
    && (ToGo(s.jobs[j].progress) <= 1 ==> s.plan == Some(Sealed(p.bytes)))
    && (ToGo(s.jobs[j].progress) == 0 ==> s.metadata == Some(Complete(MetadataOf(p))))
  }

  lemma {:induction false} PlanningProceeds(s: State, steps: seq<Step>, j: nat, p: Planning)
    requires OnTheWay(s, j, p) && forall k | 0 <= k < |steps| :: Spares(steps[k], j)
    requires Advances(steps, j) >= ToGo(s.jobs[j].progress)
    ensures OnTheWay(Execute(s, steps), j, p) && Execute(s, steps).jobs[j].progress.Finished?
    decreases |steps|
  {
    if steps != [] {
      assert Spares(steps[0], j);
      PlanningProceeds(Next(s, steps[0]), steps[1..], j, p);
    }
  }

  /** A planning that gets its four steps, with nobody damaging or replacing its files, is restored
      with its bytes; and an apply accepts what is restored exactly for the planning's configuration
      version and for the state it was made against. */
  lemma {:induction false} FinishedPlanIsApplied(s: State, j: nat, p: Planning, steps: seq<Step>,
                                                 configuration: Option<nat>, stateId: Option<nat>, serial: int)
    requires j !in s.jobs && (forall k | 0 <= k < |steps| :: Spares(steps[k], j)) && Advances(steps, j) >= 4
    ensures var t := Execute(Next(s, Begin(j, p)), steps);
      && Restore(t.metadata, t.plan) == Plan(p.bytes, MetadataOf(p))
      && (AppliesTo(Restore(t.metadata, t.plan), configuration, stateId, serial) <==>
            configuration == p.configuration && stateId == p.stateId && serial == p.stateSerial)
  {
    PlanningProceeds(Next(s, Begin(j, p)), steps, j, p);
  }

  /** What damage does: after a cleanup there is nothing to restore; torn metadata fails; of a torn
      plan only what hashes like the planned bytes is restored, and those bytes it is. */
  lemma DamageIsFound(s: State, left: PlanFile, m: Metadata)
    requires s.plan.Some? && s.metadata == Some(Complete(m))
    ensures var t := Next(s, Cleanup); Restore(t.metadata, t.plan).Nothing?
    ensures var t := Next(s, TearMetadata); Restore(t.metadata, t.plan).Failed?
    ensures var t := Next(s, TearPlan(left));
      Restore(t.metadata, t.plan) ==
      if !left.Unreadable? && Hash(left.bytes) == m.sha256 then Plan(left.bytes, m) else Failed
  {
  }

  /** A planning that was aborted writes nothing any more. */
  lemma AbortedWritesNothing(s: State, j: nat, step: Step)
    requires j in s.jobs && s.jobs[j].progress.Aborted? && (step == Advance(j) || step == Abort(j))
    ensures Next(s, step) == s
  {
    assert s.jobs[j := Job(s.jobs[j].planning, Aborted)] == s.jobs;
  }

  lemma AbortStops(s: State, j: nat)
    requires j in s.jobs
    ensures var t := Next(s, Abort(j));
      t.jobs[j].progress.Aborted? && t.plan == s.plan && t.metadata == s.metadata && Next(t, Advance(j)) == t
  {
  }
}
