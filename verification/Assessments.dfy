/** Health assessments under a coordinator lease: polls that count before they claim,
    executors that publish behind an epoch fence, and takeovers in between. */
module Assessments {
  import opened Options

  type Id = nat
  type Node = nat
  type Epoch = nat

  datatype Status = Pending | Running | Completed | Errored | Canceled

  /** The coordinator lease row; every acquisition raises the epoch. */
  datatype Lease = Lease(owner: Node, epoch: Epoch, live: bool)

  /** A poll: how many claims its count left it, and the epoch its node led when it counted, if
      it led one. */
  datatype Poll = Poll(node: Node, remaining: nat, counted: Option<Epoch>)

  /** An execution of a claimed assessment, with the epoch of its claim. */
  datatype Exec = Exec(id: Id, node: Node, epoch: Epoch)

  /** A published outcome; `author` is the epoch of the executor that published it, if one did. */
  datatype Outcome = Outcome(id: Id, status: Status, author: Option<Epoch>, current: Epoch)

  /** `leads` is each node's own belief; `polls` holds the unfinished poll of each node, as a
      node's polls queue behind one another. `stale` counts the claims made in an epoch that
      their poll's count was not made in. */
  datatype State = State(maximum: nat, lease: Lease, leads: map<Node, Epoch>, assessments: map<Id, Status>,
                         polls: map<Node, Poll>, execs: map<nat, Exec>, outcomes: seq<Outcome>, stale: nat)

  datatype Step =
    | Discover(id: Id)
    | Acquire(node: Node)
    | Expire
    | Notice(node: Node)                   // the node learns that it lost the lease
    | StartPoll(node: Node)
    | Claim(node: Node, id: Id, exec: nat)
    | EndPoll(node: Node)
    | Publish(exec: nat, status: Status)   // completed, errored, or canceled by an ordinary run
    | UserCancel(id: Id)
    | Reconcile(id: Id)                    // a new coordinator errors what it finds running

  function RunningIds(assessments: map<Id, Status>): set<Id> {
    set i | i in assessments && assessments[i].Running?
  }

  /** The fence inside a transaction: the lease is live, and the node's in this epoch. */
  predicate Fenced(s: State, node: Node, epoch: Epoch) {
    s.lease == Lease(node, epoch, true)
  }

  predicate IsOutcome(status: Status) {
    status.Completed? || status.Errored? || status.Canceled?
  }

  function Settle(s: State, id: Id, status: Status, author: Option<Epoch>): State {
    s.(assessments := s.assessments[id := status],
       outcomes := s.outcomes + [Outcome(id, status, author, s.lease.epoch)])
  }

  /** Counting what runs, for a poll that may then claim up to the rest. Nobody asks whether the
      node leads: a slow discovery may have outlasted its lease. */
  function StartPollStep(s: State, node: Node): State {
    if node !in s.polls then
      var running := |RunningIds(s.assessments)|;
      var available := if running < s.maximum then s.maximum - running else 0;
      s.(polls := s.polls[node := Poll(node, available, if node in s.leads then Some(s.leads[node]) else None)])
    else s
  }

  predicate ClaimSucceeds(s: State, node: Node, id: Id, exec: nat) {
    && node in s.polls && s.polls[node].remaining > 0 && node in s.leads && Fenced(s, node, s.leads[node])
    && id in s.assessments && s.assessments[id].Pending? && exec !in s.execs
  }

  /** The claim reads the node's epoch anew, and fences with that one. */
  function ClaimStep(s: State, node: Node, id: Id, exec: nat): State {
    if ClaimSucceeds(s, node, id, exec) then
      var poll := s.polls[node];
      s.(polls := s.polls[node := poll.(remaining := poll.remaining - 1)],
         assessments := s.assessments[id := Running],
         execs := s.execs[exec := Exec(id, node, s.leads[node])],
         stale := s.stale + if poll.counted == Some(s.leads[node]) then 0 else 1)
    else s
  }

  function PublishStep(s: State, exec: nat, status: Status): State {
    if exec in s.execs && IsOutcome(status) then
      var x := s.execs[exec];
      if Fenced(s, x.node, x.epoch) && x.id in s.assessments && s.assessments[x.id].Running? then
        Settle(s, x.id, status, Some(x.epoch))
      else s
    else s
  }

  function Next(s: State, step: Step): State {
    match step
    case Discover(id) => if id in s.assessments then s else s.(assessments := s.assessments[id := Pending])
    case Acquire(node) =>
      if s.lease.live then s
      else s.(lease := Lease(node, s.lease.epoch + 1, true), leads := s.leads[node := s.lease.epoch + 1])
    case Expire => s.(lease := s.lease.(live := false))
    case Notice(node) => s.(leads := s.leads - {node})
    case StartPoll(node) => StartPollStep(s, node)
    case Claim(node, id, exec) => ClaimStep(s, node, id, exec)
    case EndPoll(node) => s.(polls := s.polls - {node})
    case Publish(exec, status) => PublishStep(s, exec, status)
    case UserCancel(id) =>
      if id in s.assessments && !IsOutcome(s.assessments[id]) then Settle(s, id, Canceled, None) else s
    case Reconcile(id) =>
      if id in s.assessments && s.assessments[id].Running? then Settle(s, id, Errored, None) else s
  }

  function Execute(s: State, steps: seq<Step>): State
    decreases |steps|
  {
    if steps == [] then s else Execute(Next(s, steps[0]), steps[1..])
  }

  predicate Initial(s: State) {
    && s.assessments == map[] && s.polls == map[] && s.execs == map[] && s.leads == map[]
    && s.outcomes == [] && s.stale == 0 && !s.lease.live
  }

  // ---- Concurrency ---------------------------------------------------------------------------------

  /** The poll of the lease's owner, counted in its epoch, has room for what it may still claim. */
  predicate RoomLeft(s: State) {
    var node := s.lease.owner;
    node in s.polls && s.polls[node].counted == Some(s.lease.epoch) ==>
      |RunningIds(s.assessments)| + s.polls[node].remaining <= s.maximum + s.stale
  }

  ghost predicate Bounded(s: State) {
    && |RunningIds(s.assessments)| <= s.maximum + s.stale && RoomLeft(s)
    && (forall n :: n in s.leads ==> s.leads[n] <= s.lease.epoch)
    && (forall n :: n in s.polls && s.polls[n].counted.Some? ==> s.polls[n].counted.value <= s.lease.epoch)
  }

  lemma RunningAfter(m: map<Id, Status>, id: Id, status: Status)
    ensures var before, after := RunningIds(m), RunningIds(m[id := status]);
      |after| == |before| + (if status.Running? && id !in before then 1 else 0)
                 - (if !status.Running? && id in before then 1 else 0)
  {
    var before, after := RunningIds(m), RunningIds(m[id := status]);
    if status.Running? {
      assert after == before + {id};
    } else {
      assert after == before - {id};
    }
  }

  lemma NextKeepsBound(s: State, step: Step)
    requires Bounded(s)
    ensures Bounded(Next(s, step))
  {
    match step
    case Discover(id) => RunningAfter(s.assessments, id, Pending);
    case Claim(node, id, exec) => RunningAfter(s.assessments, id, Running);
    case Publish(exec, status) => if exec in s.execs { RunningAfter(s.assessments, s.execs[exec].id, status); }
    case UserCancel(id) => RunningAfter(s.assessments, id, Canceled);
    case Reconcile(id) => RunningAfter(s.assessments, id, Errored);
    case _ =>
  }

  lemma {:induction false} ExecuteKeepsBound(s: State, steps: seq<Step>)
    requires Bounded(s)
    ensures Bounded(Execute(s, steps))
    decreases |steps|
  {
    if steps != [] {
      NextKeepsBound(s, steps[0]);
      ExecuteKeepsBound(Next(s, steps[0]), steps[1..]);
    }
  }

  /** Across any number of leader changes, the rows in `running` exceed the limit at most by the
      claims that were made in an epoch that their poll's count was not made in: not at all, if every poll
      claims in the epoch it counted in. */
  lemma RunningIsBounded(s: State, steps: seq<Step>)
    requires Initial(s)
    ensures |RunningIds(Execute(s, steps).assessments)| <= s.maximum + Execute(s, steps).stale
    ensures Execute(s, steps).maximum == s.maximum
  {
    assert RunningIds(s.assessments) == {};
    ExecuteKeepsBound(s, steps);
    MaximumKept(s, steps);
  }

  lemma {:induction false} MaximumKept(s: State, steps: seq<Step>)
    ensures Execute(s, steps).maximum == s.maximum
    decreases |steps|
  {
    if steps != [] { MaximumKept(Next(s, steps[0]), steps[1..]); }
  }

  // ---- The limit, exactly ------------------------------------------------------------------------------

  ghost predicate WithinLimit(s: State) {
    |RunningIds(s.assessments)| <= s.maximum
  }

  /** The owner's poll, if counted in the current epoch, has room for what it may still claim. */
  ghost predicate Roomy(s: State) {
    && WithinLimit(s)
    && (var node := s.lease.owner;
        node in s.polls && s.polls[node].counted == Some(s.lease.epoch) ==>
          |RunningIds(s.assessments)| + s.polls[node].remaining <= s.maximum)
    && (forall n :: n in s.leads ==> s.leads[n] <= s.lease.epoch)
    && (forall n :: n in s.polls && s.polls[n].counted.Some? ==> s.polls[n].counted.value <= s.lease.epoch)
  }

  /** A claim by a poll that counted in another epoch, with as many running as may. */
  ghost predicate ExceedsLimit(s: State, step: Step) {
    && step.Claim? && ClaimSucceeds(s, step.node, step.id, step.exec)
    && s.polls[step.node].counted != Some(s.leads[step.node]) && |RunningIds(s.assessments)| == s.maximum
  }

  lemma NoExcessKeepsRoom(s: State, step: Step)
    requires Roomy(s) && !ExceedsLimit(s, step)
    ensures Roomy(Next(s, step))
  {
    match step
    case Discover(id) => RunningAfter(s.assessments, id, Pending);
    case Claim(node, id, exec) => RunningAfter(s.assessments, id, Running);
    case Publish(exec, status) => if exec in s.execs { RunningAfter(s.assessments, s.execs[exec].id, status); }
    case UserCancel(id) => RunningAfter(s.assessments, id, Canceled);
    case Reconcile(id) => RunningAfter(s.assessments, id, Errored);
    case _ =>
  }

  /** A step takes the running assessments above the limit exactly if it is a claim that passes
      its fence in another epoch than its poll's count, with the limit already reached. */
  lemma {:induction false} LimitExceededExactly(s: State, step: Step)
    requires Roomy(s)
    ensures WithinLimit(Next(s, step)) <==> !ExceedsLimit(s, step)
  {
    if ExceedsLimit(s, step) {
      RunningAfter(s.assessments, step.id, Running);
    } else {
      NoExcessKeepsRoom(s, step);
    }
  }

  ghost predicate AlwaysWithinLimit(s: State, steps: seq<Step>)
    decreases |steps|
  {
    WithinLimit(s) && (steps != [] ==> AlwaysWithinLimit(Next(s, steps[0]), steps[1..]))
  }

  ghost predicate NeverExceedsLimit(s: State, steps: seq<Step>)
    decreases |steps|
  {
    steps != [] ==> !ExceedsLimit(s, steps[0]) && NeverExceedsLimit(Next(s, steps[0]), steps[1..])
  }

  lemma {:induction false} LimitOverSteps(s: State, steps: seq<Step>)
    requires Roomy(s)
    ensures AlwaysWithinLimit(s, steps) <==> NeverExceedsLimit(s, steps)
    decreases |steps|
  {
    if steps != [] {
      LimitExceededExactly(s, steps[0]);
      if !ExceedsLimit(s, steps[0]) {
        NoExcessKeepsRoom(s, steps[0]);
        LimitOverSteps(Next(s, steps[0]), steps[1..]);
      } else {
        assert !AlwaysWithinLimit(Next(s, steps[0]), steps[1..]);
      }
    }
  }

  /** Over every run of the queue, across any number of leader changes: the limit is kept at
      every moment exactly if no claim is made at the limit on the strength of another epoch's
      count. */
  lemma {:induction false} LimitKeptExactly(s: State, steps: seq<Step>)
    requires Initial(s)
    ensures AlwaysWithinLimit(s, steps) <==> NeverExceedsLimit(s, steps)
  {
    assert RunningIds(s.assessments) == {};
    LimitOverSteps(s, steps);
  }

  // ---- Outcomes ---------------------------------------------------------------------------------------

  /** Outcomes are final, single, and an executor's only in its own epoch. */
  ghost predicate OutcomesOk(s: State) {
    && (forall i :: 0 <= i < |s.outcomes| ==>
          && s.outcomes[i].id in s.assessments && s.assessments[s.outcomes[i].id] == s.outcomes[i].status
          && IsOutcome(s.outcomes[i].status)
          && (s.outcomes[i].author.Some? ==> s.outcomes[i].author.value == s.outcomes[i].current))
    && (forall i, j :: 0 <= i < j < |s.outcomes| ==> s.outcomes[i].id != s.outcomes[j].id)
  }

  lemma NextKeepsOutcomes(s: State, step: Step)
    requires OutcomesOk(s)
    ensures OutcomesOk(Next(s, step))
  {
  }

  lemma {:induction false} ExecuteKeepsOutcomes(s: State, steps: seq<Step>)
    requires OutcomesOk(s)
    ensures OutcomesOk(Execute(s, steps))
    decreases |steps|
  {
    if steps != [] {
      NextKeepsOutcomes(s, steps[0]);
      ExecuteKeepsOutcomes(Next(s, steps[0]), steps[1..]);
    }
  }

  /** Each assessment gets at most one outcome, which stays, and an executor of an older epoch
      never publishes one. */
  lemma OneOutcome(s: State, steps: seq<Step>, i: nat, j: nat)
    requires Initial(s) && i < |Execute(s, steps).outcomes| && j < |Execute(s, steps).outcomes|
    ensures var end := Execute(s, steps);
      && (i != j ==> end.outcomes[i].id != end.outcomes[j].id)
      && end.outcomes[i].id in end.assessments && end.assessments[end.outcomes[i].id] == end.outcomes[i].status
      && (end.outcomes[i].author.Some? ==> end.outcomes[i].author.value == end.outcomes[i].current)
  {
    ExecuteKeepsOutcomes(s, steps);
  }

  /** What settles an assessment: its executor, a user or a new coordinator. */
  predicate Settles(s: State, step: Step, id: Id, status: Status, author: Option<Epoch>) {
    && id in s.assessments
    && match step
       case Publish(exec, outcome) =>
         && exec in s.execs && s.execs[exec].id == id && s.assessments[id] == Running
         && s.lease.live && s.lease.owner == s.execs[exec].node && s.lease.epoch == s.execs[exec].epoch
         && outcome in [Completed, Errored, Canceled] && status == outcome && author == Some(s.lease.epoch)
       case UserCancel(i) => i == id && s.assessments[id] in [Pending, Running] && status == Canceled && author.None?
       case Reconcile(i) => i == id && s.assessments[id] == Running && status == Errored && author.None?
       case _ => false
  }

  /** An outcome is recorded, and the assessment's status written, exactly if its executor still has
      the live lease of its epoch while the assessment runs, a user cancels it before its end, or a
      new coordinator finds it running. */
  lemma {:induction false} OutcomeArisesExactly(s: State, step: Step, id: Id, status: Status, author: Option<Epoch>)
    ensures Settles(s, step, id, status, author) <==>
            Next(s, step).outcomes == s.outcomes + [Outcome(id, status, author, s.lease.epoch)]
    ensures Settles(s, step, id, status, author) ==> Next(s, step).assessments == s.assessments[id := status]
  {
    var t, outcome := Next(s, step), Outcome(id, status, author, s.lease.epoch);
    if t.outcomes == s.outcomes + [outcome] {
      assert t.outcomes[|s.outcomes|] == outcome && |t.outcomes| == |s.outcomes| + 1;
      assert step.Publish? ==> IsOutcome(step.status);
    }
  }

  // ---- What a poll achieves -----------------------------------------------------------------------------

  /** A claim is made exactly for a pending assessment by a poll that has claims left, while its node
      has the live lease of the epoch it leads in. */
  lemma {:induction false} ClaimIsMadeExactly(s: State, step: Step)
    ensures Next(s, step).execs != s.execs <==>
            && step.Claim? && step.id in s.assessments && s.assessments[step.id] == Pending && step.exec !in s.execs
            && step.node in s.polls && s.polls[step.node].remaining >= 1
            && step.node in s.leads && s.lease.live && s.lease.owner == step.node && s.lease.epoch == s.leads[step.node]
    ensures Next(s, step).execs != s.execs ==>
      && Next(s, step).assessments == s.assessments[step.id := Running]
      && Next(s, step).execs == s.execs[step.exec := Exec(step.id, step.node, s.lease.epoch)]
  {
    var t := Next(s, step);
    if step.Claim? && ClaimSucceeds(s, step.node, step.id, step.exec) { assert step.exec in t.execs; }
  }

  /** A node that has noticed that it lost the lease claims nothing, until it acquires it again. */
  lemma NoticedNodeClaimsNothing(s: State, node: Node, id: Id, exec: nat)
    ensures Next(Next(s, Notice(node)), Claim(node, id, exec)) == Next(s, Notice(node))
    ensures Next(s, Notice(node)) == s.(leads := s.leads - {node})
  {
  }

  /** A node's next poll starts when its last one has ended, and counts what runs by then. */
  lemma NextPollCounts(s: State, node: Node)
    ensures var t := Next(Next(s, EndPoll(node)), StartPoll(node));
      && node in t.polls && t.assessments == s.assessments && t.lease == s.lease
      && t.polls[node].remaining ==
         (if |RunningIds(s.assessments)| <= s.maximum then s.maximum - |RunningIds(s.assessments)| else 0)
      && t.polls[node].counted == if node in s.leads then Some(s.leads[node]) else None
  {
  }

  /** The claims of one poll, one after another. */
  function Claims(node: Node, ids: seq<Id>, first: nat): seq<Step> {
    if ids == [] then [] else [Claim(node, ids[0], first)] + Claims(node, ids[1..], first + 1)
  }

  /** The node leads, its poll may claim as many, and all of these assessments wait. */
  ghost predicate CanClaim(s: State, node: Node, ids: seq<Id>, first: nat) {
    && node in s.leads && Fenced(s, node, s.leads[node])
    && node in s.polls && s.polls[node].remaining >= |ids|
    && (forall k :: 0 <= k < |ids| ==> ids[k] in s.assessments && s.assessments[ids[k]].Pending?)
    && (forall j, k :: 0 <= j < k < |ids| ==> ids[j] != ids[k])
    && (forall e :: e in s.execs ==> e < first)
  }

  lemma {:induction false} ClaimsAreMade(s: State, node: Node, ids: seq<Id>, first: nat)
    requires CanClaim(s, node, ids, first)
    ensures var t := Execute(s, Claims(node, ids, first));
      && t.assessments.Keys == s.assessments.Keys && t.polls.Keys == s.polls.Keys
      && (forall i :: i in s.assessments ==> t.assessments[i] == if i in ids then Running else s.assessments[i])
      && t.polls[node].remaining == s.polls[node].remaining - |ids|
    decreases |ids|
  {
    if ids != [] {
      var t := Next(s, Claim(node, ids[0], first));
      assert t.assessments == s.assessments[ids[0] := Running];
      assert forall k :: 0 <= k < |ids| - 1 ==> ids[1..][k] == ids[k + 1];
      ClaimsAreMade(t, node, ids[1..], first + 1);
      assert forall i :: i in ids <==> i == ids[0] || i in ids[1..];
    }
  }

  /** A poll of the leading node starts as many waiting assessments as the limit has room for, and
      leaves every other one as it is. */
  lemma {:induction false} PollFillsLimit(s: State, node: Node, ids: seq<Id>, first: nat)
    requires node in s.leads && Fenced(s, node, s.leads[node]) && node !in s.polls
    requires |RunningIds(s.assessments)| + |ids| <= s.maximum
    requires forall k :: 0 <= k < |ids| ==> ids[k] in s.assessments && s.assessments[ids[k]].Pending?
    requires forall j, k :: 0 <= j < k < |ids| ==> ids[j] != ids[k]
    requires forall e :: e in s.execs ==> e < first
    ensures var t := Execute(Next(s, StartPoll(node)), Claims(node, ids, first));
      && t.assessments.Keys == s.assessments.Keys
      && (forall i :: i in s.assessments ==> t.assessments[i] == if i in ids then Running else s.assessments[i])
      && node in t.polls && t.polls[node].remaining == s.maximum - |RunningIds(s.assessments)| - |ids|
  {
    ClaimsAreMade(Next(s, StartPoll(node)), node, ids, first);
  }

  /** The step neither ends the lease nor settles the assessment. */
  predicate Spares(s: State, step: Step, id: Id) {
    match step
    case Expire => false
    case UserCancel(i) => i != id
    case Reconcile(i) => i != id
    case Publish(exec, _) => exec in s.execs ==> s.execs[exec].id != id
    case _ => true
  }

  ghost predicate AllSpare(s: State, steps: seq<Step>, id: Id)
    decreases |steps|
  {
    steps != [] ==> Spares(s, steps[0], id) && AllSpare(Next(s, steps[0]), steps[1..], id)
  }

  /** The executor of a running assessment whose lease is live. */
  predicate MayPublish(s: State, exec: nat, id: Id) {
    && exec in s.execs && s.execs[exec].id == id && Fenced(s, s.execs[exec].node, s.execs[exec].epoch)
    && id in s.assessments && s.assessments[id].Running?
  }

  lemma MayPublishAfterStep(s: State, step: Step, exec: nat, id: Id)
    requires MayPublish(s, exec, id) && Spares(s, step, id)
    ensures MayPublish(Next(s, step), exec, id)
  {
  }

  lemma {:induction false} MayPublishAfterSteps(s: State, steps: seq<Step>, exec: nat, id: Id)
    requires MayPublish(s, exec, id) && AllSpare(s, steps, id)
    ensures MayPublish(Execute(s, steps), exec, id)
    decreases |steps|
  {
    if steps != [] {
      MayPublishAfterStep(s, steps[0], exec, id);
      MayPublishAfterSteps(Next(s, steps[0]), steps[1..], exec, id);
    }
  }

  /** A claimed assessment gets the outcome its executor publishes, whatever else happens while the
      lease lasts, unless somebody else settles it first. */
  lemma {:induction false} ClaimedAssessmentIsSettled(s: State, node: Node, id: Id, exec: nat, steps: seq<Step>,
                                                      status: Status)
    requires ClaimSucceeds(s, node, id, exec) && status in [Completed, Errored, Canceled]
    requires AllSpare(Next(s, Claim(node, id, exec)), steps, id)
    ensures var last := Execute(Next(s, Claim(node, id, exec)), steps);
      var end := Next(last, Publish(exec, status));
      && end.assessments == last.assessments[id := status]
      && end.outcomes == last.outcomes + [Outcome(id, status, Some(last.lease.epoch), last.lease.epoch)]
  {
    var claimed := Next(s, Claim(node, id, exec));
    assert claimed.execs[exec] == Exec(id, node, s.leads[node]);
    MayPublishAfterSteps(claimed, steps, exec, id);
    var last := Execute(claimed, steps);
    OutcomeArisesExactly(last, Publish(exec, status), id, status, Some(last.lease.epoch));
  }

  // ---- The limit can be exceeded -------------------------------------------------------------------------

  lemma Extend(s: State, steps: seq<Step>, step: Step) returns (steps2: seq<Step>)
    ensures Execute(s, steps2) == Next(Execute(s, steps), step)
  {
    steps2 := steps + [step];
    ExecuteAppends(s, steps, step);
  }

  lemma {:induction false} ExecuteAppends(s: State, steps: seq<Step>, step: Step)
    ensures Execute(s, steps + [step]) == Next(Execute(s, steps), step)
    decreases |steps|
  {
    if steps == [] {
      assert [step][1..] == [];
    } else {
      assert (steps + [step])[1..] == steps[1..] + [step];
      ExecuteAppends(Next(s, steps[0]), steps[1..], step);
    }
  }

  /** Node 0 counted in epoch 1; node 1 has the lease since. */
  const STALLED := State(1, Lease(1, 2, true), map[0 := 1, 1 := 2], map[0 := Pending, 1 := Pending],
                         map[0 := Poll(0, 1, Some(1))], map[], [], 0)
  /** Node 1 has claimed the first assessment. */
  const CLAIMED := State(1, Lease(1, 2, true), map[0 := 1, 1 := 2], map[0 := Running, 1 := Pending],
                         map[0 := Poll(0, 1, Some(1)), 1 := Poll(1, 0, Some(2))], map[0 := Exec(0, 1, 2)], [], 0)

  lemma CountStalls() returns (s: State, steps: seq<Step>)
    ensures Initial(s) && s.maximum == 1 && Execute(s, steps) == STALLED
  {
    s := State(1, Lease(0, 0, false), map[], map[], map[], map[], [], 0);
    steps := Extend(s, [], Discover(0));
    steps := Extend(s, steps, Discover(1));
    steps := Extend(s, steps, Acquire(0));
    var a := State(1, Lease(0, 1, true), map[0 := 1], map[0 := Pending, 1 := Pending], map[], map[], [], 0);
    assert Execute(s, steps) == a;
    steps := Extend(s, steps, StartPoll(0));
    assert RunningIds(a.assessments) == {};
    steps := Extend(s, steps, Expire);
    steps := Extend(s, steps, Acquire(1));
  }

  lemma SuccessorClaims()
    ensures Next(Next(STALLED, StartPoll(1)), Claim(1, 0, 0)) == CLAIMED
  {
    assert RunningIds(STALLED.assessments) == {};
  }

  lemma StalledPollClaims()
    ensures RunningIds(Next(Next(Next(CLAIMED, Expire), Acquire(0)), Claim(0, 1, 1)).assessments) == {0, 1}
  {
  }

  /** A poll that stalls between its count and its claim while the lease goes to another node
      and comes back: with a limit of one, two assessments run. */
  lemma StaleCountExceedsLimit() returns (s: State, steps: seq<Step>)
    ensures Initial(s) && s.maximum == 1 && |RunningIds(Execute(s, steps).assessments)| == 2
  {
    s, steps := CountStalls();
    steps := Extend(s, steps, StartPoll(1));
    steps := Extend(s, steps, Claim(1, 0, 0));
    SuccessorClaims();
    steps := Extend(s, steps, Expire);
    steps := Extend(s, steps, Acquire(0));
    steps := Extend(s, steps, Claim(0, 1, 1));
    StalledPollClaims();
  }
}
