/** Process-group cancellation: SIGINT first, SIGKILL from a timer that outlives the tracked
    child, and immediate SIGKILL on a forced cancel. */
module KillEscalation {
  import opened Options

  type RunId = nat
  type TimerId = nat

  /** A process group id; a child may not report one. */
  datatype Pgid = NoPid | Pid(pid: nat)

  datatype Group = Group(run: RunId, pgid: Pgid)

  datatype Child = Child(id: nat, pgid: Pgid)

  datatype Signal = SigInt | SigKill

  // ---- The registry of escalation timers -----------------------------------------------------

  type Timers = map<RunId, map<Pgid, TimerId>>

  function TimerOf(timers: Timers, g: Group): Option<TimerId> {
    if g.run in timers && g.pgid in timers[g.run] then Some(timers[g.run][g.pgid]) else None
  }

  predicate NoEmptyRun(timers: Timers) {
    forall r :: r in timers ==> timers[r] != map[]
  }

  function Register(timers: Timers, g: Group, t: TimerId): Timers {
    var mine: map<Pgid, TimerId> := if g.run in timers then timers[g.run] else map[];
    timers[g.run := mine[g.pgid := t]]
  }

  /** The inner map goes with its last timer. */
  function Unregister(timers: Timers, g: Group): Timers {
    if g.run !in timers then timers
    else
      var mine := timers[g.run] - {g.pgid};
      if mine == map[] then timers - {g.run} else timers[g.run := mine]
  }

  lemma TimerAfterRegister(timers: Timers, g: Group, t: TimerId, h: Group)
    requires NoEmptyRun(timers)
    ensures NoEmptyRun(Register(timers, g, t))
    ensures TimerOf(Register(timers, g, t), h) == if h == g then Some(t) else TimerOf(timers, h)
  {
    assert g.pgid in Register(timers, g, t)[g.run];
  }

  lemma TimerAfterUnregister(timers: Timers, g: Group, h: Group)
    requires NoEmptyRun(timers)
    ensures NoEmptyRun(Unregister(timers, g))
    ensures TimerOf(Unregister(timers, g), h) == if h == g then None else TimerOf(timers, h)
  {
    if g.run in timers {
      var mine := timers[g.run] - {g.pgid};
      if h.run == g.run && h != g && h.pgid in timers[g.run] { assert h.pgid in mine; }
    }
  }

  /** The registered timers are exactly the armed ones. */
  ghost predicate TimersOk(timers: Timers, pending: map<TimerId, Group>, next: TimerId) {
    && NoEmptyRun(timers)
    && (forall g {:trigger TimerOf(timers, g)} :: TimerOf(timers, g).Some? ==>
          TimerOf(timers, g).value in pending && pending[TimerOf(timers, g).value] == g)
    && (forall t :: t in pending ==> t < next && TimerOf(timers, pending[t]) == Some(t))
  }

  ghost predicate Interrupted(last: map<Group, Signal>, g: Group) {
    g in last && last[g].SigInt?
  }

  function Sent(last: map<Group, Signal>, g: Group): Option<Signal> {
    if g in last then Some(last[g]) else None
  }

  /** A process group has a timer exactly while its last signal was SIGINT. */
  ghost predicate Watched(timers: Timers, last: map<Group, Signal>) {
    forall g :: TimerOf(timers, g).Some? <==> Interrupted(last, g)
  }

  class RunProcesses {
    var active: map<RunId, set<Child>>        // activeRunProcesses
    var timers: Timers                        // cancellationEscalationTimers
    var cgroups: set<RunId>                   // activeRunCgroups
    var executions: multiset<RunId>           // local executions under way; an apply nests in its plan
    var pending: map<TimerId, Group>          // the event loop's armed timers
    var nextTimer: TimerId
    ghost var last: map<Group, Signal>        // last signal sent to each process group

    ghost predicate Valid()
      reads this
    {
      TimersOk(timers, pending, nextTimer) && Watched(timers, last) && forall r :: r in active ==> active[r] != {}
    }

    constructor ()
      ensures Valid() && active == map[] && timers == map[] && pending == map[] && last == map[]
      ensures cgroups == {} && executions == multiset{}
    {
      active, timers, cgroups, executions, pending, nextTimer, last := map[], map[], {}, multiset{}, map[], 0, map[];
    }

    /** Whether the run may not be deleted yet. */
    function HasActiveRunExecution(r: RunId): bool
      reads this
    {
      r in executions || r in active || r in cgroups || r in timers
    }

    method Track(r: RunId, child: Child)
      requires Valid()
      modifies this`active
      ensures Valid() && active == old(active)[r := (if r in old(active) then old(active)[r] else {}) + {child}]
      ensures HasActiveRunExecution(r)
    {
      var processes := if r in active then active[r] else {};
      active := active[r := processes + {child}];
    }

    predicate Tracked(r: RunId, child: Child)
      reads this
    {
      r in active && child in active[r]
    }

    /** The leader's exit says nothing about the rest of its group: timers stay. */
    method Exited(r: RunId, child: Child)
      requires Valid()
      modifies this`active
      ensures Valid()
      ensures forall q, c :: Tracked(q, c) <==> old(Tracked(q, c)) && !(q == r && c == child)
    {
      if r in active {
        var processes := active[r] - {child};
        assert forall c :: c in processes <==> c in active[r] && c != child;
        active := if processes == {} then active - {r} else active[r := processes];
      }
    }

    /** Sends SIGINT to a group and arms its timer unless one is armed already. */
    method Interrupt(g: Group)
      requires Valid()
      modifies this`timers, this`pending, this`nextTimer, this`last
      ensures Valid() && last == old(last)[g := SigInt]
      ensures forall h :: TimerOf(old(timers), h).Some? ==> TimerOf(timers, h) == TimerOf(old(timers), h)
    {
      last := last[g := SigInt];
      if TimerOf(timers, g).Some? { return; }
      forall h
        ensures TimerOf(Register(timers, g, nextTimer), h) == if h == g then Some(nextTimer) else TimerOf(timers, h)
      {
        TimerAfterRegister(timers, g, nextTimer, h);
      }
      TimerAfterRegister(timers, g, nextTimer, g);
      pending, timers, nextTimer := pending[nextTimer := g], Register(timers, g, nextTimer), nextTimer + 1;
    }

    /** The armed timer fires: it unregisters itself and kills the group. */
    method Fire(t: TimerId)
      requires Valid() && t in pending
      modifies this`timers, this`pending, this`last
      ensures Valid() && pending == old(pending) - {t}
      ensures last == old(last)[old(pending)[t] := SigKill]
    {
      Kill(pending[t], t);
    }

    method Kill(g: Group, t: TimerId)
      requires Valid() && t in pending && pending[t] == g
      modifies this`timers, this`pending, this`last
      ensures Valid() && pending == old(pending) - {t} && last == old(last)[g := SigKill]
      ensures timers == Unregister(old(timers), g)
    {
      forall h ensures TimerOf(Unregister(timers, g), h) == if h == g then None else TimerOf(timers, h) {
        TimerAfterUnregister(timers, g, h);
      }
      TimerAfterUnregister(timers, g, g);
      timers, pending, last := Unregister(timers, g), pending - {t}, last[g := SigKill];
    }

    /** Kills every group of the run that is waiting for its SIGKILL, and clears its timer. */
    method KillWaiting(r: RunId)
      requires Valid()
      modifies this`timers, this`pending, this`last
      ensures Valid() && r !in timers
      ensures forall g: Group :: g.run != r ==> TimerOf(timers, g) == TimerOf(old(timers), g)
      ensures forall g: Group :: g.run == r && Interrupted(old(last), g) ==> g in last && last[g].SigKill?
      ensures forall g: Group :: !(g.run == r && Interrupted(old(last), g)) ==> Sent(last, g) == Sent(old(last), g)
    {
      while r in timers
        invariant Valid()
        invariant forall g: Group :: g.run != r ==> TimerOf(timers, g) == TimerOf(old(timers), g)
        invariant forall g: Group :: g.run == r && Interrupted(old(last), g) ==>
          Interrupted(last, g) || (g in last && last[g].SigKill?)
        invariant forall g: Group :: !(g.run == r && Interrupted(old(last), g)) ==> Sent(last, g) == Sent(old(last), g)
        decreases |pending|
      {
        var p :| p in timers[r];
        var g := Group(r, p);
        assert TimerOf(timers, g) == Some(timers[r][p]);
        ghost var before := timers;
        Kill(g, timers[r][p]);
        forall h: Group | h.run != r ensures TimerOf(timers, h) == TimerOf(before, h) {
          TimerAfterUnregister(before, g, h);
        }
      }
      forall g: Group | g.run == r ensures TimerOf(timers, g).None? { }
    }

    function Groups(r: RunId): set<Group>
      reads this
    {
      if r in active then set child | child in active[r] :: Group(r, child.pgid) else {}
    }

    /** cancelRunExecution: every tracked group of the run is signaled; afterwards a plain
        cancel has a timer armed for each of them, and keeps those already armed, while a
        forced one leaves no group of the run waiting. */
    method Cancel(r: RunId, force: bool)
      requires Valid()
      modifies this`timers, this`pending, this`nextTimer, this`last
      ensures Valid()
      ensures forall g: Group ::
        Sent(last, g) == if g in Groups(r) then Some(if force then SigKill else SigInt)
                         else if force && g.run == r && Interrupted(old(last), g) then Some(SigKill)
                         else Sent(old(last), g)
      ensures force ==> forall g: Group :: g.run == r ==> TimerOf(timers, g).None?
      ensures !force ==> forall g :: TimerOf(old(timers), g).Some? ==> TimerOf(timers, g) == TimerOf(old(timers), g)
    {
      if force {
        KillWaiting(r);
        KillTracked(r);
      } else {
        InterruptTracked(r);
      }
    }

    method KillTracked(r: RunId)
      requires Valid() && forall g: Group :: g.run == r ==> TimerOf(timers, g).None?
      modifies this`last
      ensures Valid()
      ensures forall g :: Sent(last, g) == if g in Groups(r) then Some(SigKill) else Sent(old(last), g)
    {
      var todo := Groups(r);
      while todo != {}
        invariant Valid() && todo <= Groups(r)
        invariant forall g :: Sent(last, g) == if g in Groups(r) - todo then Some(SigKill) else Sent(old(last), g)
        decreases |todo|
      {
        var g :| g in todo;
        todo := todo - {g};
        last := last[g := SigKill];
      }
    }

    method InterruptTracked(r: RunId)
      requires Valid()
      modifies this`timers, this`pending, this`nextTimer, this`last
      ensures Valid()
      ensures forall g :: Sent(last, g) == if g in Groups(r) then Some(SigInt) else Sent(old(last), g)
      ensures forall g :: TimerOf(old(timers), g).Some? ==> TimerOf(timers, g) == TimerOf(old(timers), g)
    {
      var todo := Groups(r);
      while todo != {}
        invariant Valid() && todo <= Groups(r)
        invariant forall g :: Sent(last, g) == if g in Groups(r) - todo then Some(SigInt) else Sent(old(last), g)
        invariant forall g :: TimerOf(old(timers), g).Some? ==> TimerOf(timers, g) == TimerOf(old(timers), g)
        decreases |todo|
      {
        var g :| g in todo;
        todo := todo - {g};
        Interrupt(g);
      }
    }

    /** A local execution of the run gets its slot, and gives it back. */
    method BeginExecution(r: RunId)
      requires Valid()
      modifies this`executions
      ensures Valid() && executions == old(executions) + multiset{r}
      ensures forall q :: HasActiveRunExecution(q) <==> q == r || old(HasActiveRunExecution(q))
    {
      executions := executions[r := executions[r] + 1];
    }

    method EndExecution(r: RunId)
      requires Valid() && r in executions
      modifies this`executions
      ensures Valid() && executions == old(executions) - multiset{r}
      ensures forall q :: HasActiveRunExecution(q) ==> old(HasActiveRunExecution(q))
      ensures forall g: Group :: Interrupted(last, g) ==> HasActiveRunExecution(g.run)
    {
      executions := executions[r := executions[r] - 1];
    }

    /** A run has timers exactly while a group of it waits for its SIGKILL. */
    lemma RunWithTimers(r: RunId)
      requires Valid()
      ensures r in timers <==> exists g: Group :: g.run == r && Interrupted(last, g)
    {
      if r in timers {
        var p :| p in timers[r];
        assert TimerOf(timers, Group(r, p)).Some?;
      }
    }

    /** From here on the run counts as active. */
    method PrepareCgroup(r: RunId)
      requires Valid()
      modifies this`cgroups
      ensures Valid() && cgroups == old(cgroups) + {r}
      ensures forall q :: HasActiveRunExecution(q) <==> q == r || old(HasActiveRunExecution(q))
    {
      cgroups := cgroups + {r};
    }

    /** No run becomes inactive by it that still has a group waiting for its SIGKILL. */
    method CleanupCgroup(r: RunId)
      requires Valid()
      modifies this`cgroups
      ensures Valid() && cgroups == old(cgroups) - {r}
      ensures forall q :: q != r ==> HasActiveRunExecution(q) == old(HasActiveRunExecution(q))
      ensures forall g: Group :: Interrupted(last, g) ==> HasActiveRunExecution(g.run)
    {
      cgroups := cgroups - {r};
    }

    /** After any sequence of cancels, forced cancels, exits and timer fires: a group whose last
        signal was SIGINT has exactly one armed timer, and its run counts as active until that
        timer fired or a forced cancel took its place. */
    lemma InterruptedGroupIsWatched(g: Group)
      requires Valid()
      ensures Interrupted(last, g) <==> exists t :: t in pending && pending[t] == g
      ensures forall t, u :: t in pending && u in pending && pending[t] == pending[u] ==> t == u
      ensures Interrupted(last, g) ==> HasActiveRunExecution(g.run)
    {
    }
  }

  /** A run with a tracked process is canceled. */
  method CancelTracked(r: RunId, child: Child) returns (p: RunProcesses)
    ensures fresh(p) && p.Valid() && p.executions == multiset{r} && p.cgroups == {r}
    ensures p.active == map[r := {child}]
    ensures forall g :: Sent(p.last, g) == if g == Group(r, child.pgid) then Some(SigInt) else None
  {
    p := new RunProcesses();
    p.BeginExecution(r);
    p.PrepareCgroup(r);
    p.Track(r, child);
    assert {} + {child} == {child};
    assert p.Groups(r) == {Group(r, child.pgid)};
    p.Cancel(r, false);
  }

  lemma SomeoneIsTracked(p: RunProcesses, r: RunId)
    requires p.Valid() && r in p.active
    ensures exists c :: p.Tracked(r, c)
  {
    var c :| c in p.active[r];
    assert p.Tracked(r, c);
  }

  /** A canceled run whose process, cgroup and execution are all gone may still not be deleted,
      until the timer of its process group fires. */
  method CanceledRunStaysActive(r: RunId, child: Child) returns (p: RunProcesses, waited: bool)
    ensures fresh(p) && p.Valid() && waited && !p.HasActiveRunExecution(r)
    ensures Sent(p.last, Group(r, child.pgid)) == Some(SigKill)
  {
    var g := Group(r, child.pgid);
    p := CancelTracked(r, child);
    ghost var was := p.last;
    assert Sent(was, g) == Some(SigInt);
    p.Exited(r, child);
    if r in p.active { SomeoneIsTracked(p, r); }
    p.CleanupCgroup(r);
    p.EndExecution(r);
    waited := p.HasActiveRunExecution(r) && r !in p.active && r !in p.cgroups && r !in p.executions;
    assert Interrupted(p.last, g);
    assert TimerOf(p.timers, g).Some?;
    p.Fire(p.timers[r][child.pgid]);
    forall h | h != g ensures !Interrupted(p.last, h) { assert Sent(was, h).None? && Sent(p.last, h) == Sent(was, h); }
    p.RunWithTimers(r);
  }
}
