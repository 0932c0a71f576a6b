/** The coordinator's scheduler: each gain of leadership starts a new generation of poll
    cycles, and every cycle of an older one stops at its next check. */
module SchedulerGenerations {

  /** The cycles of one generation: the fast cycle and five slow ones. */
  const POLLERS: nat := 6

  datatype Cycle = Cycle(poller: nat, generation: nat)

  /** A cycle body that started, and the generation that was current then. */
  datatype Start = Start(cycle: Cycle, current: nat)

  // ---- Armed timers and bodies under way ---------------------------------------------------------

  ghost predicate AtMostOne(timers: multiset<Cycle>, bodies: multiset<Cycle>) {
    forall c {:trigger timers[c]} {:trigger bodies[c]} :: timers[c] + bodies[c] <= 1
  }

  ghost predicate Known(timers: multiset<Cycle>, bodies: multiset<Cycle>, generation: nat) {
    forall c :: c in timers || c in bodies ==> c.poller < POLLERS && c.generation <= generation
  }

  /** Each poller of the generation has its timer or its body, except those that stopped. */
  ghost predicate AllGoing(timers: multiset<Cycle>, bodies: multiset<Cycle>, generation: nat, stopped: set<nat>) {
    forall p: nat :: p < POLLERS ==>
      timers[Cycle(p, generation)] + bodies[Cycle(p, generation)] == if p in stopped then 0 else 1
  }

  lemma GenerationStarted(timers: multiset<Cycle>, bodies: multiset<Cycle>, bodies2: multiset<Cycle>, generation: nat)
    requires AtMostOne(timers, bodies) && Known(timers, bodies, generation)
    requires forall c: Cycle :: 
      bodies2[c] == bodies[c] + if c.generation == generation + 1 && c.poller < POLLERS then 1 else 0
    ensures AtMostOne(timers, bodies2) && Known(timers, bodies2, generation + 1)
    ensures AllGoing(timers, bodies2, generation + 1, {})
  {
    forall c: Cycle | c.generation == generation + 1 ensures timers[c] == bodies[c] == 0 {
      assert c !in timers && c !in bodies;
    }
  }

  /** A cycle goes from one of the two to the other, or ends. */
  lemma CycleMoved(from: multiset<Cycle>, other: multiset<Cycle>, c: Cycle, goesOn: bool, generation: nat,
                   stopped: set<nat>)
    requires c in from && AtMostOne(from, other) && Known(from, other, generation)
    ensures var from2, other2 := from - multiset{c}, if goesOn then other + multiset{c} else other;
      && AtMostOne(from2, other2) && Known(from2, other2, generation)
      && (AllGoing(from, other, generation, stopped) ==>
            AllGoing(from2, other2, generation,
                     if goesOn || c.generation != generation then stopped else stopped + {c.poller}))
  {
    var from2, other2 := from - multiset{c}, if goesOn then other + multiset{c} else other;
    forall d ensures from2[d] + other2[d] == from[d] + other[d] - if d == c && !goesOn then 1 else 0 { }
  }

  lemma Swapped(a: multiset<Cycle>, b: multiset<Cycle>, generation: nat, stopped: set<nat>)
    ensures AtMostOne(a, b) <==> AtMostOne(b, a)
    ensures Known(a, b, generation) <==> Known(b, a, generation)
    ensures AllGoing(a, b, generation, stopped) <==> AllGoing(b, a, generation, stopped)
  {
  }

  class Scheduler {
    var running: bool
    var generation: nat
    var draining: bool
    var timers: multiset<Cycle>
    var bodies: multiset<Cycle>
    ghost var started: seq<Start>
    ghost var stopped: set<nat>     // the pollers whose cycle of this generation looked at a drain

    ghost predicate Valid()
      reads this
    {
      && AtMostOne(timers, bodies) && Known(timers, bodies, generation)
      && (forall i :: 0 <= i < |started| ==> started[i].cycle.generation == started[i].current)
      && (running ==> AllGoing(timers, bodies, generation, stopped))
    }

    constructor ()
      ensures Valid() && !running && !draining && timers == bodies == multiset{} && started == []
    {
      running, generation, draining := false, 0, false;
      timers, bodies, started, stopped := multiset{}, multiset{}, [], {};
    }

    predicate GenerationActive(g: nat)
      reads this
    {
      running && generation == g && !draining
    }

    /** Leadership gained: the cycle functions of a new generation are called one by one. */
    method StartCoordinator()
      requires Valid()
      modifies this
      ensures Valid() && draining == old(draining) && timers == old(timers)
      ensures if old(running) || draining then
                running == old(running) && generation == old(generation) && bodies == old(bodies) &&
                  stopped == old(stopped)
              else
                && running && generation == old(generation) + 1 && stopped == {}
                && forall c: Cycle ::
                     bodies[c] == old(bodies)[c] + if c.generation == generation && c.poller < POLLERS then 1 else 0
    {
      if running || draining { return; }
      running, generation, stopped := true, generation + 1, {};
      var p := 0;
      while p < POLLERS
        invariant 0 <= p <= POLLERS && running && generation == old(generation) + 1 && !draining && !old(draining)
        invariant stopped == {}
        invariant timers == old(timers)
        invariant forall c: Cycle ::
          bodies[c] == old(bodies)[c] + if c.generation == generation && c.poller < p then 1 else 0
        invariant forall i :: 0 <= i < |started| ==> started[i].cycle.generation == started[i].current
      {
        var c := Cycle(p, generation);
        if GenerationActive(c.generation) { bodies, started := bodies + multiset{c}, started + [Start(c, generation)]; }
        p := p + 1;
      }
      GenerationStarted(old(timers), old(bodies), bodies, old(generation));
    }

    /** Leadership lost, or the scheduler stopped for a shutdown. */
    method StopCoordinator()
      requires Valid()
      modifies this`running, this`generation
      ensures Valid() && !running && generation == old(generation) + if old(running) then 1 else 0
    {
      if running { running, generation := false, generation + 1; }
    }

    /** A node drain is requested, or canceled. */
    method SetDraining(draining: bool)
      requires Valid()
      modifies this`draining
      ensures Valid() && this.draining == draining
    {
      this.draining := draining;
    }

    /** Who has stopped once a cycle has been checked, by its timer or at the end of its body. */
    ghost function StoppedAfter(c: Cycle): set<nat>
      reads this
    {
      if running && draining && c.generation == generation then stopped + {c.poller} else stopped
    }

    /** A timer fires. A cycle of an older generation, or of a stopped one, does not start. */
    method Fire(c: Cycle)
      requires Valid() && c in timers
      modifies this`timers, this`bodies, this`started, this`stopped
      ensures Valid() && stopped == old(StoppedAfter(c)) && timers == old(timers) - multiset{c}
      ensures bodies == if GenerationActive(c.generation) then old(bodies) + multiset{c} else old(bodies)
    {
      var goesOn := GenerationActive(c.generation);
      CycleMoved(timers, bodies, c, goesOn, generation, stopped);
      stopped, timers := StoppedAfter(c), timers - multiset{c};
      if goesOn {
        bodies, started := bodies + multiset{c}, started + [Start(c, generation)];
      }
    }

    /** A body ends, with or without an error, and arms the next cycle if still current. */
    method Finish(c: Cycle)
      requires Valid() && c in bodies
      modifies this`timers, this`bodies, this`stopped
      ensures Valid() && stopped == old(StoppedAfter(c)) && bodies == old(bodies) - multiset{c}
      ensures timers == if GenerationActive(c.generation) then old(timers) + multiset{c} else old(timers)
    {
      var goesOn := GenerationActive(c.generation);
      Swapped(timers, bodies, generation, stopped);
      CycleMoved(bodies, timers, c, goesOn, generation, stopped);
      stopped, bodies := StoppedAfter(c), bodies - multiset{c};
      if goesOn { timers := timers + multiset{c}; }
      Swapped(timers, bodies, generation, stopped);
    }

    /** After any sequence of leadership gains and losses, drains, timers and cycles in flight:
        a poller has at most one armed timer or running body of each generation. While the
        scheduler runs, it has one of the current generation exactly unless its cycle was
        checked, by its timer or at the end of its body, during a drain of this generation. No
        body of an older generation has ever started. */
    lemma OneCyclePerPoller(p: nat, g: nat, i: nat)
      requires Valid()
      ensures timers[Cycle(p, g)] + bodies[Cycle(p, g)] <= 1
      ensures running && p < POLLERS ==>
        (timers[Cycle(p, generation)] + bodies[Cycle(p, generation)] == 1 <==> p !in stopped)
      ensures i < |started| ==> started[i].cycle.generation == started[i].current
    {
    }
  }

  /** During a drain the bodies under way end, and nothing is armed for them. */
  method FinishAll(s: Scheduler)
    requires s.Valid() && s.running && s.draining && s.timers == multiset{}
    requires forall c: Cycle :: s.bodies[c] == if c.generation == s.generation && c.poller < POLLERS then 1 else 0
    modifies s`timers, s`bodies, s`stopped
    ensures s.Valid() && s.timers == s.bodies == multiset{}
  {
    var p := 0;
    while p < POLLERS
      invariant 0 <= p <= POLLERS && s.Valid() && s.timers == multiset{}
      invariant forall c: Cycle ::
        s.bodies[c] == if c.generation == s.generation && p <= c.poller < POLLERS then 1 else 0
    {
      s.Finish(Cycle(p, s.generation));
      p := p + 1;
    }
    assert forall c: Cycle :: c !in s.bodies;
  }

  /** A drain that is canceled while the node still leads: the cycles that ended during the drain
      were not armed again, and starting the scheduler again does nothing as it counts as
      running. No poller is left. */
  method CanceledDrainStopsPolling() returns (s: Scheduler)
    ensures fresh(s) && s.Valid() && s.running && !s.draining && s.timers == s.bodies == multiset{}
  {
    s := new Scheduler();
    s.StartCoordinator();
    s.SetDraining(true);
    FinishAll(s);
    s.SetDraining(false);
    s.StartCoordinator();
  }
}
