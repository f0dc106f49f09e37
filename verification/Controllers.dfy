/** The controller's main loop over the real objects: it simulates every trace to its end
    and leaves the machine exactly where the job-at-a-time interpreter says. */
module Controllers {
  import opened Constants
  import opened CacheModel
  import opened SystemModel
  import opened CycleLoop
  import opened CacheSets
  import opened Caches
  import opened Buses
  import JobRunner

  /** The first half of the loop body: `c'` is `c` after the clock and the new job, if any. */
  ghost predicate Brought(cfg: Config, c: Controller, c': Controller)
    requires LoopGuard(c) && JobsInRange(cfg, c.outstanding) && |c.sys.caches| == cfg.numProcessors
  {
    var s1 := c.sys.(cycle := c.sys.cycle + 1);
    c' == if SystemModel.NoJobs(s1)
          then Controller(Enqueued(s1, c.outstanding[0].threadId, c.outstanding[0]), c.outstanding[1..])
          else Controller(s1, c.outstanding)
  }

  /** The model's cycle is that, followed by everybody's ticks. */
  lemma CycleIs(cfg: Config, c: Controller, c': Controller)
    requires cfg.Valid() && SystemShaped(cfg, c.sys) && JobsInRange(cfg, c.outstanding) && LoopGuard(c)
    requires |c.sys.caches| == cfg.numProcessors && Brought(cfg, c, c')
    ensures SystemShaped(cfg, c'.sys)
    ensures Cycle(cfg, c) == Controller(BusTick(cfg, TickCaches(cfg, c'.sys, |c'.sys.caches|)), c'.outstanding)
  {
    hide BusTick, TickCaches;
  }

  method NoJobs(bus: AtomicBusManager) returns (none: bool)
    ensures none == SystemModel.NoJobs(bus.View())
  {
    none := true;
    for i := 0 to |bus.caches|
      invariant none <==> forall k :: 0 <= k < i ==> !bus.View().caches[k].busy
    {
      assert bus.View().caches[i].busy == bus.caches[i].busy;
      if bus.caches[i].busy {
        none := false;
      }
    }
  }

  method TickClock(bus: AtomicBusManager)
    requires bus.Valid()
    modifies bus.constants
    ensures bus.Valid() && bus.View() == old(bus.View()).(cycle := old(bus.View()).cycle + 1)
  {
    bus.constants.Tick();
    assert Views(bus.caches) == old(Views(bus.caches));
  }

  method PushJob(bus: AtomicBusManager, i: nat, job: Job)
    requires bus.Valid() && i < |bus.caches|
    modifies bus.caches
    ensures bus.Valid() && bus.View() == Enqueued(old(bus.View()), i, job)
  {
    var c := bus.caches[i];
    c.pendingJobs := c.pendingJobs + [job];
    assert c.Sets() == old(c.Sets());
    assert Views(bus.caches) == old(Views(bus.caches))[i := c.View()];
  }

  method TickOneCache(bus: AtomicBusManager, i: nat)
    requires bus.Valid() && i < |bus.caches|
    modifies bus.caches, AllSets(bus.caches), bus.stats
    ensures bus.Valid() && bus.View() == TickCache(bus.constants.cfg, old(bus.View()), i)
  {
    hide Shaped, CacheModel.Tick;
    bus.caches[i].Tick();
    assert Views(bus.caches) == old(Views(bus.caches))[i := bus.caches[i].View()];
  }

  method TickAllCaches(bus: AtomicBusManager)
    requires bus.Valid()
    modifies bus.caches, AllSets(bus.caches), bus.stats
    ensures bus.Valid() && bus.View() == TickCaches(bus.constants.cfg, old(bus.View()), |bus.caches|)
  {
    assert bus.constants.cfg.Valid() && SystemShaped(bus.constants.cfg, bus.View());
    hide TickCache, Linked;
    for i := 0 to |bus.caches|
      invariant bus.Valid()
      invariant bus.View() == TickCaches(bus.constants.cfg, old(bus.View()), i)
    {
      TickOneCache(bus, i);
    }
  }

  method TickEverything(bus: AtomicBusManager)
    requires bus.Valid()
    modifies bus, bus.constants, bus.stats, bus.caches, AllSets(bus.caches)
    ensures bus.Valid()
    ensures var s := old(bus.View()); bus.View() == BusTick(bus.constants.cfg, TickCaches(bus.constants.cfg, s, |s.caches|))
  {
    assert bus.constants.cfg.Valid() && SystemShaped(bus.constants.cfg, bus.View()) && |bus.View().caches| == |bus.caches|;
    hide *;
    TickAllCaches(bus);
    bus.Tick();
  }

  /** The clock ticks, and a new job is brought in when nobody is busy. */
  method BringJob(bus: AtomicBusManager, outstanding: seq<Job>) returns (rest: seq<Job>)
    requires bus.Valid() && JobsInRange(bus.constants.cfg, outstanding)
    requires LoopGuard(Controller(bus.View(), outstanding))
    modifies bus.constants, bus.caches
    ensures bus.Valid()
    ensures Brought(bus.constants.cfg, Controller(old(bus.View()), outstanding), Controller(bus.View(), rest))
  {
    assert SystemShaped(bus.constants.cfg, bus.View()) && |bus.View().caches| == |bus.caches| == bus.constants.cfg.numProcessors;
    hide AtomicBusManager.Valid, AtomicBusManager.View, Shaped, Views;
    TickClock(bus);
    rest := outstanding;
    var none := NoJobs(bus);
    if none {
      var job := outstanding[0];
      rest := outstanding[1..];
      PushJob(bus, job.threadId, job);
    }
  }

  /** The loop body: the clock, at most one new job, every cache, then the bus. */
  method RunCycle(bus: AtomicBusManager, outstanding: seq<Job>) returns (rest: seq<Job>)
    requires bus.Valid() && JobsInRange(bus.constants.cfg, outstanding)
    requires LoopGuard(Controller(bus.View(), outstanding))
    modifies bus, bus.constants, bus.stats, bus.caches, AllSets(bus.caches)
    ensures bus.Valid()
    ensures Controller(bus.View(), rest) == Cycle(bus.constants.cfg, Controller(old(bus.View()), outstanding))
  {
    var cfg := bus.constants.cfg;
    ghost var before := Controller(bus.View(), outstanding);
    assert cfg.Valid() && SystemShaped(cfg, before.sys);
    hide *;
    rest := BringJob(bus, outstanding);
    ghost var brought := Controller(bus.View(), rest);
    TickEverything(bus);
    CycleIs(cfg, before, brought);
  }

  method NewMachine(cfg: Config) returns (bus: AtomicBusManager)
    requires cfg.Valid()
    ensures fresh(bus) && fresh(bus.constants) && fresh(bus.stats) && fresh(bus.caches) && fresh(AllSets(bus.caches))
    ensures bus.Valid() && bus.constants.cfg == cfg && bus.View() == Init(cfg)
  {
    var constants := new CacheConstants(cfg);
    var stats := new CacheStats();
    var caches: seq<Cache> := [];
    while |caches| < cfg.numProcessors
      invariant |caches| <= cfg.numProcessors
      invariant constants.cycles == 0 && stats.View() == NO_STATS
      invariant forall i :: 0 <= i < |caches| ==>
                  && fresh(caches[i]) && fresh(caches[i].localCache) && caches[i].Valid() && caches[i].View() == NewCache(cfg)
                  && caches[i].processorId == i && caches[i].consts == constants && caches[i].stats == stats
    {
      var c := new Cache(|caches|, constants, stats);
      caches := caches + [c];
    }
    bus := new AtomicBusManager(constants, caches, stats);
    assert bus.View().caches == Init(cfg).caches;
  }

  /** Where the loop is after `n` iterations. */
  ghost predicate Reached(cfg: Config, trace: seq<Job>, n: nat, c: Controller)
    requires cfg.Valid() && JobsInRange(cfg, trace)
  {
    n <= TraceCost(cfg, trace) && c == Iterate(cfg, Controller(Init(cfg), trace), n)
  }

  lemma LoopStart(cfg: Config, trace: seq<Job>)
    requires cfg.Valid() && JobsInRange(cfg, trace)
    ensures Reached(cfg, trace, 0, Controller(Init(cfg), trace))
  {
    hide Init;
  }

  /** Before the last iteration the guard holds; after it, the interpreter's state is reached. */
  lemma LoopProgress(cfg: Config, trace: seq<Job>, n: nat, c: Controller)
    requires cfg.Valid() && JobsInRange(cfg, trace) && Reached(cfg, trace, n, c)
    ensures SystemShaped(cfg, c.sys) && JobsInRange(cfg, c.outstanding)
    ensures if LoopGuard(c) then n < TraceCost(cfg, trace) && Reached(cfg, trace, n + 1, Cycle(cfg, c))
            else c == Controller(RunTrace(cfg, trace), []) && c.sys.cycle == TraceCost(cfg, trace)
  {
    hide Init, RunTrace, TraceCost, Cycle, LoopGuard;
    LoopRefinesInterpreter(cfg, trace);
    if n < TraceCost(cfg, trace) {
      assert StillRunning(cfg, Controller(Init(cfg), trace), n);
    }
  }

  lemma GuardIs(c: Controller)
    ensures LoopGuard(c) <==> !(SystemModel.NoJobs(c.sys) && |c.outstanding| == 0)
  {
  }

  lemma ClockIs(bus: AtomicBusManager)
    ensures bus.View().cycle == bus.constants.cycles
  {
  }

  /** The loop's test and, if it succeeds, its body. */
  method StepUnlessDone(cfg: Config, trace: seq<Job>, bus: AtomicBusManager, outstanding: seq<Job>, ghost n: nat)
    returns (rest: seq<Job>, running: bool)
    requires cfg.Valid() && JobsInRange(cfg, trace) && bus.Valid() && bus.constants.cfg == cfg
    requires Reached(cfg, trace, n, Controller(bus.View(), outstanding))
    modifies bus, bus.constants, bus.stats, bus.caches, AllSets(bus.caches)
    ensures bus.Valid()
    ensures running ==> n < TraceCost(cfg, trace) && Reached(cfg, trace, n + 1, Controller(bus.View(), rest))
    ensures !running ==> bus.View() == RunTrace(cfg, trace) && bus.View().cycle == TraceCost(cfg, trace)
  {
    rest := outstanding;
    hide Reached, RunTrace, TraceCost, LoopGuard, SystemShaped, Linked;
    var none := NoJobs(bus);
    assert bus.Valid() && bus.View() == old(bus.View());
    hide *;
    LoopProgress(cfg, trace, n, Controller(bus.View(), outstanding));
    GuardIs(Controller(bus.View(), outstanding));
    running := !none || |outstanding| != 0;
    if running {
      rest := RunCycle(bus, outstanding);
    }
  }

  /** The whole simulation. */
  method Simulate(cfg: Config, trace: seq<Job>) returns (bus: AtomicBusManager)
    requires cfg.Valid() && JobsInRange(cfg, trace)
    ensures bus.Valid() && bus.constants.cfg == cfg
    ensures bus.View() == RunTrace(cfg, trace)
    ensures bus.constants.cycles == TraceCost(cfg, trace)
  {
    bus := NewMachine(cfg);
    var outstanding, running := trace, true;
    ghost var n := 0;
    hide *;
    LoopStart(cfg, trace);
    while running
      invariant fresh(bus) && fresh(bus.constants) && fresh(bus.stats) && fresh(bus.caches) && fresh(AllSets(bus.caches))
      invariant bus.Valid() && bus.constants.cfg == cfg
      invariant running ==> n <= TraceCost(cfg, trace) && Reached(cfg, trace, n, Controller(bus.View(), outstanding))
      invariant !running ==> bus.View() == RunTrace(cfg, trace) && bus.View().cycle == TraceCost(cfg, trace)
      decreases running, TraceCost(cfg, trace) - n
    {
      outstanding, running := StepUnlessDone(cfg, trace, bus, outstanding, n);
      if running {
        n := n + 1;
      }
    }
    ClockIs(bus);
  }
}
