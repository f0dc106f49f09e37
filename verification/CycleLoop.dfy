/** The controller's loop refines the job-at-a-time interpreter, on every trace. */
module CycleLoop {
  import opened Constants
  import opened LineSets
  import opened CacheModel
  import opened SystemModel
  import opened Coherence
  import opened Safety
  import opened ServiceTime
  import opened JobRunner

  // ---------------------------------------------------------------------
  // Coherence along the loop
  // ---------------------------------------------------------------------

  lemma {:induction false} TickCachesKeepsCoherent(strict: bool, cfg: Config, addresses: set<nat>, s: System, n: nat)
    requires cfg.Valid() && (strict ==> TraceOk(cfg, addresses)) && Coherent(strict, cfg, addresses, s) && n <= |s.caches|
    ensures Coherent(strict, cfg, addresses, TickCaches(cfg, s, n))
  {
    hide Coherent, TickCache;
    CoherentIsShaped(strict, cfg, addresses, s);
    if n > 0 {
      TickCachesKeepsCoherent(strict, cfg, addresses, s, n - 1);
      TickCacheKeepsCoherent(strict, cfg, addresses, TickCaches(cfg, s, n - 1), n - 1);
    }
  }

  /** A job that arrives between two others, after the first round of ticks. */
  lemma BegunIsCoherent(strict: bool, cfg: Config, addresses: set<nat>, s: System, job: Job)
    requires cfg.Valid() && (strict ==> TraceOk(cfg, addresses)) && Coherent(strict, cfg, addresses, s)
    requires Quiescent(cfg, s) && job.threadId < |s.caches| && job.address in addresses
    ensures Coherent(strict, cfg, addresses, Begun(cfg, s, job))
  {
    hide Coherent, Begun, TickCaches;
    var s1 := s.(cycle := s.cycle + 1);
    ClockKeepsCoherent(strict, cfg, addresses, s);
    EnqueueKeepsCoherent(strict, cfg, addresses, s1, job.threadId, job);
    var s2 := Enqueued(s1, job.threadId, job);
    TickCachesKeepsCoherent(strict, cfg, addresses, s2, |s2.caches|);
    FirstTicks(cfg, s, job);
  }

  lemma PlainCycleKeepsCoherent(strict: bool, cfg: Config, addresses: set<nat>, w: System)
    requires cfg.Valid() && (strict ==> TraceOk(cfg, addresses)) && Coherent(strict, cfg, addresses, w)
    ensures Coherent(strict, cfg, addresses, PlainCycle(cfg, w))
  {
    CoherentIsShaped(strict, cfg, addresses, w);
    hide Coherent, TickCaches, BusTick;
    ClockKeepsCoherent(strict, cfg, addresses, w);
    TickCachesKeepsCoherent(strict, cfg, addresses, w.(cycle := w.cycle + 1), |w.caches|);
    BusTickKeepsCoherent(strict, cfg, addresses, TickCaches(cfg, w.(cycle := w.cycle + 1), |w.caches|));
  }

  lemma {:induction false} WaitedIsCoherent(strict: bool, cfg: Config, addresses: set<nat>, g: System, k: nat, n: nat, m: nat)
    requires cfg.Valid() && (strict ==> TraceOk(cfg, addresses)) && Coherent(strict, cfg, addresses, g)
    requires InService(cfg, g, k, n) && m <= n
    ensures Coherent(strict, cfg, addresses, if m < n then Waited(cfg, g, k, m) else EndOf(cfg, g, k, n))
  {
    hide Coherent, PlainCycle, RefreshedBut, EndOf;
    assert 1 <= n;
    if m > 0 {
      WaitedIsCoherent(strict, cfg, addresses, g, k, n, m - 1);
      WaitOrEnd(cfg, g, k, n, m);
      PlainCycleKeepsCoherent(strict, cfg, addresses, Waited(cfg, g, k, m - 1));
    }
  }

  /** Between jobs: quiet, and coherent as far as the trace allows. */
  ghost predicate Ready(strict: bool, cfg: Config, addresses: set<nat>, s: System)
    requires cfg.Valid()
  {
    Quiescent(cfg, s) && Coherent(strict, cfg, addresses, s)
  }

  lemma ReadyWithoutCoherence(strict: bool, cfg: Config, addresses: set<nat>, s: System)
    requires cfg.Valid() && Ready(strict, cfg, addresses, s)
    ensures Ready(false, cfg, addresses, s)
  {
    hide GoodCache, Quiescent, BusServes;
  }

  lemma RunJobIsCoherent(strict: bool, cfg: Config, addresses: set<nat>, s: System, job: Job)
    requires cfg.Valid() && (strict ==> TraceOk(cfg, addresses)) && Ready(strict, cfg, addresses, s)
    requires job.threadId < |s.caches| && job.address in addresses
    ensures Coherent(strict, cfg, addresses, Started(cfg, s, job))
    ensures Coherent(strict, cfg, addresses, RunJob(cfg, s, job))
  {
    BegunIsCoherent(strict, cfg, addresses, s, job);
    GrantKeepsCoherent(strict, cfg, addresses, Begun(cfg, s, job));
    if 1 <= ServiceCost(cfg, s, job) {
      InServiceAfterFirst(cfg, s, job);
      var n := ServiceCost(cfg, s, job);
      hide Coherent, Begun, NextTransaction, InService, EndOf, ServiceCost;
      WaitedIsCoherent(strict, cfg, addresses, Started(cfg, s, job), job.threadId, n, n);
    }
  }

  /** The end of a service leaves every cache idle. */
  lemma EndIsQuiescent(cfg: Config, g: System, k: nat, n: nat)
    requires cfg.Valid() && InService(cfg, g, k, n)
    requires g.bus.inUse ==> g.caches[k].startServiceCycle + g.caches[k].jobCycleCost <= g.bus.endCycle
    ensures Quiescent(cfg, EndOf(cfg, g, k, n))
    ensures EndOf(cfg, g, k, n).cycle == g.cycle + n
  {
    hide TouchAll, DoneSet, DoneStats, NeedToEvict;
    var e := EndOf(cfg, g, k, n);
    forall j | 0 <= j < |e.caches|
      ensures Idle(cfg, e.caches[j], e.cycle)
    {
      assert Shaped(cfg, g.caches[j]);
    }
  }

  lemma RunJobIsReady(strict: bool, cfg: Config, addresses: set<nat>, s: System, job: Job)
    requires cfg.Valid() && TimingApplies(strict, cfg) && (strict ==> TraceOk(cfg, addresses)) && Ready(strict, cfg, addresses, s)
    requires job.threadId < |s.caches| && job.address in addresses
    ensures Ready(strict, cfg, addresses, RunJob(cfg, s, job))
    ensures RunJob(cfg, s, job).cycle == s.cycle + ServiceCost(cfg, s, job) + 1
  {
    var g, k := Started(cfg, s, job), job.threadId;
    RunJobIsCoherent(strict, cfg, addresses, s, job);
    BegunIsCoherent(strict, cfg, addresses, s, job);
    GrantIsTimed(strict, cfg, addresses, Begun(cfg, s, job));
    StartedShape(cfg, s, job);
    TakenDecides(cfg, s, job);
    hide Coherent, Duration, CostOf, NextTransaction, EndOf, Shaped, Taken;
    if 1 <= ServiceCost(cfg, s, job) {
      InServiceAfterFirst(cfg, s, job);
      hide ServiceCost;
      EndIsQuiescent(cfg, g, k, ServiceCost(cfg, s, job));
    } else {
      assert g.caches[k] == Taken(cfg, s, job).cache;
      forall j | 0 <= j < |g.caches|
        ensures Idle(cfg, g.caches[j], g.cycle)
      {
      }
    }
  }

  // ---------------------------------------------------------------------
  // Whole traces
  // ---------------------------------------------------------------------

  function JobAddresses(trace: seq<Job>): set<nat> {
    set j | j in trace :: j.address
  }

  /** MOESI timing needs coherence, which MOESI has on every trace; the others manage without. */
  predicate NeedsCoherence(cfg: Config) {
    cfg.protocol == MOESI
  }

  lemma InitIsReady(strict: bool, cfg: Config, addresses: set<nat>)
    requires cfg.Valid()
    ensures Ready(strict, cfg, addresses, Init(cfg))
  {
    InitIsCoherent(strict, cfg, addresses);
  }

  /** The interpreter: the trace's jobs one after the other. */
  function RunTrace(cfg: Config, trace: seq<Job>): (s: System)
    requires cfg.Valid() && JobsInRange(cfg, trace)
    ensures |s.caches| == cfg.numProcessors && Quiescent(cfg, s)
    decreases |trace|, 1
  {
    if |trace| == 0 then
      InitIsReady(NeedsCoherence(cfg), cfg, {});
      Init(cfg)
    else
      var n := |trace| - 1;
      RunTraceIsReady(NeedsCoherence(cfg), cfg, JobAddresses(trace), trace[..n]);
      RunJobIsReady(NeedsCoherence(cfg), cfg, JobAddresses(trace), RunTrace(cfg, trace[..n]), trace[n]);
      RunJob(cfg, RunTrace(cfg, trace[..n]), trace[n])
  }

  lemma {:induction false} RunTraceIsReady(strict: bool, cfg: Config, addresses: set<nat>, trace: seq<Job>)
    requires cfg.Valid() && JobsInRange(cfg, trace) && JobAddresses(trace) <= addresses
    requires TimingApplies(strict, cfg) && (strict ==> TraceOk(cfg, addresses))
    ensures Ready(strict, cfg, addresses, RunTrace(cfg, trace))
    decreases |trace|, 2
  {
    hide Ready, RunJob, Init, Quiescent;
    if |trace| == 0 {
      InitIsReady(strict, cfg, addresses);
    } else {
      var n := |trace| - 1;
      assert trace[n].address in JobAddresses(trace);
      RunTraceIsReady(strict, cfg, addresses, trace[..n]);
      RunJobIsReady(strict, cfg, addresses, RunTrace(cfg, trace[..n]), trace[n]);
    }
  }

  /** Total cost: every job's service time plus the cycle that brings it in. */
  function TraceCost(cfg: Config, trace: seq<Job>): nat
    requires cfg.Valid() && JobsInRange(cfg, trace)
  {
    if |trace| == 0 then 0
    else
      var n := |trace| - 1;
      TraceCost(cfg, trace[..n]) + ServiceCost(cfg, RunTrace(cfg, trace[..n]), trace[n]) + 1
  }

  // ---------------------------------------------------------------------
  // Refinement
  // ---------------------------------------------------------------------

  /** `n` iterations of the `while` loop, which stays put once its guard is false. */
  function Iterate(cfg: Config, c: Controller, n: nat): (r: Controller)
    requires cfg.Valid() && SystemShaped(cfg, c.sys) && JobsInRange(cfg, c.outstanding)
    ensures SystemShaped(cfg, r.sys) && JobsInRange(cfg, r.outstanding)
  {
    if n == 0 then c
    else
      var p := Iterate(cfg, c, n - 1);
      if LoopGuard(p) then Cycle(cfg, p) else p
  }

  ghost predicate AtMostOneBusy(s: System) {
    forall i, j :: 0 <= i < |s.caches| && 0 <= j < |s.caches| && s.caches[i].busy && s.caches[j].busy ==> i == j
  }

  /** After `n` iterations the loop is still running, with at most one cache busy. */
  ghost predicate StillRunning(cfg: Config, c: Controller, n: nat)
    requires cfg.Valid() && SystemShaped(cfg, c.sys) && JobsInRange(cfg, c.outstanding)
  {
    LoopGuard(Iterate(cfg, c, n)) && AtMostOneBusy(Iterate(cfg, c, n).sys)
  }

  /** From the state before a job, the loop walks through the job's states. */
  lemma {:induction false} JobIterations(cfg: Config, c: Controller, before: nat, s: System, job: Job, rest: seq<Job>, m: nat)
    requires cfg.Valid() && SystemShaped(cfg, c.sys) && JobsInRange(cfg, c.outstanding)
    requires Quiescent(cfg, s) && job.threadId < |s.caches| && JobsInRange(cfg, rest)
    requires Iterate(cfg, c, before) == Controller(s, [job] + rest)
    requires 1 <= m <= ServiceCost(cfg, s, job) + 1
    ensures Iterate(cfg, c, before + m) == Controller(MidJob(cfg, s, job, m), rest)
    ensures StillRunning(cfg, c, before + m - 1)
  {
    hide Cycle, MidJob, ServiceCost, Quiescent, LoopGuard, SystemShaped;
    if m == 1 {
      FirstCycle(cfg, s, job, rest);
      assert AtMostOneBusy(s) by { QuietMeansNoneBusy(cfg, s); }
    } else {
      JobIterations(cfg, c, before, s, job, rest, m - 1);
      NextCycle(cfg, s, job, rest, m - 1);
    }
  }

  lemma QuietMeansNoneBusy(cfg: Config, s: System)
    requires Quiescent(cfg, s)
    ensures AtMostOneBusy(s) && NoJobs(s)
  {
  }

  lemma MidJobEnds(cfg: Config, s: System, job: Job)
    requires cfg.Valid() && Quiescent(cfg, s) && job.threadId < |s.caches|
    ensures MidJob(cfg, s, job, ServiceCost(cfg, s, job) + 1) == RunJob(cfg, s, job)
  {
    hide RunJob, ServiceCost, Quiescent, Waited;
  }

  /** All through one job the loop keeps running, with at most one cache busy. */
  lemma LoopRunsThroughJob(cfg: Config, c: Controller, before: nat, s: System, job: Job, rest: seq<Job>)
    requires cfg.Valid() && SystemShaped(cfg, c.sys) && JobsInRange(cfg, c.outstanding)
    requires Quiescent(cfg, s) && job.threadId < |s.caches| && JobsInRange(cfg, rest)
    requires Iterate(cfg, c, before) == Controller(s, [job] + rest)
    ensures forall x :: before <= x < before + ServiceCost(cfg, s, job) + 1 ==> StillRunning(cfg, c, x)
  {
    hide *;
    forall x | before <= x < before + ServiceCost(cfg, s, job) + 1
      ensures StillRunning(cfg, c, x)
    {
      JobIterations(cfg, c, before, s, job, rest, x - before + 1);
    }
  }

  /** The loop runs one whole job. */
  lemma LoopRunsJob(cfg: Config, c: Controller, before: nat, s: System, job: Job, rest: seq<Job>)
    requires cfg.Valid() && SystemShaped(cfg, c.sys) && JobsInRange(cfg, c.outstanding)
    requires Quiescent(cfg, s) && job.threadId < |s.caches| && JobsInRange(cfg, rest)
    requires Iterate(cfg, c, before) == Controller(s, [job] + rest)
    ensures Iterate(cfg, c, before + ServiceCost(cfg, s, job) + 1) == Controller(RunJob(cfg, s, job), rest)
  {
    hide *;
    MidJobEnds(cfg, s, job);
    JobIterations(cfg, c, before, s, job, rest, ServiceCost(cfg, s, job) + 1);
  }

  /** The clock stands at the total cost. */
  lemma {:induction false} ClockIsTotalCost(cfg: Config, trace: seq<Job>)
    requires cfg.Valid() && JobsInRange(cfg, trace)
    ensures RunTrace(cfg, trace).cycle == TraceCost(cfg, trace)
  {
    if |trace| == 0 {
      hide NewCache;
    } else {
      var n := |trace| - 1;
      ClockIsTotalCost(cfg, trace[..n]);
      assert forall j :: j in trace[..n] ==> j in trace;
      hide Init, RunJob, ServiceCost, Quiescent, Ready;
      RunTraceIsReady(NeedsCoherence(cfg), cfg, JobAddresses(trace), trace[..n]);
      RunJobIsReady(NeedsCoherence(cfg), cfg, JobAddresses(trace), RunTrace(cfg, trace[..n]), trace[n]);
    }
  }

  /** After the first jobs of a trace the loop is where the interpreter is. */
  ghost predicate ReachedAfter(cfg: Config, trace: seq<Job>, first: seq<Job>, rest: seq<Job>)
    requires cfg.Valid() && JobsInRange(cfg, trace) && JobsInRange(cfg, first)
  {
    Iterate(cfg, Controller(Init(cfg), trace), TraceCost(cfg, first)) == Controller(RunTrace(cfg, first), rest)
  }

  ghost predicate RunningUntil(cfg: Config, trace: seq<Job>, n: nat)
    requires cfg.Valid() && JobsInRange(cfg, trace)
  {
    forall x :: 0 <= x < n ==> StillRunning(cfg, Controller(Init(cfg), trace), x)
  }

  lemma NextJobReached(cfg: Config, trace: seq<Job>, first: seq<Job>, rest: seq<Job>)
    requires cfg.Valid() && JobsInRange(cfg, trace) && JobsInRange(cfg, first) && JobsInRange(cfg, rest) && |first| > 0
    requires var n := |first| - 1; ReachedAfter(cfg, trace, first[..n], [first[n]] + rest)
    ensures ReachedAfter(cfg, trace, first, rest)
  {
    hide Init, RunJob, ServiceCost, Quiescent, SystemShaped, Iterate;
    var n := |first| - 1;
    LoopRunsJob(cfg, Controller(Init(cfg), trace), TraceCost(cfg, first[..n]), RunTrace(cfg, first[..n]), first[n], rest);
  }

  lemma RunningUntilNextJob(cfg: Config, trace: seq<Job>, first: seq<Job>, rest: seq<Job>)
    requires cfg.Valid() && JobsInRange(cfg, trace) && JobsInRange(cfg, first) && JobsInRange(cfg, rest) && |first| > 0
    requires var n := |first| - 1; ReachedAfter(cfg, trace, first[..n], [first[n]] + rest) && RunningUntil(cfg, trace, TraceCost(cfg, first[..n]))
    ensures RunningUntil(cfg, trace, TraceCost(cfg, first))
  {
    hide Init, RunJob, ServiceCost, Quiescent, SystemShaped, Iterate, StillRunning;
    var n := |first| - 1;
    LoopRunsThroughJob(cfg, Controller(Init(cfg), trace), TraceCost(cfg, first[..n]), RunTrace(cfg, first[..n]), first[n], rest);
  }

  lemma {:induction false} LoopReachesPrefix(cfg: Config, trace: seq<Job>, first: seq<Job>, rest: seq<Job>)
    requires cfg.Valid() && JobsInRange(cfg, trace) && trace == first + rest
    ensures JobsInRange(cfg, first) && JobsInRange(cfg, rest)
    ensures ReachedAfter(cfg, trace, first, rest) && RunningUntil(cfg, trace, TraceCost(cfg, first))
    decreases |first|
  {
    assert forall k :: 0 <= k < |first| ==> first[k] == trace[k];
    assert forall k :: 0 <= k < |rest| ==> rest[k] == trace[k + |first|];
    hide ReachedAfter, RunningUntil;
    if |first| == 0 {
      assert rest == trace;
      LoopAtStart(cfg, trace);
    } else {
      var n := |first| - 1;
      assert trace == first[..n] + ([first[n]] + rest);
      LoopReachesPrefix(cfg, trace, first[..n], [first[n]] + rest);
      NextJobReached(cfg, trace, first, rest);
      RunningUntilNextJob(cfg, trace, first, rest);
    }
  }

  lemma LoopAtStart(cfg: Config, trace: seq<Job>)
    requires cfg.Valid() && JobsInRange(cfg, trace)
    ensures ReachedAfter(cfg, trace, [], trace) && RunningUntil(cfg, trace, 0)
  {
    hide Init;
  }

  /** The main refinement: on every trace the loop stops after exactly `TraceCost` cycles,
      in exactly the interpreter's state, with at most one cache busy all along. */
  lemma LoopRefinesInterpreter(cfg: Config, trace: seq<Job>)
    requires cfg.Valid() && JobsInRange(cfg, trace)
    ensures var c0 := Controller(Init(cfg), trace);
            var n := TraceCost(cfg, trace);
            && Iterate(cfg, c0, n) == Controller(RunTrace(cfg, trace), [])
            && !LoopGuard(Iterate(cfg, c0, n))
            && RunTrace(cfg, trace).cycle == n
            && (forall x :: 0 <= x < n ==> StillRunning(cfg, c0, x))
  {
    assert trace == trace + [];
    LoopReachesPrefix(cfg, trace, trace, []);
    ClockIsTotalCost(cfg, trace);
    QuietMeansNoneBusy(cfg, RunTrace(cfg, trace));
    hide Init, Iterate, RunTrace, AtMostOneBusy, Quiescent, LoopGuard, NoJobs;
  }

  // ---------------------------------------------------------------------
  // The loop is one of the interleavings
  // ---------------------------------------------------------------------

  /** A sequence of events of `trace`'s jobs that leads to `s`. */
  ghost predicate LeadsTo(cfg: Config, jobs: set<Job>, es: seq<Event>, s: System)
    requires cfg.Valid()
  {
    && (forall k :: 0 <= k < |es| ==> es[k].Valid(cfg) && (es[k].Enqueues? ==> es[k].job in jobs))
    && Run(cfg, es) == s
  }

  lemma OneMoreEvent(cfg: Config, jobs: set<Job>, es: seq<Event>, s: System, e: Event)
    requires cfg.Valid() && LeadsTo(cfg, jobs, es, s) && e.Valid(cfg) && (e.Enqueues? ==> e.job in jobs)
    ensures SystemShaped(cfg, s) && LeadsTo(cfg, jobs, es + [e], Apply(cfg, s, e))
  {
    assert (es + [e])[..|es|] == es;
    hide Apply, Init;
  }

  lemma {:induction false} RoundIsEvents(cfg: Config, jobs: set<Job>, es: seq<Event>, s: System, n: nat) returns (fs: seq<Event>)
    requires cfg.Valid() && LeadsTo(cfg, jobs, es, s) && SystemShaped(cfg, s) && n <= |s.caches|
    ensures LeadsTo(cfg, jobs, fs, TickCaches(cfg, s, n))
  {
    hide LeadsTo, TickCache;
    fs := es;
    if n > 0 {
      fs := RoundIsEvents(cfg, jobs, es, s, n - 1);
      OneMoreEvent(cfg, jobs, fs, TickCaches(cfg, s, n - 1), CacheTicks(n - 1));
      fs := fs + [CacheTicks(n - 1)];
    }
  }

  lemma RoundAndBus(cfg: Config, jobs: set<Job>, es: seq<Event>, s: System) returns (fs: seq<Event>)
    requires cfg.Valid() && LeadsTo(cfg, jobs, es, s) && SystemShaped(cfg, s)
    ensures LeadsTo(cfg, jobs, fs, BusTick(cfg, TickCaches(cfg, s, |s.caches|)))
  {
    hide LeadsTo, TickCaches, BusTick;
    fs := RoundIsEvents(cfg, jobs, es, s, |s.caches|);
    OneMoreEvent(cfg, jobs, fs, TickCaches(cfg, s, |s.caches|), BusTicks);
    fs := fs + [BusTicks];
  }

  lemma CycleIsEvents(cfg: Config, jobs: set<Job>, es: seq<Event>, c: Controller) returns (fs: seq<Event>)
    requires cfg.Valid() && LeadsTo(cfg, jobs, es, c.sys) && SystemShaped(cfg, c.sys) && LoopGuard(c)
    requires JobsInRange(cfg, c.outstanding) && forall j :: j in c.outstanding ==> j in jobs
    ensures LeadsTo(cfg, jobs, fs, Cycle(cfg, c).sys)
    ensures forall j :: j in Cycle(cfg, c).outstanding ==> j in jobs
  {
    hide LeadsTo, TickCaches, BusTick;
    OneMoreEvent(cfg, jobs, es, c.sys, ClockTicks);
    var s1 := c.sys.(cycle := c.sys.cycle + 1);
    fs := es + [ClockTicks];
    if NoJobs(s1) {
      var job := c.outstanding[0];
      OneMoreEvent(cfg, jobs, fs, s1, Enqueues(job.threadId, job));
      fs := RoundAndBus(cfg, jobs, fs + [Enqueues(job.threadId, job)], Enqueued(s1, job.threadId, job));
    } else {
      fs := RoundAndBus(cfg, jobs, fs, s1);
    }
  }

  lemma {:induction false} IterationsAreEvents(cfg: Config, jobs: set<Job>, es: seq<Event>, c: Controller, n: nat) returns (fs: seq<Event>)
    requires cfg.Valid() && LeadsTo(cfg, jobs, es, c.sys) && SystemShaped(cfg, c.sys)
    requires JobsInRange(cfg, c.outstanding) && forall j :: j in c.outstanding ==> j in jobs
    ensures LeadsTo(cfg, jobs, fs, Iterate(cfg, c, n).sys)
    ensures forall j :: j in Iterate(cfg, c, n).outstanding ==> j in jobs
  {
    hide LeadsTo, Cycle;
    fs := es;
    if n > 0 {
      fs := IterationsAreEvents(cfg, jobs, es, c, n - 1);
      var p := Iterate(cfg, c, n - 1);
      if LoopGuard(p) {
        fs := CycleIsEvents(cfg, jobs, fs, p);
      }
    }
  }

  /** Every state of the loop is reached by some sequence of events over the trace's jobs, so
      what holds of all runs holds all along the loop. */
  lemma LoopIsInterleaving(cfg: Config, trace: seq<Job>, n: nat) returns (es: seq<Event>)
    requires cfg.Valid() && JobsInRange(cfg, trace)
    ensures ValidEvents(cfg, es) && AddressesOf(es) <= JobAddresses(trace)
    ensures Run(cfg, es) == Iterate(cfg, Controller(Init(cfg), trace), n).sys
  {
    var jobs := set j | j in trace;
    assert LeadsTo(cfg, jobs, [], Init(cfg));
    es := IterationsAreEvents(cfg, jobs, [], Controller(Init(cfg), trace), n);
    hide Run, Iterate, Init;
  }
}
