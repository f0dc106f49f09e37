/** A job-at-a-time interpreter of the trace, and the proof that the controller's
    cycle-by-cycle loop computes exactly what it computes. */
module JobRunner {
  import opened Constants
  import opened LineSets
  import opened CacheModel
  import opened SystemModel
  import opened Coherence
  import opened Safety
  import opened ServiceTime

  // ---------------------------------------------------------------------
  // The interpreter
  // ---------------------------------------------------------------------

  /** What an idle cache does every cycle: it refreshes the line of its last job. */
  function Refreshed(cfg: Config, c: CacheState, cycle: nat): CacheState
    requires cfg.Valid()
  {
    CurrentJobLineTouched(cfg, c, cycle).(busy := false)
  }

  function RefreshedBut(cfg: Config, caches: seq<CacheState>, k: int, cycle: nat): (r: seq<CacheState>)
    requires cfg.Valid()
    ensures |r| == |caches|
  {
    seq(|caches|, j requires 0 <= j < |caches| => if j == k then caches[j] else Refreshed(cfg, caches[j], cycle))
  }

  predicate Idle(cfg: Config, c: CacheState, cycle: nat) {
    && Shaped(cfg, c)
    && !c.busy && !c.haveBusRequest && !c.busRequestBeingServiced
    && c.pendingJobs == []
    && c.startServiceCycle + c.jobCycleCost <= cycle
  }

  /** Nothing is going on: the state between two jobs. */
  predicate Quiescent(cfg: Config, s: System) {
    && SystemShaped(cfg, s)
    && (forall i :: 0 <= i < |s.caches| ==> Idle(cfg, s.caches[i], s.cycle))
    && !s.bus.inUse && !s.bus.isShared
  }

  /** The job's cache takes it in the next cycle, after everybody's refresh. */
  function Taken(cfg: Config, s: System, job: Job): Outcome
    requires cfg.Valid() && Quiescent(cfg, s) && job.threadId < |s.caches|
  {
    var c := Refreshed(cfg, s.caches[job.threadId], s.cycle + 1);
    HandleRequest(cfg, c.(pendingJobs := [job]), s.stats, s.cycle + 1)
  }

  function Begun(cfg: Config, s: System, job: Job): (r: System)
    requires cfg.Valid() && Quiescent(cfg, s) && job.threadId < |s.caches|
    ensures SystemShaped(cfg, r) && !r.bus.inUse
  {
    var o := Taken(cfg, s, job);
    s.(cycle := s.cycle + 1,
       caches := RefreshedBut(cfg, s.caches, -1, s.cycle + 1)[job.threadId := o.cache],
       stats := o.stats)
  }

  /** End of the cycle in which the job was taken: the bus has granted its request, if any. */
  function Started(cfg: Config, s: System, job: Job): (r: System)
    requires cfg.Valid() && Quiescent(cfg, s) && job.threadId < |s.caches|
    ensures SystemShaped(cfg, r)
  {
    NextTransaction(cfg, Begun(cfg, s, job))
  }

  function Max(a: int, b: int): int { if a < b then b else a }

  /** Cycles from the taking of a job to its end: none if it is neither a read nor a
      write, the hit cost for a hit, the duration of the bus transaction otherwise. */
  function ServiceCost(cfg: Config, s: System, job: Job): (n: nat)
    requires cfg.Valid() && Quiescent(cfg, s) && job.threadId < |s.caches|
  {
    var g := Started(cfg, s, job);
    if !Taken(cfg, s, job).cache.busy then 0
    else if !Taken(cfg, s, job).cache.haveBusRequest then Max(1, cfg.cacheHitCycleCost)
    else Max(1, g.bus.endCycle - g.bus.startCycle)
  }

  /** `m` cycles of waiting for cache `k`; the others keep refreshing. */
  function Waited(cfg: Config, g: System, k: nat, m: nat): (r: System)
    requires cfg.Valid() && SystemShaped(cfg, g) && k < |g.caches|
    requires g.bus.inUse ==> g.bus.currentCache == k
    ensures SystemShaped(cfg, r)
  {
    if m == 0 then g
    else g.(cycle := g.cycle + m, caches := RefreshedBut(cfg, g.caches, k, g.cycle + m))
  }

  /** The end of a service that began at `g` and lasted `n` cycles: the transaction
      completes, or the hit is over and everybody refreshes. */
  function EndOf(cfg: Config, g: System, k: nat, n: nat): System
    requires cfg.Valid() && SystemShaped(cfg, g) && k < |g.caches|
    requires g.bus.inUse ==> g.bus.currentCache == k
  {
    if g.bus.inUse then Completed(cfg, Waited(cfg, g, k, n))
    else g.(cycle := g.cycle + n, caches := RefreshedBut(cfg, g.caches, -1, g.cycle + n))
  }

  /** The whole effect of one job. */
  function RunJob(cfg: Config, s: System, job: Job): System
    requires cfg.Valid() && Quiescent(cfg, s) && job.threadId < |s.caches|
  {
    StartedServes(cfg, s, job);
    var g := Started(cfg, s, job);
    var n := ServiceCost(cfg, s, job);
    if n == 0 then g else EndOf(cfg, g, job.threadId, n)
  }

  /** The state `m` cycles after the one before the job. */
  function MidJob(cfg: Config, s: System, job: Job, m: nat): System
    requires cfg.Valid() && Quiescent(cfg, s) && job.threadId < |s.caches|
    requires 1 <= m <= ServiceCost(cfg, s, job) + 1
  {
    StartedServes(cfg, s, job);
    if m == ServiceCost(cfg, s, job) + 1 then RunJob(cfg, s, job)
    else Waited(cfg, Started(cfg, s, job), job.threadId, m - 1)
  }

  // ---------------------------------------------------------------------
  // One round of cache ticks
  // ---------------------------------------------------------------------

  /** The tick of a cache with nothing pending: it never touches the counters. */
  function QuietTick(cfg: Config, c: CacheState, cycle: nat): CacheState
    requires cfg.Valid()
  {
    if !c.busRequestBeingServiced && c.startServiceCycle + c.jobCycleCost <= cycle then Refreshed(cfg, c, cycle) else c
  }

  lemma TickIsQuiet(cfg: Config, c: CacheState, stats: Stats, cycle: nat)
    requires cfg.Valid() && Shaped(cfg, c) && c.pendingJobs == []
    ensures Tick(cfg, c, stats, cycle) == Outcome(QuietTick(cfg, c, cycle), stats)
  {
    hide HandleRequest;
  }

  /** When only cache `k` may have work, the round of ticks is pointwise. */
  lemma {:induction false} TickCachesPointwise(cfg: Config, s: System, n: nat, k: nat)
    requires cfg.Valid() && SystemShaped(cfg, s) && n <= |s.caches| && k < |s.caches|
    requires forall j :: 0 <= j < |s.caches| && j != k ==> s.caches[j].pendingJobs == []
    ensures var r := TickCaches(cfg, s, n);
            && r.cycle == s.cycle && r.bus == s.bus && |r.caches| == |s.caches|
            && r.stats == (if k < n then Tick(cfg, s.caches[k], s.stats, s.cycle).stats else s.stats)
            && (forall j :: 0 <= j < |s.caches| ==>
                  r.caches[j] == if n <= j then s.caches[j]
                                 else if j == k then Tick(cfg, s.caches[k], s.stats, s.cycle).cache
                                 else QuietTick(cfg, s.caches[j], s.cycle))
  {
    hide Tick, QuietTick;
    if n > 0 {
      TickCachesPointwise(cfg, s, n - 1, k);
      if n - 1 != k {
        TickIsQuiet(cfg, s.caches[n - 1], TickCaches(cfg, s, n - 1).stats, s.cycle);
      }
    }
  }

  lemma TouchTwice(s: LineSet, tag: nat, first: nat, second: nat)
    ensures Touch(Touch(s, tag, first), tag, second) == Touch(s, tag, second)
  {
    TouchKeepsStates(s, tag, first);
  }

  /** Refreshing later makes an earlier refresh invisible. */
  lemma RefreshTwice(cfg: Config, c: CacheState, first: nat, second: nat)
    requires cfg.Valid()
    ensures Refreshed(cfg, Refreshed(cfg, c, first), second) == Refreshed(cfg, c, second)
  {
    if c.currentJob.Some? {
      var tag := TagOf(cfg, c.currentJob.value.address);
      forall k | 0 <= k < |c.sets| {
        TouchTwice(c.sets[k], tag, first, second);
      }
      assert TouchAll(TouchAll(c.sets, tag, first), tag, second) == TouchAll(c.sets, tag, second);
    }
  }

  // ---------------------------------------------------------------------
  // The first cycle of a job
  // ---------------------------------------------------------------------

  /** How a cache that has just taken a job looks. */
  lemma TakenDecides(cfg: Config, s: System, job: Job)
    requires cfg.Valid() && Quiescent(cfg, s) && job.threadId < |s.caches|
    ensures var c := Taken(cfg, s, job).cache;
            && Shaped(cfg, c) && c.pendingJobs == [] && !c.busRequestBeingServiced && c.currentJob == Some(job)
            && (c.busy <==> job.IsRead() || job.IsWrite())
            && (c.haveBusRequest ==> c.busy)
            && (c.busy && !c.haveBusRequest ==> c.startServiceCycle == s.cycle + 1 && c.jobCycleCost == cfg.cacheHitCycleCost)
            && (!c.busy ==> c.startServiceCycle + c.jobCycleCost <= s.cycle)
  {
    hide Write, Read, TouchAll;
  }

  lemma TakingTick(cfg: Config, c: CacheState, stats: Stats, cycle: nat, job: Job)
    requires cfg.Valid() && Idle(cfg, c, cycle)
    ensures Tick(cfg, c.(pendingJobs := [job]), stats, cycle)
            == HandleRequest(cfg, Refreshed(cfg, c, cycle).(pendingJobs := [job]), stats, cycle)
  {
    hide HandleRequest, TouchAll;
    assert Refreshed(cfg, c.(pendingJobs := [job]), cycle) == Refreshed(cfg, c, cycle).(pendingJobs := [job]);
  }

  lemma EnqueuedCaches(cfg: Config, s: System, job: Job)
    requires cfg.Valid() && Quiescent(cfg, s) && job.threadId < |s.caches|
    ensures var s1 := Enqueued(s.(cycle := s.cycle + 1), job.threadId, job);
            && SystemShaped(cfg, s1) && |s1.caches| == |s.caches|
            && s1.caches[job.threadId] == s.caches[job.threadId].(pendingJobs := [job])
            && forall j :: 0 <= j < |s1.caches| && j != job.threadId ==> s1.caches[j] == s.caches[j] && s1.caches[j].pendingJobs == []
  {
  }

  lemma IdleRefreshes(cfg: Config, c: CacheState, cycle: nat)
    requires cfg.Valid() && Idle(cfg, c, cycle)
    ensures QuietTick(cfg, c, cycle + 1) == Refreshed(cfg, c, cycle + 1)
    ensures Idle(cfg, c, cycle + 1)
  {
    hide Refreshed;
  }

  /** The ticks of the first cycle, in which job `job` is pending at its cache. */
  lemma FirstTicks(cfg: Config, s: System, job: Job)
    requires cfg.Valid() && Quiescent(cfg, s) && job.threadId < |s.caches|
    ensures var s1 := Enqueued(s.(cycle := s.cycle + 1), job.threadId, job);
            TickCaches(cfg, s1, |s1.caches|) == Begun(cfg, s, job)
  {
    var k := job.threadId;
    var s1 := Enqueued(s.(cycle := s.cycle + 1), k, job);
    EnqueuedCaches(cfg, s, job);
    TickCachesPointwise(cfg, s1, |s1.caches|, k);
    hide Tick, HandleRequest, TickCaches, Refreshed, QuietTick, Idle, SystemShaped;
    forall j | 0 <= j < |s.caches|
      ensures Idle(cfg, s.caches[j], s.cycle + 1)
      ensures QuietTick(cfg, s.caches[j], s.cycle + 1) == Refreshed(cfg, s.caches[j], s.cycle + 1)
    {
      IdleRefreshes(cfg, s.caches[j], s.cycle);
    }
    TakingTick(cfg, s.caches[k], s.stats, s1.cycle, job);
    assert TickCaches(cfg, s1, |s1.caches|).caches == Begun(cfg, s, job).caches;
  }

  lemma FirstRequesterIs(caches: seq<CacheState>, k: nat)
    requires k < |caches|
    requires forall j :: 0 <= j < |caches| && j != k ==> !caches[j].haveBusRequest
    ensures FirstRequester(caches) == if caches[k].haveBusRequest then k else |caches|
  {
  }

  /** A grant from a quiet bus: the requester's line states and everybody's flags stay. */
  lemma GrantShape(cfg: Config, b: System, k: nat)
    requires cfg.Valid() && CachesShaped(cfg, b) && k < |b.caches| && b.caches[k].haveBusRequest
    requires forall j :: 0 <= j < |b.caches| && j != k ==> !b.caches[j].haveBusRequest
    ensures var g := NextTransaction(cfg, b);
            && |g.caches| == |b.caches| && g.cycle == b.cycle
            && g.bus.inUse && g.bus.currentCache == k && g.bus.startCycle == g.cycle
            && g.caches[k] == b.caches[k].(startServiceCycle := g.cycle, busRequestBeingServiced := true,
                                           jobCycleCost := g.caches[k].jobCycleCost)
            && (forall j :: 0 <= j < |g.caches| && j != k ==> g.caches[j] == b.caches[j].(sets := g.caches[j].sets))
  {
    FirstRequesterIs(b.caches, k);
    BroadcastEffect(cfg, Granted(cfg, b, k), |b.caches|);
    hide Broadcast, AnswerOf, Shares, Assign;
  }

  /** The caches between the taking of the job and the bus's grant. */
  lemma BegunIs(cfg: Config, s: System, job: Job)
    requires cfg.Valid() && Quiescent(cfg, s) && job.threadId < |s.caches|
    ensures var b, k := Begun(cfg, s, job), job.threadId;
            && |b.caches| == |s.caches| && b.cycle == s.cycle + 1 && !b.bus.isShared
            && b.caches[k] == Taken(cfg, s, job).cache
            && (forall j :: 0 <= j < |b.caches| && j != k ==> Idle(cfg, b.caches[j], b.cycle))
            && FirstRequester(b.caches) == if b.caches[k].haveBusRequest then k else |b.caches|
  {
    hide Taken, TouchAll;
    var b := Begun(cfg, s, job);
    forall j | 0 <= j < |b.caches| && j != job.threadId
      ensures Idle(cfg, b.caches[j], b.cycle)
    {
      assert b.caches[j] == Refreshed(cfg, s.caches[j], s.cycle + 1);
    }
    hide Refreshed, Begun, FirstRequester;
    FirstRequesterIs(b.caches, job.threadId);
  }

  /** The machine once job `job` of cache `k` has started. */
  ghost predicate StartedAs(cfg: Config, s: System, job: Job, g: System)
    requires cfg.Valid() && Quiescent(cfg, s) && job.threadId < |s.caches|
  {
    var k := job.threadId;
    && |g.caches| == |s.caches|
    && (g.bus.inUse <==> Taken(cfg, s, job).cache.haveBusRequest)
    && (g.bus.inUse ==> g.bus.currentCache == k)
    && g.cycle == s.cycle + 1
    && (!g.bus.inUse ==> g == Begun(cfg, s, job).(bus := g.bus) && !g.bus.isShared)
    && (g.bus.inUse ==> g.caches[k] == Taken(cfg, s, job).cache.(
                          startServiceCycle := g.cycle, busRequestBeingServiced := true, jobCycleCost := g.caches[k].jobCycleCost)
                        && g.bus.startCycle == g.cycle)
    && (forall j :: 0 <= j < |g.caches| && j != k ==> Idle(cfg, g.caches[j], g.cycle))
  }

  lemma StartedWithoutBus(cfg: Config, s: System, job: Job)
    requires cfg.Valid() && Quiescent(cfg, s) && job.threadId < |s.caches| && !Taken(cfg, s, job).cache.haveBusRequest
    ensures StartedAs(cfg, s, job, Started(cfg, s, job))
  {
    BegunIs(cfg, s, job);
    hide Taken, Begun, Idle, FirstRequester;
  }

  lemma StartedWithBus(cfg: Config, s: System, job: Job)
    requires cfg.Valid() && Quiescent(cfg, s) && job.threadId < |s.caches| && Taken(cfg, s, job).cache.haveBusRequest
    ensures StartedAs(cfg, s, job, Started(cfg, s, job))
  {
    BegunIs(cfg, s, job);
    hide Taken, Begun, FirstRequester, NextTransaction;
    GrantShape(cfg, Begun(cfg, s, job), job.threadId);
    var g := Started(cfg, s, job);
    forall j | 0 <= j < |g.caches| && j != job.threadId
      ensures Idle(cfg, g.caches[j], g.cycle)
    {
      assert Shaped(cfg, g.caches[j]);
    }
  }

  /** The other caches stay idle while the bus broadcasts. */
  lemma StartedShape(cfg: Config, s: System, job: Job)
    requires cfg.Valid() && Quiescent(cfg, s) && job.threadId < |s.caches|
    ensures StartedAs(cfg, s, job, Started(cfg, s, job))
  {
    hide StartedAs, Started, Taken, Quiescent;
    if Taken(cfg, s, job).cache.haveBusRequest {
      StartedWithBus(cfg, s, job);
    } else {
      StartedWithoutBus(cfg, s, job);
    }
  }

  // ---------------------------------------------------------------------
  // The following cycles
  // ---------------------------------------------------------------------

  /** A loop iteration without a new job. */
  function PlainCycle(cfg: Config, w: System): (r: System)
    requires cfg.Valid() && SystemShaped(cfg, w)
    ensures SystemShaped(cfg, r)
  {
    BusTick(cfg, TickCaches(cfg, w.(cycle := w.cycle + 1), |w.caches|))
  }

  lemma PlainCycleIsRoundAndBus(cfg: Config, w: System, round: System)
    requires cfg.Valid() && SystemShaped(cfg, w) && SystemShaped(cfg, w.(cycle := w.cycle + 1))
    requires TickCaches(cfg, w.(cycle := w.cycle + 1), |w.caches|) == round
    ensures SystemShaped(cfg, round) && PlainCycle(cfg, w) == BusTick(cfg, round)
  {
    hide TickCaches, BusTick;
  }

  /** A cache that waits at `g` for cache `k`, while everybody else is idle. */
  predicate WaitingFor(cfg: Config, g: System, k: nat) {
    && SystemShaped(cfg, g) && k < |g.caches|
    && (g.bus.inUse ==> g.bus.currentCache == k)
    && g.caches[k].pendingJobs == []
    && (forall j :: 0 <= j < |g.caches| && j != k ==> Idle(cfg, g.caches[j], g.cycle))
  }

  /** `m` cycles of waiting, the last of them up to the bus's tick: cache `k` has ticked too. */
  function RoundFrom(cfg: Config, g: System, k: nat, m: nat): (r: System)
    requires cfg.Valid() && WaitingFor(cfg, g, k)
    ensures SystemShaped(cfg, r)
  {
    var w := Waited(cfg, g, k, m);
    w.(caches := w.caches[k := QuietTick(cfg, g.caches[k], g.cycle + m)])
  }

  lemma RefreshedWhileWaiting(cfg: Config, g: System, k: nat, m: nat, j: nat)
    requires cfg.Valid() && WaitingFor(cfg, g, k) && j < |g.caches|
    ensures var c := Waited(cfg, g, k, m).caches[j];
            && c.pendingJobs == []
            && (j == k ==> c == g.caches[k])
            && (j != k ==> QuietTick(cfg, c, g.cycle + m + 1) == Waited(cfg, g, k, m + 1).caches[j])
  {
    hide TouchAll;
    if j != k {
      RefreshTwice(cfg, g.caches[j], g.cycle + m, g.cycle + m + 1);
    }
  }

  /** One more round of ticks is one more cycle of waiting, plus `k`'s own tick. */
  lemma TicksWhileWaiting(cfg: Config, g: System, k: nat, m: nat, next: nat)
    requires cfg.Valid() && WaitingFor(cfg, g, k) && next == m + 1
    ensures var w := Waited(cfg, g, k, m);
            && SystemShaped(cfg, w.(cycle := w.cycle + 1))
            && TickCaches(cfg, w.(cycle := w.cycle + 1), |w.caches|) == RoundFrom(cfg, g, k, next)
  {
    hide TouchAll, Tick, QuietTick, TickCaches, Refreshed;
    var s1 := Waited(cfg, g, k, m).(cycle := g.cycle + m + 1);
    forall j | 0 <= j < |g.caches|
      ensures s1.caches[j].pendingJobs == []
      ensures j != k ==> QuietTick(cfg, s1.caches[j], s1.cycle) == RoundFrom(cfg, g, k, m + 1).caches[j]
    {
      RefreshedWhileWaiting(cfg, g, k, m, j);
    }
    RefreshedWhileWaiting(cfg, g, k, m, k);
    TickIsQuiet(cfg, s1.caches[k], s1.stats, s1.cycle);
    TickCachesPointwise(cfg, s1, |s1.caches|, k);
    assert TickCaches(cfg, s1, |s1.caches|).caches == RoundFrom(cfg, g, k, m + 1).caches;
  }

  /** So an iteration is one more round and the bus's tick. */
  lemma CycleWhileWaiting(cfg: Config, g: System, k: nat, m: nat)
    requires cfg.Valid() && WaitingFor(cfg, g, k) && 1 <= m
    ensures PlainCycle(cfg, Waited(cfg, g, k, m - 1)) == BusTick(cfg, RoundFrom(cfg, g, k, m))
  {
    assert SystemShaped(cfg, g) && k < |g.caches| && (g.bus.inUse ==> g.bus.currentCache == k);
    hide *;
    var w := Waited(cfg, g, k, m - 1);
    TicksWhileWaiting(cfg, g, k, m - 1, m);
    PlainCycleIsRoundAndBus(cfg, w, RoundFrom(cfg, g, k, m));
  }

  /** The transaction the bus starts is the one for the job's cache. */
  lemma StartedServes(cfg: Config, s: System, job: Job)
    requires cfg.Valid() && Quiescent(cfg, s) && job.threadId < |s.caches|
    ensures var g := Started(cfg, s, job);
            |g.caches| == |s.caches| && (g.bus.inUse ==> g.bus.currentCache == job.threadId)
  {
    StartedShape(cfg, s, job);
  }

  lemma StartedWaits(cfg: Config, s: System, job: Job)
    requires cfg.Valid() && Quiescent(cfg, s) && job.threadId < |s.caches|
    ensures WaitingFor(cfg, Started(cfg, s, job), job.threadId)
    ensures Started(cfg, s, job).caches[job.threadId].busy == Taken(cfg, s, job).cache.busy
    ensures Started(cfg, s, job).caches[job.threadId].haveBusRequest == Taken(cfg, s, job).cache.haveBusRequest
  {
    StartedShape(cfg, s, job);
    TakenDecides(cfg, s, job);
    hide Taken;
  }

  lemma NoRequestsNoTransaction(cfg: Config, s: System)
    requires cfg.Valid() && CachesShaped(cfg, s) && !s.bus.inUse && !s.bus.isShared
    requires forall j :: 0 <= j < |s.caches| ==> !s.caches[j].haveBusRequest
    ensures NextTransaction(cfg, s) == s
  {
  }

  /** The loop body when a job is taken from the queue. */
  lemma TakingCycle(cfg: Config, s: System, job: Job, rest: seq<Job>)
    requires cfg.Valid() && SystemShaped(cfg, s) && NoJobs(s) && job.threadId < |s.caches| && JobsInRange(cfg, rest)
    ensures JobsInRange(cfg, [job] + rest) && LoopGuard(Controller(s, [job] + rest))
    ensures var s1 := Enqueued(s.(cycle := s.cycle + 1), job.threadId, job);
            && SystemShaped(cfg, s1)
            && Cycle(cfg, Controller(s, [job] + rest)) == Controller(BusTick(cfg, TickCaches(cfg, s1, |s1.caches|)), rest)
  {
    hide BusTick, TickCaches;
    assert ([job] + rest)[1..] == rest && ([job] + rest)[0] == job;
    assert NoJobs(s.(cycle := s.cycle + 1));
  }

  lemma QuietBusTick(cfg: Config, s: System)
    requires cfg.Valid() && SystemShaped(cfg, s) && !s.bus.inUse
    ensures BusTick(cfg, s) == NextTransaction(cfg, s)
  {
  }

  lemma FirstCycle(cfg: Config, s: System, job: Job, rest: seq<Job>)
    requires cfg.Valid() && Quiescent(cfg, s) && job.threadId < |s.caches| && JobsInRange(cfg, rest)
    ensures JobsInRange(cfg, [job] + rest) && LoopGuard(Controller(s, [job] + rest))
    ensures Cycle(cfg, Controller(s, [job] + rest)) == Controller(MidJob(cfg, s, job, 1), rest)
  {
    assert SystemShaped(cfg, s) && NoJobs(s);
    assert MidJob(cfg, s, job, 1) == NextTransaction(cfg, Begun(cfg, s, job)) by {
      hide NextTransaction, Begun, EndOf;
    }
    hide *;
    TakingCycle(cfg, s, job, rest);
    FirstTicks(cfg, s, job);
    QuietBusTick(cfg, Begun(cfg, s, job));
  }

  lemma IdleBusTick(cfg: Config, s: System)
    requires cfg.Valid() && SystemShaped(cfg, s) && !s.bus.inUse && !s.bus.isShared
    requires forall j :: 0 <= j < |s.caches| ==> !s.caches[j].haveBusRequest
    ensures BusTick(cfg, s) == s
  {
    NoRequestsNoTransaction(cfg, s);
  }

  /** A hit in service at cache `k` since `g`. */
  predicate HitInService(cfg: Config, g: System, k: nat) {
    && WaitingFor(cfg, g, k) && !g.bus.inUse && !g.bus.isShared
    && !g.caches[k].haveBusRequest && !g.caches[k].busRequestBeingServiced
    && g.caches[k].startServiceCycle == g.cycle && g.caches[k].jobCycleCost == cfg.cacheHitCycleCost
  }

  /** The hit's cache ticks quietly until its time is over, then refreshes. */
  lemma HitTicks(cfg: Config, g: System, k: nat, m: nat)
    requires cfg.Valid() && HitInService(cfg, g, k) && 1 <= m <= Max(1, cfg.cacheHitCycleCost)
    ensures QuietTick(cfg, g.caches[k], g.cycle + m)
            == if m < Max(1, cfg.cacheHitCycleCost) then g.caches[k] else Refreshed(cfg, g.caches[k], g.cycle + m)
  {
    hide Refreshed, Shaped;
  }

  /** After a round of ticks during a hit nobody has a request. */
  lemma HitRound(cfg: Config, g: System, k: nat, m: nat)
    requires cfg.Valid() && HitInService(cfg, g, k) && 1 <= m <= Max(1, cfg.cacheHitCycleCost)
    ensures BusTick(cfg, RoundFrom(cfg, g, k, m)) == RoundFrom(cfg, g, k, m)
  {
    TouchedFlags(cfg, g, k, g.cycle + m);
    HitTicks(cfg, g, k, m);
    hide Refreshed, BusTick, Shaped, QuietTick;
    IdleBusTick(cfg, RoundFrom(cfg, g, k, m));
  }

  lemma HitCaches(cfg: Config, g: System, k: nat, m: nat)
    requires cfg.Valid() && HitInService(cfg, g, k) && 1 <= m <= Max(1, cfg.cacheHitCycleCost)
    ensures RoundFrom(cfg, g, k, m) == if m < Max(1, cfg.cacheHitCycleCost) then Waited(cfg, g, k, m) else EndOf(cfg, g, k, m)
  {
    HitTicks(cfg, g, k, m);
    hide Refreshed, Shaped, QuietTick;
    var w := Waited(cfg, g, k, m);
    assert w.caches[k := g.caches[k]] == w.caches;
    assert w.caches[k := Refreshed(cfg, g.caches[k], g.cycle + m)] == EndOf(cfg, g, k, m).caches;
  }

  lemma HitWaitsOrEnds(cfg: Config, g: System, k: nat, m: nat)
    requires cfg.Valid() && HitInService(cfg, g, k) && 1 <= m <= Max(1, cfg.cacheHitCycleCost)
    ensures PlainCycle(cfg, Waited(cfg, g, k, m - 1))
            == if m < Max(1, cfg.cacheHitCycleCost) then Waited(cfg, g, k, m) else EndOf(cfg, g, k, m)
  {
    assert WaitingFor(cfg, g, k);
    hide *;
    CycleWhileWaiting(cfg, g, k, m);
    HitRound(cfg, g, k, m);
    HitCaches(cfg, g, k, m);
  }

  lemma TouchedFlags(cfg: Config, g: System, k: nat, cycle: nat)
    requires cfg.Valid() && k < |g.caches|
    ensures forall j :: 0 <= j < |g.caches| ==>
              var c := Refreshed(cfg, g.caches[j], cycle);
              c.haveBusRequest == g.caches[j].haveBusRequest && (Shaped(cfg, g.caches[j]) ==> Shaped(cfg, c))
  {
  }

  /** A bus transaction in service for cache `k` since `g`. */
  predicate BusInService(cfg: Config, g: System, k: nat) {
    && WaitingFor(cfg, g, k) && g.bus.inUse && g.bus.startCycle == g.cycle
    && g.caches[k].busRequestBeingServiced
  }

  lemma BusWaits(cfg: Config, g: System, k: nat, m: nat)
    requires cfg.Valid() && BusInService(cfg, g, k) && 1 <= m <= Max(1, g.bus.endCycle - g.bus.startCycle)
    ensures PlainCycle(cfg, Waited(cfg, g, k, m - 1))
            == if m < Max(1, g.bus.endCycle - g.bus.startCycle) then Waited(cfg, g, k, m)
               else EndOf(cfg, g, k, m)
  {
    assert WaitingFor(cfg, g, k);
    assert m < Max(1, g.bus.endCycle - g.bus.startCycle) <==> m < g.bus.endCycle - g.bus.startCycle;
    hide *;
    CycleWhileWaiting(cfg, g, k, m);
    ServicedTicksNot(cfg, g, k, m);
    BusTickWhileWaiting(cfg, g, k, m);
  }

  lemma ServicedTicksNot(cfg: Config, g: System, k: nat, m: nat)
    requires cfg.Valid() && BusInService(cfg, g, k)
    ensures RoundFrom(cfg, g, k, m) == Waited(cfg, g, k, m)
  {
    hide Refreshed;
    var w := Waited(cfg, g, k, m);
    assert w.caches[k := g.caches[k]] == w.caches;
  }

  lemma BusTickWhileWaiting(cfg: Config, g: System, k: nat, m: nat)
    requires cfg.Valid() && BusInService(cfg, g, k) && 1 <= m
    ensures BusTick(cfg, Waited(cfg, g, k, m))
            == if m < g.bus.endCycle - g.bus.startCycle then Waited(cfg, g, k, m) else EndOf(cfg, g, k, m)
  {
    CompletedHasNoRequests(cfg, g, k, m);
    hide NextTransaction, Completed, RefreshedBut;
    if g.bus.endCycle - g.bus.startCycle <= m {
      NoRequestsNoTransaction(cfg, Completed(cfg, Waited(cfg, g, k, m)));
    }
  }

  lemma CompletedHasNoRequests(cfg: Config, g: System, k: nat, m: nat)
    requires cfg.Valid() && WaitingFor(cfg, g, k) && g.bus.inUse
    ensures var c := Completed(cfg, Waited(cfg, g, k, m));
            !c.bus.isShared &&
            forall j :: 0 <= j < |c.caches| ==> !c.caches[j].haveBusRequest
  {
    hide DoneSet, DoneStats, NeedToEvict, TouchAll;
  }

  lemma PlainCycleIs(cfg: Config, w: System, rest: seq<Job>, k: nat)
    requires cfg.Valid() && SystemShaped(cfg, w) && JobsInRange(cfg, rest) && k < |w.caches| && w.caches[k].busy
    ensures LoopGuard(Controller(w, rest))
    ensures Cycle(cfg, Controller(w, rest)) == Controller(PlainCycle(cfg, w), rest)
  {
    hide TickCaches, BusTick;
    assert !NoJobs(w.(cycle := w.cycle + 1));
  }

  /** What is in service after the first cycle of a job that takes time. */
  lemma InServiceAfterFirst(cfg: Config, s: System, job: Job)
    requires cfg.Valid() && Quiescent(cfg, s) && job.threadId < |s.caches| && 1 <= ServiceCost(cfg, s, job)
    ensures var g, k := Started(cfg, s, job), job.threadId;
            && WaitingFor(cfg, g, k) && g.caches[k].busy
            && InService(cfg, g, k, ServiceCost(cfg, s, job))
  {
    var g, k := Started(cfg, s, job), job.threadId;
    StartedShape(cfg, s, job);
    StartedWaits(cfg, s, job);
    TakenDecides(cfg, s, job);
    assert !g.bus.inUse ==> g.caches[k] == Taken(cfg, s, job).cache;
    hide Taken, Started;
  }

  lemma OnlyOneBusy(cfg: Config, g: System, k: nat, m: nat)
    requires cfg.Valid() && WaitingFor(cfg, g, k) && g.caches[k].busy
    ensures var w := Waited(cfg, g, k, m);
            forall i :: 0 <= i < |w.caches| ==> (w.caches[i].busy <==> i == k)
  {
    hide CurrentJobLineTouched;
  }

  /** What is in service at `g` for cache `k` ends after `n` cycles. */
  predicate InService(cfg: Config, g: System, k: nat, n: nat) {
    if g.bus.inUse then BusInService(cfg, g, k) && n == Max(1, g.bus.endCycle - g.bus.startCycle)
    else HitInService(cfg, g, k) && n == Max(1, cfg.cacheHitCycleCost)
  }

  lemma WaitOrEnd(cfg: Config, g: System, k: nat, n: nat, m: nat)
    requires cfg.Valid() && InService(cfg, g, k, n) && 1 <= m <= n
    ensures PlainCycle(cfg, Waited(cfg, g, k, m - 1)) == if m < n then Waited(cfg, g, k, m) else EndOf(cfg, g, k, n)
  {
    hide PlainCycle, Completed, RefreshedBut;
    if g.bus.inUse {
      BusWaits(cfg, g, k, m);
    } else {
      HitWaitsOrEnds(cfg, g, k, m);
    }
  }

  lemma MidJobWaits(cfg: Config, s: System, job: Job, m: nat)
    requires cfg.Valid() && Quiescent(cfg, s) && job.threadId < |s.caches| && 1 <= m <= ServiceCost(cfg, s, job)
    ensures var g, k, n := Started(cfg, s, job), job.threadId, ServiceCost(cfg, s, job);
            && k < |g.caches| && (g.bus.inUse ==> g.bus.currentCache == k)
            && MidJob(cfg, s, job, m) == Waited(cfg, g, k, m - 1)
            && MidJob(cfg, s, job, m + 1) == if m < n then Waited(cfg, g, k, m) else EndOf(cfg, g, k, n)
  {
    hide Started, Waited, EndOf, ServiceCost, Quiescent;
    StartedServes(cfg, s, job);
  }

  /** Every cycle of a job moves it one step on, and exactly its cache is busy meanwhile. */
  lemma NextCycle(cfg: Config, s: System, job: Job, rest: seq<Job>, m: nat)
    requires cfg.Valid() && Quiescent(cfg, s) && job.threadId < |s.caches| && JobsInRange(cfg, rest)
    requires 1 <= m <= ServiceCost(cfg, s, job)
    ensures var w := MidJob(cfg, s, job, m);
            && SystemShaped(cfg, w)
            && (forall i :: 0 <= i < |w.caches| ==> (w.caches[i].busy <==> i == job.threadId))
            && LoopGuard(Controller(w, rest))
            && Cycle(cfg, Controller(w, rest)) == Controller(MidJob(cfg, s, job, m + 1), rest)
  {
    var g, k, n := Started(cfg, s, job), job.threadId, ServiceCost(cfg, s, job);
    hide *;
    InServiceAfterFirst(cfg, s, job);
    MidJobWaits(cfg, s, job, m);
    assert |MidJob(cfg, s, job, m).caches| == |g.caches| by { SameNumberWaiting(cfg, g, k, m - 1); }
    OnlyOneBusy(cfg, g, k, m - 1);
    PlainCycleIs(cfg, MidJob(cfg, s, job, m), rest, k);
    WaitOrEnd(cfg, g, k, n, m);
  }

  lemma SameNumberWaiting(cfg: Config, g: System, k: nat, m: nat)
    requires cfg.Valid() && WaitingFor(cfg, g, k)
    ensures |Waited(cfg, g, k, m).caches| == |g.caches|
  {
  }
}
