/** In every reachable state: which jobs a cache has still to do, and what its outstanding bus
    request asks for, told by the events of the run. */
module Requests {
  import opened Constants
  import opened LineSets
  import opened CacheModel
  import opened SystemModel
  import opened Coherence
  import opened Safety
  import opened ServiceTime
  import opened JobEffects
  import opened Counts

  // ---------------------------------------------------------------------
  // The history
  // ---------------------------------------------------------------------

  /** The event is the tick in which cache `i` takes its next job: it is not being serviced, has a
      job waiting, and is idle or has just finished. */
  predicate Takes(s: System, e: Event, i: nat)
    requires i < |s.caches|
  {
    var c := s.caches[i];
    && e == CacheTicks(i) && !c.busRequestBeingServiced && |c.pendingJobs| > 0
    && (!c.busy || c.startServiceCycle + c.jobCycleCost <= s.cycle)
  }

  /** The event completes the transaction of cache `i`. */
  predicate Completes(s: System, e: Event, i: nat) {
    e == BusTicks && s.bus.inUse && s.bus.currentCache == i && s.bus.endCycle <= s.cycle
  }

  /** The jobs that have arrived at cache `i`, in order. */
  function Arrived(es: seq<Event>, i: nat): seq<Job> {
    if |es| == 0 then []
    else
      var n := |es| - 1;
      Arrived(es[..n], i) + if es[n].Enqueues? && es[n].i == i then [es[n].job] else []
  }

  /** How many of them it has taken. */
  function Intakes(cfg: Config, es: seq<Event>, i: nat): nat
    requires cfg.Valid() && ValidEvents(cfg, es) && i < cfg.numProcessors
  {
    if |es| == 0 then 0
    else
      var n := |es| - 1;
      Intakes(cfg, es[..n], i) + One(Takes(Run(cfg, es[..n]), es[n], i))
  }

  /** What a cache held when it decided on a read or a write. */
  datatype Decision = Decision(sets: seq<LineSet>, job: Job)

  /** The cache's latest decision, if it asked for the bus and has not been served since. */
  function Outstanding(cfg: Config, es: seq<Event>, i: nat): Option<Decision>
    requires cfg.Valid() && ValidEvents(cfg, es) && i < cfg.numProcessors
  {
    if |es| == 0 then None
    else
      var n := |es| - 1;
      NextOutstanding(cfg, Run(cfg, es[..n]), es[n], i, Outstanding(cfg, es[..n], i))
  }

  function NextOutstanding(cfg: Config, s: System, e: Event, i: nat, before: Option<Decision>): Option<Decision>
    requires cfg.Valid() && i < |s.caches|
  {
    if Takes(s, e, i) && IsAccess(s.caches[i].pendingJobs[0]) then
      var d := Decision(s.caches[i].sets, s.caches[i].pendingJobs[0]);
      if ChoiceFor(cfg, d.sets, d.job).UsesBus() then Some(d) else None
    else if Completes(s, e, i) then None
    else before
  }

  /** The request that a decision makes. */
  predicate Asks(cfg: Config, d: Decision, r: Request)
    requires cfg.Valid()
  {
    && |d.sets| == cfg.NumSets()
    && r.command == (if d.job.IsWrite() then BusRdX else BusRd)
    && r.lineSet == SetOf(cfg, d.job.address) && r.lineTag == TagOf(cfg, d.job.address) && r.address == d.job.address
    && r.cycleCost == CostFor(cfg, d.sets, d.job)
  }

  /** A cache's outstanding request is the one its latest decision made. */
  predicate HoldsRequest(cfg: Config, c: CacheState, d: Option<Decision>)
    requires cfg.Valid()
  {
    && (c.haveBusRequest <==> d.Some?)
    && (d.Some? ==> c.busRequest.Some? && Asks(cfg, d.value, c.busRequest.value))
  }

  // ---------------------------------------------------------------------
  // A tick
  // ---------------------------------------------------------------------

  /** The same waiting jobs, current job and request. */
  predicate SameDuties(c: CacheState, c': CacheState) {
    && c'.pendingJobs == c.pendingJobs && c'.currentJob == c.currentJob
    && c'.haveBusRequest == c.haveBusRequest && c'.busRequest == c.busRequest
  }

  lemma ServedDecision(cfg: Config, c: CacheState, stats: Stats, cycle: nat)
    requires cfg.Valid() && Serving(cfg, c) && IsAccess(c.currentJob.value)
    ensures var job := c.currentJob.value;
            var o := if job.IsWrite() then Write(cfg, c, stats, cycle) else Read(cfg, c, stats, cycle);
            && Shaped(cfg, o.cache) && o.cache.currentJob == Some(job) && o.cache.pendingJobs == c.pendingJobs
            && ChoiceMade(cfg, c.sets, job, o, stats) && OneAccess(cfg, o, stats)
  {
    hide ChoiceMade, Write, Read, OneAccess;
    if c.currentJob.value.IsWrite() {
      WriteChoice(cfg, c, stats, cycle);
      WriteAccess(cfg, c, stats, cycle);
    } else {
      ReadChoice(cfg, c, stats, cycle);
      ReadAccess(cfg, c, stats, cycle);
    }
  }

  lemma GoodIsTidy(cfg: Config, addresses: set<nat>, c: CacheState)
    requires cfg.Valid() && GoodCache(cfg, addresses, c)
    ensures Tidy(cfg, c.sets)
  {
    forall k | 0 <= k < |c.sets|
      ensures |c.sets[k]| <= cfg.numLinesInSet && DistinctTags(c.sets[k])
    {
      assert LinesFrom(cfg, addresses, k, c.sets[k]);
    }
  }

  /** A decided read or write asks for exactly what its lines call for. */
  lemma DecisionAsks(cfg: Config, sets: seq<LineSet>, job: Job, o: Outcome, stats: Stats)
    requires cfg.Valid() && Tidy(cfg, sets) && IsAccess(job) && Shaped(cfg, o.cache) && o.cache.currentJob == Some(job)
    requires ChoiceMade(cfg, sets, job, o, stats) && OneAccess(cfg, o, stats)
    ensures HoldsRequest(cfg, o.cache, if ChoiceFor(cfg, sets, job).UsesBus() then Some(Decision(sets, job)) else None)
  {
    hide ChoiceFor, SetOf, TagOf, SameStates, Upgrades, Marked, CostFor, OneAccess;
    DecidedCost(cfg, sets, job, o, stats);
  }

  /** An idle cache with a job waiting, whose line states are those of `sets`. */
  lemma RequestDecides(cfg: Config, sets: seq<LineSet>, c: CacheState, stats: Stats, cycle: nat)
    requires cfg.Valid() && Shaped(cfg, c) && !c.busRequestBeingServiced && !c.busy && |c.pendingJobs| > 0
    requires Tidy(cfg, sets) && SameStates(sets, c.sets)
    ensures var job, c' := c.pendingJobs[0], HandleRequest(cfg, c, stats, cycle).cache;
            && c'.currentJob == Some(job) && c'.pendingJobs == c.pendingJobs[1..]
            && (IsAccess(job) ==>
                  HoldsRequest(cfg, c', if ChoiceFor(cfg, sets, job).UsesBus() then Some(Decision(sets, job)) else None))
            && (!IsAccess(job) ==> c'.haveBusRequest == c.haveBusRequest && c'.busRequest == c.busRequest)
  {
    hide ChoiceFor, Write, Read, SameStates, Tidy, HoldsRequest, ChoiceMade, OneAccess;
    var job := c.pendingJobs[0];
    var c1 := c.(currentJob := Some(job), pendingJobs := c.pendingJobs[1..]);
    if IsAccess(job) {
      var o := if job.IsWrite() then Write(cfg, c1, stats, cycle) else Read(cfg, c1, stats, cycle);
      ServedDecision(cfg, c1, stats, cycle);
      ChoiceTransfers(cfg, sets, c1.sets, job, o, stats);
      DecisionAsks(cfg, sets, job, o, stats);
    }
  }

  /** What a tick does to the duties of a cache. */
  lemma TickDuties(cfg: Config, addresses: set<nat>, c: CacheState, stats: Stats, cycle: nat)
    requires cfg.Valid() && GoodCache(cfg, addresses, c)
    ensures var c' := Tick(cfg, c, stats, cycle).cache;
            if !c.busRequestBeingServiced && |c.pendingJobs| > 0 && (!c.busy || c.startServiceCycle + c.jobCycleCost <= cycle) then
              var job := c.pendingJobs[0];
              && c'.currentJob == Some(job) && c'.pendingJobs == c.pendingJobs[1..]
              && (IsAccess(job) ==>
                    HoldsRequest(cfg, c', if ChoiceFor(cfg, c.sets, job).UsesBus() then Some(Decision(c.sets, job)) else None))
              && (!IsAccess(job) ==> c'.haveBusRequest == c.haveBusRequest && c'.busRequest == c.busRequest)
            else SameDuties(c, c')
  {
    hide ChoiceFor, HandleRequest, CurrentJobLineTouched, SameStates, Tidy, HoldsRequest, LinesFrom, RequestFor, St;
    GoodIsTidy(cfg, addresses, c);
    SelfSame(c.sets);
    if !c.busRequestBeingServiced {
      TouchKeepsFlags(cfg, c, cycle);
      TouchedIsGood(cfg, addresses, c, cycle);
      var c1 := if c.startServiceCycle + c.jobCycleCost <= cycle
                then CurrentJobLineTouched(cfg, c, cycle).(busy := false) else c;
      if !c1.busy && |c1.pendingJobs| > 0 {
        RequestDecides(cfg, c.sets, c1, stats, cycle);
      }
    }
  }

  // ---------------------------------------------------------------------
  // The bus
  // ---------------------------------------------------------------------

  /** Granting and broadcasting leaves everybody's duties alone. */
  lemma GrantKeepsDuties(cfg: Config, s: System, i: nat)
    requires cfg.Valid() && CachesShaped(cfg, s) && i < |s.caches|
    ensures var s' := NextTransaction(cfg, s);
            |s'.caches| == |s.caches| && SameDuties(s.caches[i], s'.caches[i])
  {
    var k := FirstRequester(s.caches);
    if k < |s.caches| {
      var g := Granted(cfg, s, k);
      BroadcastEffect(cfg, g, |s.caches|);
      hide Broadcast, AnswerOf, Shares, Assign, FirstRequester;
      assert Shaped(cfg, g.caches[i]);
    }
  }

  lemma CompletionDuties(cfg: Config, s: System, i: nat)
    requires cfg.Valid() && InTransaction(cfg, s) && i < |s.caches|
    ensures var s' := Completed(cfg, s);
            && |s'.caches| == |s.caches|
            && (i != s.bus.currentCache ==> s'.caches[i] == s.caches[i])
            && (i == s.bus.currentCache ==>
                  && s'.caches[i].pendingJobs == s.caches[i].pendingJobs && s'.caches[i].currentJob == s.caches[i].currentJob
                  && !s'.caches[i].haveBusRequest)
  {
    hide DoneSet, DoneStats, NeedToEvict, Installed;
  }

  lemma BusTickDuties(cfg: Config, s: System, i: nat)
    requires cfg.Valid() && SystemShaped(cfg, s) && i < |s.caches|
    ensures var s' := BusTick(cfg, s);
            && |s'.caches| == |s.caches|
            && s'.caches[i].pendingJobs == s.caches[i].pendingJobs && s'.caches[i].currentJob == s.caches[i].currentJob
            && if Completes(s, BusTicks, i) then !s'.caches[i].haveBusRequest else SameDuties(s.caches[i], s'.caches[i])
  {
    hide NextTransaction, Completed, Shaped;
    if !s.bus.inUse {
      GrantKeepsDuties(cfg, s, i);
    } else if s.bus.endCycle <= s.cycle {
      CompletionDuties(cfg, s, i);
      GrantKeepsDuties(cfg, Completed(cfg, s), i);
    }
  }

  /** The cache waits for the bus: it has a request that is not the one being served. */
  predicate WaitsForBus(s: System, i: nat)
    requires i < |s.caches|
  {
    s.caches[i].haveBusRequest && !(s.bus.inUse && i == s.bus.currentCache)
  }

  lemma CompletedWaits(cfg: Config, s: System, i: nat)
    requires cfg.Valid() && InTransaction(cfg, s) && i < |s.caches|
    ensures var s' := Completed(cfg, s);
            && |s'.caches| == |s.caches| && (s'.caches[i].haveBusRequest <==> WaitsForBus(s, i))
            && (WaitsForBus(s, i) ==> s'.caches[i] == s.caches[i])
  {
    hide BusJobDone;
    CompletionDuties(cfg, s, i);
  }

  /** From a free bus: somebody is served if anybody waits, and it is the lowest-numbered. */
  lemma GrantServesLowest(cfg: Config, s: System)
    requires cfg.Valid() && CachesShaped(cfg, s)
    ensures var s' := NextTransaction(cfg, s);
            && (s'.bus.inUse <==> exists i :: 0 <= i < |s.caches| && s.caches[i].haveBusRequest)
            && (s'.bus.inUse ==>
                  && 0 <= s'.bus.currentCache < |s.caches| && s.caches[s'.bus.currentCache].haveBusRequest
                  && (forall i :: 0 <= i < s'.bus.currentCache ==> !s.caches[i].haveBusRequest)
                  && s'.bus.startCycle == s.cycle && s'.bus.currentRequest == s.caches[s'.bus.currentCache].busRequest)
  {
    var k := FirstRequester(s.caches);
    if k < |s.caches| {
      var g := Granted(cfg, s, k);
      BroadcastEffect(cfg, g, |s.caches|);
      hide Broadcast, AnswerOf, Shares, Snooped, FirstRequester;
    }
  }

  /** A bus that is free, or becomes free in this tick, starts serving at once if any cache waits,
      and serves the lowest-numbered of those; a bus that is still busy does nothing. */
  lemma BusServesLowest(cfg: Config, s: System)
    requires cfg.Valid() && SystemShaped(cfg, s)
    ensures var s' := BusTick(cfg, s);
            if s.bus.inUse && s.cycle < s.bus.endCycle then s' == s
            else
              && (s'.bus.inUse <==> exists i :: 0 <= i < |s.caches| && WaitsForBus(s, i))
              && (s'.bus.inUse ==>
                    var k := s'.bus.currentCache;
                    && 0 <= k < |s.caches| && WaitsForBus(s, k) && (forall i :: 0 <= i < k ==> !WaitsForBus(s, i))
                    && s'.bus.startCycle == s.cycle && s'.bus.currentRequest == s.caches[k].busRequest)
  {
    hide NextTransaction, Completed, Shaped;
    if !s.bus.inUse {
      GrantServesLowest(cfg, s);
      assert forall i :: 0 <= i < |s.caches| ==> (WaitsForBus(s, i) <==> s.caches[i].haveBusRequest);
    } else if s.bus.endCycle <= s.cycle {
      var c := Completed(cfg, s);
      assert |c.caches| == |s.caches| && c.cycle == s.cycle by { CompletedClock(cfg, s); }
      forall i | 0 <= i < |s.caches|
        ensures (c.caches[i].haveBusRequest <==> WaitsForBus(s, i)) && (WaitsForBus(s, i) ==> c.caches[i] == s.caches[i])
      {
        CompletedWaits(cfg, s, i);
      }
      GrantServesLowest(cfg, c);
    }
  }

  lemma CompletedClock(cfg: Config, s: System)
    requires cfg.Valid() && InTransaction(cfg, s)
    ensures |Completed(cfg, s).caches| == |s.caches| && Completed(cfg, s).cycle == s.cycle
  {
    hide BusJobDone;
  }

  // ---------------------------------------------------------------------
  // Every run
  // ---------------------------------------------------------------------

  /** One event, seen from cache `i`. */
  ghost predicate DutiesMove(cfg: Config, s: System, e: Event, i: nat, s': System)
    requires cfg.Valid() && i < |s.caches| && i < |s'.caches|
  {
    var c, c' := s.caches[i], s'.caches[i];
    && (Takes(s, e, i) ==> c'.currentJob == Some(c.pendingJobs[0]) && c'.pendingJobs == c.pendingJobs[1..])
    && (!Takes(s, e, i) ==>
          && c'.currentJob == c.currentJob
          && c'.pendingJobs == c.pendingJobs + if e.Enqueues? && e.i == i then [e.job] else [])
    && (forall d {:trigger HoldsRequest(cfg, c, d)} :: HoldsRequest(cfg, c, d) ==> HoldsRequest(cfg, c', NextOutstanding(cfg, s, e, i, d)))
  }

  lemma TickMovesDuties(cfg: Config, addresses: set<nat>, s: System, i: nat)
    requires cfg.Valid() && Coherent(false, cfg, addresses, s) && SystemShaped(cfg, s) && i < |s.caches|
    ensures |TickCache(cfg, s, i).caches| == |s.caches| && DutiesMove(cfg, s, CacheTicks(i), i, TickCache(cfg, s, i))
  {
    assert GoodCache(cfg, addresses, s.caches[i]);
    hide Coherent, GoodCache, Tick, ChoiceFor, Asks, Shaped;
    TickDuties(cfg, addresses, s.caches[i], s.stats, s.cycle);
  }

  lemma BusMovesDuties(cfg: Config, s: System, i: nat)
    requires cfg.Valid() && SystemShaped(cfg, s) && i < |s.caches|
    ensures |BusTick(cfg, s).caches| == |s.caches| && DutiesMove(cfg, s, BusTicks, i, BusTick(cfg, s))
  {
    hide BusTick, ChoiceFor, Asks, Shaped;
    BusTickDuties(cfg, s, i);
  }

  lemma EventMovesDuties(cfg: Config, addresses: set<nat>, s: System, e: Event, i: nat)
    requires cfg.Valid() && Coherent(false, cfg, addresses, s) && e.Valid(cfg) && i < |s.caches|
    ensures SystemShaped(cfg, s) && |Apply(cfg, s, e).caches| == |s.caches| && DutiesMove(cfg, s, e, i, Apply(cfg, s, e))
  {
    CoherentIsShaped(false, cfg, addresses, s);
    hide Coherent, BusTick, ChoiceFor, Asks, Tick, Shaped;
    if e == CacheTicks(i) {
      TickMovesDuties(cfg, addresses, s, i);
    } else if e == BusTicks {
      BusMovesDuties(cfg, s, i);
    } else {
      OtherEventsMoveDuties(cfg, s, e, i);
    }
  }

  lemma OtherEventsMoveDuties(cfg: Config, s: System, e: Event, i: nat)
    requires cfg.Valid() && SystemShaped(cfg, s) && e.Valid(cfg) && i < |s.caches| && e != CacheTicks(i) && e != BusTicks
    ensures |Apply(cfg, s, e).caches| == |s.caches| && DutiesMove(cfg, s, e, i, Apply(cfg, s, e))
  {
    hide ChoiceFor, Asks, Tick, Shaped;
    var c' := Apply(cfg, s, e).caches[i];
    assert c' == s.caches[i].(pendingJobs := c'.pendingJobs);
  }

  /** A cache that has taken the first `m` of these jobs. */
  predicate InOrder(c: CacheState, m: nat, jobs: seq<Job>) {
    && m <= |jobs| && c.pendingJobs == jobs[m..]
    && c.currentJob == if m == 0 then None else Some(jobs[m - 1])
  }

  lemma OrderStep(c: CacheState, c': CacheState, m: nat, jobs: seq<Job>, takes: bool, arrived: seq<Job>)
    requires InOrder(c, m, jobs)
    requires takes ==> && arrived == [] && |c.pendingJobs| > 0
                       && c'.currentJob == Some(c.pendingJobs[0]) && c'.pendingJobs == c.pendingJobs[1..]
    requires !takes ==> c'.currentJob == c.currentJob && c'.pendingJobs == c.pendingJobs + arrived
    ensures InOrder(c', m + One(takes), jobs + arrived)
  {
    if takes {
      assert jobs + arrived == jobs;
    } else {
      assert (jobs + arrived)[m..] == jobs[m..] + arrived;
    }
  }

  lemma EventKeepsOrder(cfg: Config, s: System, e: Event, i: nat, s': System, m: nat, jobs: seq<Job>)
    requires cfg.Valid() && i < |s.caches| && i < |s'.caches| && DutiesMove(cfg, s, e, i, s') && InOrder(s.caches[i], m, jobs)
    ensures InOrder(s'.caches[i], m + One(Takes(s, e, i)), jobs + if e.Enqueues? && e.i == i then [e.job] else [])
  {
    hide HoldsRequest, NextOutstanding, InOrder;
    OrderStep(s.caches[i], s'.caches[i], m, jobs, Takes(s, e, i), if e.Enqueues? && e.i == i then [e.job] else []);
  }

  /** In every reachable state, at every cache: jobs are taken in the order of their arrival, none
      is lost, and the current job is the one taken last. */
  lemma {:induction false} JobsInOrder(cfg: Config, es: seq<Event>, i: nat)
    requires cfg.Valid() && ValidEvents(cfg, es) && i < cfg.numProcessors
    ensures var c, m, jobs := Run(cfg, es).caches[i], Intakes(cfg, es, i), Arrived(es, i);
            && m <= |jobs| && c.pendingJobs == jobs[m..]
            && c.currentJob == if m == 0 then None else Some(jobs[m - 1])
  {
    OrderKept(cfg, es, i);
    hide Run, Intakes, Arrived;
  }

  lemma NothingTaken(cfg: Config, es: seq<Event>, i: nat)
    requires cfg.Valid() && |es| == 0 && i < cfg.numProcessors
    ensures ValidEvents(cfg, es) && InOrder(Run(cfg, es).caches[i], Intakes(cfg, es, i), Arrived(es, i))
  {
  }

  lemma PrefixIsValid(cfg: Config, es: seq<Event>, n: nat)
    requires cfg.Valid() && ValidEvents(cfg, es) && n < |es|
    ensures ValidEvents(cfg, es[..n]) && es[n].Valid(cfg)
    ensures (forall k :: 0 <= k < |es| ==> es[k].Valid(cfg)) && (forall k :: 0 <= k < n ==> es[..n][k].Valid(cfg))
    ensures |Run(cfg, es[..n]).caches| == |Run(cfg, es).caches| == cfg.numProcessors
  {
    hide Run;
  }

  lemma {:induction false} OrderKept(cfg: Config, es: seq<Event>, i: nat)
    requires cfg.Valid() && ValidEvents(cfg, es) && i < cfg.numProcessors
    ensures InOrder(Run(cfg, es).caches[i], Intakes(cfg, es, i), Arrived(es, i))
  {
    hide *;
    if |es| == 0 {
      NothingTaken(cfg, es, i);
    } else {
      var n := |es| - 1;
      PrefixIsValid(cfg, es, n);
      OrderKept(cfg, es[..n], i);
      RunIsGood(cfg, es[..n]);
      EventMovesDuties(cfg, AddressesOf(es[..n]), Run(cfg, es[..n]), es[n], i);
      NextIntake(cfg, es, i);
      EventKeepsOrder(cfg, Run(cfg, es[..n]), es[n], i, Run(cfg, es), Intakes(cfg, es[..n], i), Arrived(es[..n], i));
    }
  }

  lemma NextIntake(cfg: Config, es: seq<Event>, i: nat)
    requires cfg.Valid() && ValidEvents(cfg, es) && i < cfg.numProcessors && |es| > 0
    ensures var n := |es| - 1;
            && Run(cfg, es) == Apply(cfg, Run(cfg, es[..n]), es[n])
            && Intakes(cfg, es, i) == Intakes(cfg, es[..n], i) + One(Takes(Run(cfg, es[..n]), es[n], i))
            && Arrived(es, i) == Arrived(es[..n], i) + (if es[n].Enqueues? && es[n].i == i then [es[n].job] else [])
            && Outstanding(cfg, es, i) == NextOutstanding(cfg, Run(cfg, es[..n]), es[n], i, Outstanding(cfg, es[..n], i))
  {
    hide Apply, Takes, NextOutstanding;
  }

  /** In every reachable state a cache has a bus request if and only if its latest read or write
      asked for the bus and has not been served since; the request is for that job's line, and
      it costs what the lines held when the job was decided call for: a hit for an owned line's
      upgrade, two memory accesses for a write that has to evict a modified line, else one. */
  lemma {:induction false} RequestIsDecided(cfg: Config, es: seq<Event>, i: nat)
    requires cfg.Valid() && ValidEvents(cfg, es) && i < cfg.numProcessors
    ensures HoldsRequest(cfg, Run(cfg, es).caches[i], Outstanding(cfg, es, i))
  {
    if |es| == 0 {
    } else {
      var n := |es| - 1;
      hide Run, Coherent, Apply, Takes, NextOutstanding, HoldsRequest, AddressesOf, Outstanding, Intakes, Arrived;
      RequestIsDecided(cfg, es[..n], i);
      RunIsGood(cfg, es[..n]);
      EventMovesDuties(cfg, AddressesOf(es[..n]), Run(cfg, es[..n]), es[n], i);
      NextIntake(cfg, es, i);
    }
  }

  lemma RunIsGood(cfg: Config, es: seq<Event>)
    requires cfg.Valid() && ValidEvents(cfg, es)
    ensures Coherent(false, cfg, AddressesOf(es), Run(cfg, es))
  {
    hide Coherent, Run;
    RunIsCoherent(false, cfg, AddressesOf(es), es);
  }

  /** So the transaction on the bus is for such a decision and lasts one of the few times that go
      with its cost; one that costs neither one nor two memory accesses upgrades an owned line. */
  lemma TransactionIsDecided(cfg: Config, es: seq<Event>)
    requires cfg.Valid() && ValidEvents(cfg, es) && Run(cfg, es).bus.inUse
    ensures var s := Run(cfg, es);
            var r, o, mem := s.bus.currentRequest.value, Outstanding(cfg, es, s.bus.currentCache), cfg.memoryResponseCycleCost;
            && o.Some? && Asks(cfg, o.value, r)
            && (r.cycleCost != mem && r.cycleCost != 2 * mem ==> OwnsAlone(cfg, o.value.sets, o.value.job))
            && (TraceOk(cfg, AddressesOf(es)) ==>
                  Duration(cfg, CostFor(cfg, o.value.sets, o.value.job), s.bus.endCycle - s.bus.startCycle))
  {
    var s := Run(cfg, es);
    OneRequestInService(cfg, es);
    hide Run, Duration, OwnsAlone, SetOf, TagOf, Outstanding, AddressesOf, DirtyFull, TraceOk;
    RequestIsDecided(cfg, es, s.bus.currentCache);
    if TraceOk(cfg, AddressesOf(es)) {
      BusServiceTime(cfg, es);
    }
  }
}
