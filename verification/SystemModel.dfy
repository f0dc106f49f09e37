/** The whole machine: caches, the atomic bus, the clock, and every step they can take. */
module SystemModel {
  import opened Constants
  import opened LineSets
  import opened CacheModel

  datatype BusState = BusState(
    currentCache: int,
    currentRequest: Option<Request>,
    inUse: bool,
    startCycle: nat,
    endCycle: int,
    isShared: bool)

  datatype System = System(cycle: nat, caches: seq<CacheState>, bus: BusState, stats: Stats)

  predicate CachesShaped(cfg: Config, s: System) {
    |s.caches| == cfg.numProcessors
    && forall i :: 0 <= i < |s.caches| ==> Shaped(cfg, s.caches[i])
  }

  /** The bus serves an existing cache whose request it holds. */
  predicate BusShaped(cfg: Config, s: System) {
    s.bus.inUse ==>
      && 0 <= s.bus.currentCache < |s.caches|
      && s.bus.currentRequest.Some?
      && s.bus.currentRequest.value.lineSet < cfg.NumSets()
      && s.caches[s.bus.currentCache].currentJob.Some?
  }

  predicate SystemShaped(cfg: Config, s: System) {
    CachesShaped(cfg, s) && BusShaped(cfg, s)
  }

  const IDLE_BUS := BusState(0, None, false, 0, 0, false)

  function NewCache(cfg: Config): (c: CacheState)
    ensures Shaped(cfg, c)
  {
    CacheState(seq(cfg.NumSets(), _ => []), [], None, None, false, false, false, 0, 0)
  }

  function Init(cfg: Config): (s: System)
    ensures SystemShaped(cfg, s)
  {
    System(0, seq(cfg.numProcessors, _ => NewCache(cfg)), IDLE_BUS, NO_STATS)
  }

  // ---------------------------------------------------------------------
  // The bus
  // ---------------------------------------------------------------------

  /** Lowest-numbered cache with a request; the number of caches when there is none. */
  function FirstRequester(caches: seq<CacheState>): (i: nat)
    ensures i <= |caches|
    ensures forall k :: 0 <= k < i ==> !caches[k].haveBusRequest
    ensures i < |caches| ==> caches[i].haveBusRequest
  {
    if |caches| == 0 || caches[0].haveBusRequest then 0 else 1 + FirstRequester(caches[1..])
  }

  /** A broadcast in progress: `foundShared` is the loop's local flag. */
  datatype Round = Round(sys: System, foundShared: bool)

  predicate InTransaction(cfg: Config, s: System) {
    SystemShaped(cfg, s) && s.bus.inUse
  }

  /** What one answer does to the end of the transaction, the requester's own cost, and the flags. */
  function Answered(cfg: Config, round: Round, result: SnoopResult): (r: Round)
    requires cfg.Valid() && InTransaction(cfg, round.sys)
    ensures InTransaction(cfg, r.sys)
  {
    var s := round.sys;
    var cc := s.bus.currentCache;
    var c := s.caches[cc];
    var mem, resp := cfg.memoryResponseCycleCost, cfg.cacheResponseCycleCost;
    match cfg.protocol
    case MSI =>
      if result == FLUSH_MODIFIED_TO_SHARED || result == FLUSH_MODIFIED_TO_INVALID then
        round.(sys := s.(
          bus := s.bus.(endCycle := s.bus.endCycle + mem),
          caches := s.caches[cc := c.(jobCycleCost := c.jobCycleCost + mem)],
          stats := s.stats.(numMainMemoryUses := s.stats.numMainMemoryUses + 1)))
      else round
    case MOESI =>
      if result == MODIFIED || result == EXCLUSIVE || result == OWNED then
        if s.bus.currentRequest.value.cycleCost == cfg.cacheHitCycleCost then
          round.(sys := s.(bus := s.bus.(isShared := true)))
        else
          round.(sys := s.(
            bus := s.bus.(endCycle := s.bus.endCycle - (mem - resp), isShared := true),
            caches := s.caches[cc := c.(jobCycleCost := resp)]))
      else round
    case MESI =>
      if result == FLUSH_MODIFIED_TO_INVALID || result == FLUSH_MODIFIED_TO_SHARED then
        round.(sys := s.(
          bus := s.bus.(endCycle := s.bus.endCycle + resp, isShared := true),
          caches := s.caches[cc := c.(jobCycleCost := c.jobCycleCost + resp)],
          stats := s.stats.(numMainMemoryUses := s.stats.numMainMemoryUses + 1)))
      else if result == SHARED then
        if round.foundShared then round.(sys := s.(bus := s.bus.(isShared := true)))
        else
          Round(s.(
            bus := s.bus.(endCycle := s.bus.endCycle - (mem - resp), isShared := true),
            caches := s.caches[cc := c.(jobCycleCost := resp)]), true)
      else round
  }

  /** One iteration of the broadcast: cache `i` snoops, unless it is the requester. */
  function SnoopOne(cfg: Config, round: Round, i: nat): (r: Round)
    requires cfg.Valid() && InTransaction(cfg, round.sys) && i < |round.sys.caches|
    ensures InTransaction(cfg, r.sys)
  {
    hide Answered, Snooped;
    var s := round.sys;
    if i == s.bus.currentCache then round
    else
      var o := Snoop(cfg, s.caches[i], s.stats, s.bus.currentRequest.value, s.cycle);
      Answered(cfg, round.(sys := s.(caches := s.caches[i := o.cache], stats := o.stats)), o.result)
  }

  function Broadcast(cfg: Config, s: System, n: nat): (r: Round)
    requires cfg.Valid() && InTransaction(cfg, s) && n <= |s.caches|
    ensures InTransaction(cfg, r.sys) && |r.sys.caches| == |s.caches|
  {
    if n == 0 then Round(s, false) else SnoopOne(cfg, Broadcast(cfg, s, n - 1), n - 1)
  }

  /** Cache `k` gets the bus. */
  function Granted(cfg: Config, s: System, k: nat): (r: System)
    requires cfg.Valid() && CachesShaped(cfg, s) && k < |s.caches| && s.caches[k].haveBusRequest
    ensures InTransaction(cfg, r)
  {
    var c := s.caches[k];
    s.(caches := s.caches[k := c.(startServiceCycle := s.cycle, busRequestBeingServiced := true)],
       bus := BusState(k, c.busRequest, true, s.cycle, s.cycle + c.busRequest.value.cycleCost, s.bus.isShared),
       stats := s.stats.(numBusRequests := s.stats.numBusRequests + 1))
  }

  /** The memory use the MESI bus counts when nobody answered SHARED. */
  function BroadcastDone(cfg: Config, round: Round): System {
    if !round.foundShared && cfg.protocol == MESI then
      round.sys.(stats := round.sys.stats.(numMainMemoryUses := round.sys.stats.numMainMemoryUses + 1))
    else round.sys
  }

  /** Pick the next request, if any, and broadcast it. */
  function NextTransaction(cfg: Config, s: System): (r: System)
    requires cfg.Valid() && CachesShaped(cfg, s)
    ensures SystemShaped(cfg, r)
  {
    var k := FirstRequester(s.caches);
    if k == |s.caches| then s.(bus := s.bus.(inUse := false, isShared := false))
    else BroadcastDone(cfg, Broadcast(cfg, Granted(cfg, s, k), |s.caches|))
  }

  function Completed(cfg: Config, s: System): (r: System)
    requires cfg.Valid() && InTransaction(cfg, s)
    ensures CachesShaped(cfg, r) && !r.bus.inUse
  {
    var cc := s.bus.currentCache;
    var o := BusJobDone(cfg, s.caches[cc], s.stats, s.bus.isShared, s.cycle);
    s.(caches := s.caches[cc := o.cache], stats := o.stats,
       bus := s.bus.(currentCache := -1, inUse := false, isShared := false))
  }

  function BusTick(cfg: Config, s: System): (r: System)
    requires cfg.Valid() && SystemShaped(cfg, s)
    ensures SystemShaped(cfg, r)
  {
    if !s.bus.inUse then NextTransaction(cfg, s)
    else if s.bus.endCycle <= s.cycle then NextTransaction(cfg, Completed(cfg, s))
    else s
  }

  // ---------------------------------------------------------------------
  // Arbitrary interleavings
  // ---------------------------------------------------------------------

  function TickCache(cfg: Config, s: System, i: nat): (r: System)
    requires cfg.Valid() && SystemShaped(cfg, s) && i < |s.caches|
    ensures SystemShaped(cfg, r)
  {
    hide Tick;
    var o := Tick(cfg, s.caches[i], s.stats, s.cycle);
    s.(caches := s.caches[i := o.cache], stats := o.stats)
  }

  function Enqueued(s: System, i: nat, job: Job): System
    requires i < |s.caches|
  {
    s.(caches := s.caches[i := s.caches[i].(pendingJobs := s.caches[i].pendingJobs + [job])])
  }

  /** One step of some component. */
  datatype Event = ClockTicks | CacheTicks(i: nat) | BusTicks | Enqueues(i: nat, job: Job)
  {
    predicate Valid(cfg: Config) {
      (CacheTicks? || Enqueues?) ==> i < cfg.numProcessors
    }
  }

  function Apply(cfg: Config, s: System, e: Event): (r: System)
    requires cfg.Valid() && SystemShaped(cfg, s) && e.Valid(cfg)
    ensures SystemShaped(cfg, r)
  {
    match e
    case ClockTicks => s.(cycle := s.cycle + 1)
    case CacheTicks(i) => TickCache(cfg, s, i)
    case BusTicks => BusTick(cfg, s)
    case Enqueues(i, job) => Enqueued(s, i, job)
  }

  /** The state after any sequence of steps, in any order. */
  function Run(cfg: Config, es: seq<Event>): (r: System)
    requires cfg.Valid() && forall k :: 0 <= k < |es| ==> es[k].Valid(cfg)
    ensures SystemShaped(cfg, r)
  {
    if |es| == 0 then Init(cfg) else Apply(cfg, Run(cfg, es[..|es| - 1]), es[|es| - 1])
  }

  // ---------------------------------------------------------------------
  // The controller's loop body
  // ---------------------------------------------------------------------

  predicate NoJobs(s: System) {
    forall i :: 0 <= i < |s.caches| ==> !s.caches[i].busy
  }

  function TickCaches(cfg: Config, s: System, n: nat): (r: System)
    requires cfg.Valid() && SystemShaped(cfg, s) && n <= |s.caches|
    ensures SystemShaped(cfg, r) && |r.caches| == |s.caches|
  {
    if n == 0 then s else TickCache(cfg, TickCaches(cfg, s, n - 1), n - 1)
  }

  datatype Controller = Controller(sys: System, outstanding: seq<Job>)

  predicate JobsInRange(cfg: Config, jobs: seq<Job>) {
    forall k :: 0 <= k < |jobs| ==> jobs[k].threadId < cfg.numProcessors
  }

  predicate LoopGuard(c: Controller) {
    !NoJobs(c.sys) || c.outstanding != []
  }

  /** Clock, at most one new job, every cache in order, then the bus. */
  function Cycle(cfg: Config, c: Controller): (r: Controller)
    requires cfg.Valid() && SystemShaped(cfg, c.sys) && JobsInRange(cfg, c.outstanding) && LoopGuard(c)
    ensures SystemShaped(cfg, r.sys) && JobsInRange(cfg, r.outstanding)
  {
    var s1 := c.sys.(cycle := c.sys.cycle + 1);
    if NoJobs(s1) then
      var s2 := Enqueued(s1, c.outstanding[0].threadId, c.outstanding[0]);
      Controller(BusTick(cfg, TickCaches(cfg, s2, |s2.caches|)), c.outstanding[1..])
    else
      Controller(BusTick(cfg, TickCaches(cfg, s1, |s1.caches|)), c.outstanding)
  }
}
