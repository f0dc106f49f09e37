/** Conservation laws of the simulator's counters, and the dirty-eviction prediction. */
module Counts {
  import opened Constants
  import opened LineSets
  import opened CacheModel
  import opened SystemModel
  import opened Coherence
  import opened Safety
  import opened ServiceTime
  import opened JobRunner
  import opened CycleLoop
  import opened JobEffects

  // ---------------------------------------------------------------------
  // At the request
  // ---------------------------------------------------------------------

  /** A served request is one hit or one miss.  A miss goes to the bus; a write miss
      charges and counts a flush exactly when it foresees a dirty eviction.  A hit goes
      to the bus only to upgrade an owned line. */
  ghost predicate OneAccess(cfg: Config, o: Outcome, stats: Stats)
    requires cfg.Valid() && Shaped(cfg, o.cache) && o.cache.currentJob.Some?
  {
    var job := o.cache.currentJob.value;
    var s := o.cache.sets[SetOf(cfg, job.address)];
    var missed := o.stats.numMiss == stats.numMiss + 1;
    && o.stats.numHit + o.stats.numMiss == stats.numHit + stats.numMiss + 1
    && (missed || o.stats.numMiss == stats.numMiss)
    && (missed ==> o.cache.haveBusRequest)
    && (o.cache.haveBusRequest && !missed ==> cfg.protocol == MOESI && job.IsWrite())
    && o.stats.numFlush == stats.numFlush + One(missed && job.IsWrite() && DirtyEviction(cfg, s, TagOf(cfg, job.address)))
    && (missed && job.IsWrite() ==>
          o.cache.busRequest.value.cycleCost == TotalMemoryCost(cfg, s, TagOf(cfg, job.address)))
    && (missed && job.IsRead() ==> o.cache.busRequest.value.cycleCost == cfg.memoryResponseCycleCost)
    && o.stats.numEvict == stats.numEvict
    && o.stats.numBusRequests == stats.numBusRequests
    && o.stats.numMainMemoryUses == stats.numMainMemoryUses
  }

  lemma ReadAccess(cfg: Config, c: CacheState, stats: Stats, cycle: nat)
    requires cfg.Valid() && Serving(cfg, c) && c.currentJob.value.IsRead() && !c.currentJob.value.IsWrite()
    ensures OneAccess(cfg, Read(cfg, c, stats, cycle), stats)
  {
    hide Scanned, TagInState, TagOf, SetOf, DirtyEviction;
  }

  lemma WriteUnsharedAccess(cfg: Config, c: CacheState, stats: Stats, cycle: nat)
    requires cfg.Valid() && cfg.protocol == MOESI && Serving(cfg, c) && c.currentJob.value.IsWrite()
    ensures OneAccess(cfg, WriteUnshared(cfg, c, stats, cycle), stats)
  {
    hide Scanned, TagInState, TagOf, SetOf, DirtyEviction, AssignAll;
  }

  lemma WriteAccess(cfg: Config, c: CacheState, stats: Stats, cycle: nat)
    requires cfg.Valid() && Serving(cfg, c) && c.currentJob.value.IsWrite()
    ensures OneAccess(cfg, Write(cfg, c, stats, cycle), stats)
  {
    hide Scanned, TagInState, TagOf, SetOf, DirtyEviction, AssignAll, WriteUnshared;
    if cfg.protocol == MOESI && !LineInState(cfg, c, Invalid) {
      var c1 := Queried(cfg, c, Invalid, cycle);
      WriteUnsharedAccess(cfg, Queried(cfg, c1, Shared, cycle), stats, cycle);
    }
  }

  lemma TakenAccess(cfg: Config, s: System, job: Job)
    requires cfg.Valid() && Quiescent(cfg, s) && job.threadId < |s.caches|
    ensures var o := Taken(cfg, s, job);
            && Shaped(cfg, o.cache) && o.cache.currentJob == Some(job)
            && if job.IsRead() || job.IsWrite() then OneAccess(cfg, o, s.stats)
               else !o.cache.haveBusRequest && o.stats == s.stats
  {
    hide OneAccess, Write, Read, Refreshed, SystemShaped;
    TakenDecides(cfg, s, job);
    var c0 := s.caches[job.threadId];
    assert Idle(cfg, c0, s.cycle);
    var c := Refreshed(cfg, c0, s.cycle + 1).(pendingJobs := [job]);
    RefreshedEffect(cfg, c0, s.cycle + 1);
    assert c.pendingJobs[1..] == [];
    var c1 := c.(currentJob := Some(job), pendingJobs := []);
    if job.IsWrite() {
      WriteAccess(cfg, c1, s.stats, s.cycle + 1);
    } else if job.IsRead() {
      ReadAccess(cfg, c1, s.stats, s.cycle + 1);
    }
  }

  // ---------------------------------------------------------------------
  // The cost of a request
  // ---------------------------------------------------------------------

  /** A write whose cache owns the tag's line, and holds it in no other state. */
  predicate OwnsAlone(cfg: Config, sets: seq<LineSet>, job: Job)
    requires cfg.Valid()
  {
    var tag := TagOf(cfg, job.address);
    && cfg.protocol == MOESI && job.IsWrite() && TagInState(sets, tag, Owned)
    && !TagInState(sets, tag, Invalid) && !TagInState(sets, tag, Shared)
    && !TagInState(sets, tag, Exclusive) && !TagInState(sets, tag, Modified)
  }

  predicate UpgradesOwned(cfg: Config, s: System, job: Job)
    requires cfg.Valid() && job.threadId < |s.caches|
  {
    OwnsAlone(cfg, s.caches[job.threadId].sets, job)
  }

  /** What a request costs, told by its cache's lines: a hit for an upgrade, otherwise one
      memory access, or two for a write that has to evict from a set of modified lines. */
  function CostFor(cfg: Config, sets: seq<LineSet>, job: Job): nat
    requires cfg.Valid() && |sets| == cfg.NumSets()
  {
    if OwnsAlone(cfg, sets, job) then cfg.cacheHitCycleCost
    else if job.IsWrite() && DirtyFull(cfg.numLinesInSet, sets[SetOf(cfg, job.address)], TagOf(cfg, job.address))
    then 2 * cfg.memoryResponseCycleCost
    else cfg.memoryResponseCycleCost
  }

  /** Every set within capacity, with distinct tags. */
  ghost predicate Tidy(cfg: Config, sets: seq<LineSet>) {
    |sets| == cfg.NumSets() && forall k :: 0 <= k < |sets| ==> |sets[k]| <= cfg.numLinesInSet && DistinctTags(sets[k])
  }

  lemma OwnsAloneIs(cfg: Config, sets: seq<LineSet>, job: Job)
    requires cfg.Valid()
    ensures OwnsAlone(cfg, sets, job) <==> ChoiceFor(cfg, sets, job) == Upgrading
  {
    hide TagInState, TagOf;
  }

  /** Lines that keep their tags and, but for the tag in question, their states. */
  lemma SameDirtyFull(ways: nat, s: LineSet, u: LineSet, tag: nat)
    requires SameLines(s, u) && DistinctTags(s)
    requires !HasLine(s, tag) ==> forall t: nat :: StateIn(u, t) == StateIn(s, t)
    ensures DirtyFull(ways, s, tag) <==> DirtyFull(ways, u, tag)
  {
    if !HasLine(s, tag) {
      forall n | 0 <= n < |s|
        ensures s[n].state == u[n].state
      {
        FindIsFirst(s, s[n].tag, n);
        FindIsFirst(u, s[n].tag, n);
        assert StateIn(u, s[n].tag) == StateIn(s, s[n].tag);
      }
    } else {
      var i := Find(s, tag);
      assert s[i].tag == u[i].tag == tag;
    }
  }

  /** Deciding a request leaves the job's set as full of modified lines as it was. */
  lemma DecidingKeepsDirtyFull(cfg: Config, sets: seq<LineSet>, job: Job, o: Outcome, stats: Stats)
    requires cfg.Valid() && Tidy(cfg, sets) && ChoiceMade(cfg, sets, job, o, stats)
    ensures |o.cache.sets| == |sets|
    ensures var k, tag := SetOf(cfg, job.address), TagOf(cfg, job.address);
            && |o.cache.sets[k]| <= cfg.numLinesInSet
            && (DirtyFull(cfg.numLinesInSet, sets[k], tag) <==> DirtyFull(cfg.numLinesInSet, o.cache.sets[k], tag))
  {
    hide ChoiceFor, TagOf, SetOf, Find, StateIn, DirtyFull;
    var k, tag := SetOf(cfg, job.address), TagOf(cfg, job.address);
    assert SameLines(sets[k], o.cache.sets[k]);
    SameDirtyFull(cfg.numLinesInSet, sets[k], o.cache.sets[k], tag);
  }

  /** What a decided request costs, and when it counts a flush. */
  lemma DecidedCost(cfg: Config, sets: seq<LineSet>, job: Job, o: Outcome, stats: Stats)
    requires cfg.Valid() && Tidy(cfg, sets) && ChoiceMade(cfg, sets, job, o, stats)
    requires Shaped(cfg, o.cache) && o.cache.currentJob == Some(job) && (job.IsRead() || job.IsWrite()) && OneAccess(cfg, o, stats)
    ensures o.cache.haveBusRequest ==> o.cache.busRequest.Some? && o.cache.busRequest.value.cycleCost == CostFor(cfg, sets, job)
    ensures o.stats.numFlush == stats.numFlush
            + One(ChoiceFor(cfg, sets, job) == OnBus && job.IsWrite()
                  && DirtyFull(cfg.numLinesInSet, sets[SetOf(cfg, job.address)], TagOf(cfg, job.address)))
  {
    var k, tag := SetOf(cfg, job.address), TagOf(cfg, job.address);
    hide TagOf, SetOf, SameStates, Upgrades, Marked, ChoiceFor, DirtyFull, OwnsAlone, DirtyEviction;
    DecidingKeepsDirtyFull(cfg, sets, job, o, stats);
    DirtyEvictionIs(cfg, o.cache.sets[k], tag);
    OwnsAloneIs(cfg, sets, job);
  }

  // ---------------------------------------------------------------------
  // On the bus
  // ---------------------------------------------------------------------

  /** How many of the first `n` caches other than `cc` hold the line modified. */
  function ModifiedCopies(caches: seq<CacheState>, cc: int, r: Request, n: nat): nat
    requires n <= |caches| && forall j :: 0 <= j < |caches| ==> r.lineSet < |caches[j].sets|
  {
    if n == 0 then 0
    else ModifiedCopies(caches, cc, r, n - 1) + One(n - 1 != cc && St(caches[n - 1], r.lineSet, r.lineTag) == Modified)
  }

  ghost predicate CountedBroadcast(cfg: Config, a: Stats, b: Stats, copies: nat) {
    && b.numHit == a.numHit && b.numMiss == a.numMiss && b.numEvict == a.numEvict
    && b.numExclusiveToModifiedTransitions == a.numExclusiveToModifiedTransitions
    && b.numBusRequests == a.numBusRequests
    && (cfg.protocol != MOESI ==>
          && b.numFlush == a.numFlush + copies
          && b.numMainMemoryUses == a.numMainMemoryUses + copies)
    && (cfg.protocol == MOESI ==> b.numFlush == a.numFlush && b.numMainMemoryUses == a.numMainMemoryUses)
  }

  lemma SnoopOneCounts(cfg: Config, a: Stats, round: Round, i: nat, copies: nat, st: State)
    requires cfg.Valid() && InTransaction(cfg, round.sys) && i < |round.sys.caches|
    requires var r := round.sys.bus.currentRequest.value; st == St(round.sys.caches[i], r.lineSet, r.lineTag)
    requires CountedBroadcast(cfg, a, round.sys.stats, copies)
    ensures CountedBroadcast(cfg, a, SnoopOne(cfg, round, i).sys.stats, copies + One(i != round.sys.bus.currentCache && st == Modified))
  {
    hide Snooped;
  }

  lemma NextCopy(caches: seq<CacheState>, cc: int, r: Request, n: nat, next: nat)
    requires n < |caches| && next == n + 1 && forall j :: 0 <= j < |caches| ==> r.lineSet < |caches[j].sets|
    ensures ModifiedCopies(caches, cc, r, next)
            == ModifiedCopies(caches, cc, r, n) + One(n != cc && St(caches[n], r.lineSet, r.lineTag) == Modified)
  {
    hide St;
  }

  lemma BroadcastCountsOnce(cfg: Config, g: System, b: Round, n: nat, next: nat)
    requires cfg.Valid() && InTransaction(cfg, g) && InTransaction(cfg, b.sys) && n < |g.caches| == |b.sys.caches| && next == n + 1
    requires SnoopedUpTo(cfg, g, b.sys, n)
    requires CountedBroadcast(cfg, g.stats, b.sys.stats, ModifiedCopies(g.caches, g.bus.currentCache, g.bus.currentRequest.value, n))
    ensures CountedBroadcast(cfg, g.stats, SnoopOne(cfg, b, n).sys.stats,
                             ModifiedCopies(g.caches, g.bus.currentCache, g.bus.currentRequest.value, next))
  {
    var r := g.bus.currentRequest.value;
    SameRequest(cfg, g, b, n);
    hide CountedBroadcast, SnoopOne, SnoopedUpTo, ModifiedCopies, St;
    NextCopy(g.caches, g.bus.currentCache, r, n, next);
    SnoopOneCounts(cfg, g.stats, b, n, ModifiedCopies(g.caches, g.bus.currentCache, r, n), St(b.sys.caches[n], r.lineSet, r.lineTag));
  }

  lemma {:induction false} BroadcastCounts(cfg: Config, g: System, n: nat)
    requires cfg.Valid() && InTransaction(cfg, g) && n <= |g.caches|
    ensures CountedBroadcast(cfg, g.stats, Broadcast(cfg, g, n).sys.stats,
                             ModifiedCopies(g.caches, g.bus.currentCache, g.bus.currentRequest.value, n))
  {
    hide CountedBroadcast, SnoopOne, SnoopedUpTo, St;
    if n == 0 {
      NothingCounted(cfg, g.stats);
    } else {
      BroadcastCounts(cfg, g, n - 1);
      BroadcastEffect(cfg, g, n - 1);
      BroadcastCountsOnce(cfg, g, Broadcast(cfg, g, n - 1), n - 1, n);
    }
  }

  lemma NothingCounted(cfg: Config, a: Stats)
    ensures CountedBroadcast(cfg, a, a, 0)
  {
  }

  // ---------------------------------------------------------------------
  // One whole job
  // ---------------------------------------------------------------------

  /** Modified copies that the other caches flush when the job's request is broadcast. */
  function SnoopFlushes(cfg: Config, s: System, job: Job): nat
    requires cfg.Valid() && Quiescent(cfg, s) && job.threadId < |s.caches|
  {
    if Taken(cfg, s, job).cache.haveBusRequest then
      ModifiedCopies(s.caches, job.threadId,
                     Request(CommandOf(job), SetOf(cfg, job.address), TagOf(cfg, job.address), 0, job.address), |s.caches|)
    else 0
  }

  /** All counters after a job, from those at its request. */
  ghost predicate JobCounted(cfg: Config, s: System, job: Job, e: Stats)
    requires cfg.Valid() && Quiescent(cfg, s) && job.threadId < |s.caches|
  {
    var t := Taken(cfg, s, job).stats;
    var bus := Taken(cfg, s, job).cache.haveBusRequest;
    && e.numHit == t.numHit && e.numMiss == t.numMiss
    && e.numExclusiveToModifiedTransitions == t.numExclusiveToModifiedTransitions
    && e.numBusRequests == t.numBusRequests + One(bus)
    && e.numEvict == t.numEvict + One(bus && NeedToEvict(cfg, SetAtRequest(cfg, s, job), TagOf(cfg, job.address)))
    && (cfg.protocol != MOESI ==> e.numFlush == t.numFlush + SnoopFlushes(cfg, s, job))
    && (cfg.protocol == MOESI ==> e.numFlush == t.numFlush)
    && (cfg.protocol == MSI ==> e.numMainMemoryUses == t.numMainMemoryUses + SnoopFlushes(cfg, s, job) + One(bus))
  }

  lemma {:induction false} SameCopies(a: seq<CacheState>, b: seq<CacheState>, cc: int, r: Request, q: Request, n: nat)
    requires n <= |a| == |b| && r.lineSet == q.lineSet && r.lineTag == q.lineTag
    requires forall j :: 0 <= j < |a| ==> r.lineSet < |a[j].sets| && r.lineSet < |b[j].sets|
    requires forall j :: 0 <= j < |a| && j != cc ==> St(a[j], r.lineSet, r.lineTag) == St(b[j], r.lineSet, r.lineTag)
    ensures ModifiedCopies(a, cc, r, n) == ModifiedCopies(b, cc, q, n)
  {
    if n > 0 {
      SameCopies(a, b, cc, r, q, n - 1);
    }
  }

  /** The request on the bus at the start of a job is for that job. */
  lemma StartedRequest(cfg: Config, addresses: set<nat>, s: System, job: Job)
    requires cfg.Valid() && Ready(false, cfg, addresses, s) && job.threadId < |s.caches| && job.address in addresses
    requires Taken(cfg, s, job).cache.haveBusRequest
    ensures var c := Taken(cfg, s, job).cache;
            && c.busRequest.Some? && c.currentJob == Some(job)
            && RequestFor(cfg, job, c.busRequest.value)
            && c.jobCycleCost == c.busRequest.value.cycleCost
            && LinesFrom(cfg, addresses, SetOf(cfg, job.address), SetAtRequest(cfg, s, job))
  {
    BegunIsCoherent(false, cfg, addresses, s, job);
    BegunShape(cfg, s, job);
    TakenDecides(cfg, s, job);
    assert GoodCache(cfg, addresses, Begun(cfg, s, job).caches[job.threadId]);
    hide Begun, Taken, LinesFrom, RequestFor, SetOf, St;
  }

  /** The counters once the bus has granted and broadcast a request. */
  ghost predicate GrantCounted(cfg: Config, a: Stats, b: Stats, copies: nat) {
    && b.numHit == a.numHit && b.numMiss == a.numMiss && b.numEvict == a.numEvict
    && b.numExclusiveToModifiedTransitions == a.numExclusiveToModifiedTransitions
    && b.numBusRequests == a.numBusRequests + 1
    && b.numFlush == (if cfg.protocol == MOESI then a.numFlush else a.numFlush + copies)
    && (cfg.protocol == MSI ==> b.numMainMemoryUses == a.numMainMemoryUses + copies)
  }

  lemma GrantCounts(cfg: Config, b: System, k: nat)
    requires cfg.Valid() && CachesShaped(cfg, b) && k < |b.caches| && b.caches[k].haveBusRequest && FirstRequester(b.caches) == k
    ensures GrantCounted(cfg, b.stats, NextTransaction(cfg, b).stats,
                         ModifiedCopies(b.caches, k, b.caches[k].busRequest.value, |b.caches|))
  {
    hide Broadcast, FirstRequester, ModifiedCopies, St;
    var g0 := Granted(cfg, b, k);
    BroadcastCounts(cfg, g0, |b.caches|);
    var r := b.caches[k].busRequest.value;
    SameCopies(g0.caches, b.caches, k, r, r, |b.caches|);
  }

  /** The counters of a job that used the bus. */
  lemma BusJobStats(cfg: Config, s: System, job: Job)
    requires cfg.Valid() && Quiescent(cfg, s) && job.threadId < |s.caches| && Taken(cfg, s, job).cache.haveBusRequest
    ensures var b, g, k := Begun(cfg, s, job), Started(cfg, s, job), job.threadId;
            && |g.caches| == |s.caches| && Shaped(cfg, g.caches[k])
            && b.caches[k] == Taken(cfg, s, job).cache && b.stats == Taken(cfg, s, job).stats
            && FirstRequester(b.caches) == k
            && g.caches[k].sets == b.caches[k].sets && g.caches[k].currentJob == Some(job)
            && RunJob(cfg, s, job).stats
               == BusJobDone(cfg, g.caches[k], g.stats, g.bus.isShared, g.cycle + ServiceCost(cfg, s, job)).stats
  {
    hide Begun, Taken, BusJobDone, NextTransaction;
    StartedServes(cfg, s, job);
    StartedShape(cfg, s, job);
    BegunShape(cfg, s, job);
    TakenDecides(cfg, s, job);
  }

  lemma NoBusJobStats(cfg: Config, s: System, job: Job)
    requires cfg.Valid() && Quiescent(cfg, s) && job.threadId < |s.caches| && !Taken(cfg, s, job).cache.haveBusRequest
    ensures RunJob(cfg, s, job).stats == Taken(cfg, s, job).stats
  {
    hide Begun, Taken, BusJobDone;
    StartedServes(cfg, s, job);
    StartedShape(cfg, s, job);
    BegunShape(cfg, s, job);
  }

  /** The counters once a read or write has completed on the bus. */
  ghost predicate DoneCounted(cfg: Config, a: Stats, e: Stats, evicts: bool) {
    && e.numHit == a.numHit && e.numMiss == a.numMiss && e.numFlush == a.numFlush
    && e.numExclusiveToModifiedTransitions == a.numExclusiveToModifiedTransitions
    && e.numBusRequests == a.numBusRequests
    && e.numEvict == a.numEvict + One(evicts)
    && (cfg.protocol == MSI ==> e.numMainMemoryUses == a.numMainMemoryUses + 1)
  }

  /** Grant and completion together. */
  lemma GrantThenDone(cfg: Config, s: System, job: Job, granted: Stats, e: Stats)
    requires cfg.Valid() && Quiescent(cfg, s) && job.threadId < |s.caches| && Taken(cfg, s, job).cache.haveBusRequest
    requires GrantCounted(cfg, Taken(cfg, s, job).stats, granted, SnoopFlushes(cfg, s, job))
    requires DoneCounted(cfg, granted, e, NeedToEvict(cfg, SetAtRequest(cfg, s, job), TagOf(cfg, job.address)))
    ensures JobCounted(cfg, s, job, e)
  {
    hide Taken, SnoopFlushes, SetAtRequest, NeedToEvict, TagOf, Quiescent;
  }

  /** The request at the start of a bus job names the job's line. */
  lemma RequestNamesJob(cfg: Config, addresses: set<nat>, s: System, job: Job)
    requires cfg.Valid() && Ready(false, cfg, addresses, s) && job.threadId < |s.caches| && job.address in addresses
    requires Taken(cfg, s, job).cache.haveBusRequest
    ensures var q := Taken(cfg, s, job).cache.busRequest;
            && q.Some? && q.value.lineSet == SetOf(cfg, job.address) && q.value.lineTag == TagOf(cfg, job.address)
            && (job.IsRead() || job.IsWrite())
  {
    assert Quiescent(cfg, s);
    TakenDecides(cfg, s, job);
    StartedRequest(cfg, addresses, s, job);
    hide Taken, SetOf, TagOf, LinesFrom, Ready, Quiescent, SetAtRequest;
  }

  lemma BusJobGrantCounts(cfg: Config, addresses: set<nat>, s: System, job: Job)
    requires cfg.Valid() && Ready(false, cfg, addresses, s) && job.threadId < |s.caches| && job.address in addresses
    requires Quiescent(cfg, s) && Taken(cfg, s, job).cache.haveBusRequest
    ensures GrantCounted(cfg, Taken(cfg, s, job).stats, Started(cfg, s, job).stats, SnoopFlushes(cfg, s, job))
  {
    var b, k := Begun(cfg, s, job), job.threadId;
    assert CachesShaped(cfg, b) && |b.caches| == |s.caches|;
    assert forall j :: 0 <= j < |b.caches| ==> |b.caches[j].sets| == cfg.NumSets();
    hide *;
    BusJobStats(cfg, s, job);
    StartedIs(cfg, s, job);
    RequestNamesJob(cfg, addresses, s, job);
    GrantCounts(cfg, b, k);
    CopiesAtStart(cfg, s, job, b.caches[k].busRequest.value);
  }

  lemma BusJobDoneCounts(cfg: Config, addresses: set<nat>, s: System, job: Job)
    requires cfg.Valid() && Ready(false, cfg, addresses, s) && job.threadId < |s.caches| && job.address in addresses
    requires Quiescent(cfg, s) && Taken(cfg, s, job).cache.haveBusRequest
    ensures DoneCounted(cfg, Started(cfg, s, job).stats, RunJob(cfg, s, job).stats,
                        NeedToEvict(cfg, SetAtRequest(cfg, s, job), TagOf(cfg, job.address)))
  {
    var g, k := Started(cfg, s, job), job.threadId;
    hide *;
    BusJobStats(cfg, s, job);
    RequestNamesJob(cfg, addresses, s, job);
    SetAtRequestIs(cfg, s, job);
    DoneCounts(cfg, g.caches[k], g.stats, g.bus.isShared, g.cycle + ServiceCost(cfg, s, job));
  }

  /** The counters after one whole job. */
  lemma JobCounts(cfg: Config, addresses: set<nat>, s: System, job: Job)
    requires cfg.Valid() && Ready(false, cfg, addresses, s) && job.threadId < |s.caches| && job.address in addresses
    ensures JobCounted(cfg, s, job, RunJob(cfg, s, job).stats)
  {
    assert Quiescent(cfg, s);
    if Taken(cfg, s, job).cache.haveBusRequest {
      hide *;
      BusJobGrantCounts(cfg, addresses, s, job);
      BusJobDoneCounts(cfg, addresses, s, job);
      GrantThenDone(cfg, s, job, Started(cfg, s, job).stats, RunJob(cfg, s, job).stats);
    } else {
      hide Taken, RunJob, Ready, Quiescent, SetAtRequest, NeedToEvict, ModifiedCopies;
      NoBusJobStats(cfg, s, job);
    }
  }

  lemma StartedIs(cfg: Config, s: System, job: Job)
    requires cfg.Valid() && Quiescent(cfg, s) && job.threadId < |s.caches|
    ensures Started(cfg, s, job) == NextTransaction(cfg, Begun(cfg, s, job))
  {
  }

  lemma DoneCounts(cfg: Config, c: CacheState, stats: Stats, isShared: bool, cycle: nat)
    requires cfg.Valid() && c.currentJob.Some? && Shaped(cfg, c)
    requires c.currentJob.value.IsRead() || c.currentJob.value.IsWrite()
    ensures var job := c.currentJob.value;
            DoneCounted(cfg, stats, BusJobDone(cfg, c, stats, isShared, cycle).stats,
                        NeedToEvict(cfg, c.sets[SetOf(cfg, job.address)], TagOf(cfg, job.address)))
  {
    hide Installed, DoneSet, NeedToEvict;
  }

  /** Refreshing does not change what another cache holds. */
  lemma SameCopyAtStart(cfg: Config, s: System, job: Job, j: nat, k: nat, tag: nat)
    requires cfg.Valid() && Quiescent(cfg, s) && job.threadId < |s.caches| && j < |s.caches| && j != job.threadId && k < cfg.NumSets()
    ensures var b := Begun(cfg, s, job);
            j < |b.caches| && k < |b.caches[j].sets| && k < |s.caches[j].sets| && St(b.caches[j], k, tag) == St(s.caches[j], k, tag)
  {
    BegunShape(cfg, s, job);
    hide Taken, Refreshed, Begun, St;
    RefreshedView(cfg, s.caches[j], s.cycle + 1);
  }

  lemma SnoopFlushesAre(cfg: Config, s: System, job: Job, r: Request)
    requires cfg.Valid() && Quiescent(cfg, s) && job.threadId < |s.caches| && Taken(cfg, s, job).cache.haveBusRequest
    requires r == Request(CommandOf(job), SetOf(cfg, job.address), TagOf(cfg, job.address), 0, job.address)
    ensures forall j :: 0 <= j < |s.caches| ==> r.lineSet < |s.caches[j].sets|
    ensures SnoopFlushes(cfg, s, job) == ModifiedCopies(s.caches, job.threadId, r, |s.caches|)
  {
    hide Taken, ModifiedCopies, SetOf, TagOf;
  }

  lemma CopiesAtStart(cfg: Config, s: System, job: Job, r: Request)
    requires cfg.Valid() && Quiescent(cfg, s) && job.threadId < |s.caches|
    requires Taken(cfg, s, job).cache.haveBusRequest
    requires r.lineSet == SetOf(cfg, job.address) && r.lineTag == TagOf(cfg, job.address)
    ensures ModifiedCopies(Begun(cfg, s, job).caches, job.threadId, r, |s.caches|) == SnoopFlushes(cfg, s, job)
  {
    var b := Begun(cfg, s, job);
    var q := Request(CommandOf(job), SetOf(cfg, job.address), TagOf(cfg, job.address), 0, job.address);
    assert |b.caches| == |s.caches| && forall j :: 0 <= j < |b.caches| ==> |b.caches[j].sets| == cfg.NumSets();
    hide *;
    SnoopFlushesAre(cfg, s, job, q);
    forall j | 0 <= j < |s.caches| && j != job.threadId
      ensures St(b.caches[j], r.lineSet, r.lineTag) == St(s.caches[j], r.lineSet, r.lineTag)
    {
      SameCopyAtStart(cfg, s, job, j, r.lineSet, r.lineTag);
    }
    SameCopies(b.caches, s.caches, job.threadId, r, q, |s.caches|);
  }

  // ---------------------------------------------------------------------
  // Dirty-eviction prediction
  // ---------------------------------------------------------------------

  /** A write miss is charged twice the memory cost, and one flush, exactly when its
      completion will find a full set of modified lines and evict one of them. */
  lemma DirtyEvictionPrediction(cfg: Config, addresses: set<nat>, s: System, job: Job)
    requires cfg.Valid() && Ready(false, cfg, addresses, s) && job.threadId < |s.caches| && job.address in addresses
    requires job.IsWrite() && Taken(cfg, s, job).stats.numMiss == s.stats.numMiss + 1
    ensures var o, u, e := Taken(cfg, s, job), SetAtRequest(cfg, s, job), RunJob(cfg, s, job);
            var evicts := e.stats.numEvict == s.stats.numEvict + 1;
            && o.cache.haveBusRequest && o.cache.busRequest.Some?
            && (evicts || e.stats.numEvict == s.stats.numEvict)
            && (evicts <==> |u| == cfg.numLinesInSet
                            && forall n :: 0 <= n < |u| ==> u[n].state == Modified && u[n].tag != TagOf(cfg, job.address))
            && o.cache.busRequest.value.cycleCost
               == (if evicts then 2 * cfg.memoryResponseCycleCost else cfg.memoryResponseCycleCost)
            && o.stats.numFlush == s.stats.numFlush + One(evicts)
            && (evicts ==> |u| == cfg.numLinesInSet && u[Lru(u)].state == Modified
                           && Installed(cfg, u, job)
                              == Evict(u) + [Line(job.address, SetOf(cfg, job.address), TagOf(cfg, job.address), Invalid, 0)])
  {
    hide Begun, Started, Taken, RunJob, SetOf, TagOf, Coherent, RequestFor;
    TakenAccess(cfg, s, job);
    StartedRequest(cfg, addresses, s, job);
    JobCounts(cfg, addresses, s, job);
    hide JobCounted, OneAccess;
    var u, tag := SetAtRequest(cfg, s, job), TagOf(cfg, job.address);
    InstalledIs(cfg, u, job);
    DirtyEvictionIs(cfg, u, tag);
    hide Installed, Evict;
    if NeedToEvict(cfg, u, tag) {
      FullSetHasModifiedVictim(u, cfg.numLinesInSet);
    }
  }

  /** The same at every write miss of every trace. */
  lemma DirtyEvictionsOfTrace(cfg: Config, trace: seq<Job>, i: nat)
    requires cfg.Valid() && JobsInRange(cfg, trace) && i < |trace| && trace[i].IsWrite()
    requires var s := RunTrace(cfg, trace[..i]); Taken(cfg, s, trace[i]).stats.numMiss == s.stats.numMiss + 1
    ensures var s, job := RunTrace(cfg, trace[..i]), trace[i];
            var o, u := Taken(cfg, s, job), SetAtRequest(cfg, s, job);
            var evicts := RunTrace(cfg, trace[..i + 1]).stats.numEvict == s.stats.numEvict + 1;
            && o.cache.busRequest.Some?
            && (evicts <==> |u| == cfg.numLinesInSet
                            && forall n :: 0 <= n < |u| ==> u[n].state == Modified && u[n].tag != TagOf(cfg, job.address))
            && o.cache.busRequest.value.cycleCost
               == (if evicts then 2 * cfg.memoryResponseCycleCost else cfg.memoryResponseCycleCost)
            && o.stats.numFlush == s.stats.numFlush + One(evicts)
            && (evicts ==> |u| == cfg.numLinesInSet && u[Lru(u)].state == Modified)
  {
    var s, job, addresses := RunTrace(cfg, trace[..i]), trace[i], JobAddresses(trace);
    assert forall j :: j in trace[..i] ==> j in trace;
    assert trace[..i + 1][..i] == trace[..i] && trace[..i + 1][i] == job;
    assert RunTrace(cfg, trace[..i + 1]) == RunJob(cfg, s, job) by { hide RunJob, Quiescent, Ready; }
    hide RunTrace, RunJob, Taken, Ready, Quiescent;
    RunTraceIsReady(NeedsCoherence(cfg), cfg, addresses, trace[..i]);
    ReadyWithoutCoherence(NeedsCoherence(cfg), cfg, addresses, s);
    DirtyEvictionPrediction(cfg, addresses, s, job);
  }

  // ---------------------------------------------------------------------
  // Whole traces
  // ---------------------------------------------------------------------

  predicate IsAccess(job: Job) { job.IsRead() || job.IsWrite() }

  function Accesses(trace: seq<Job>): nat {
    if |trace| == 0 then 0 else Accesses(trace[..|trace| - 1]) + One(IsAccess(trace[|trace| - 1]))
  }

  /** The writes of the trace that upgrade an owned line. */
  function OwnedUpgrades(cfg: Config, trace: seq<Job>): nat
    requires cfg.Valid() && JobsInRange(cfg, trace)
  {
    if |trace| == 0 then 0
    else
      var n := |trace| - 1;
      OwnedUpgrades(cfg, trace[..n]) + One(UpgradesOwned(cfg, RunTrace(cfg, trace[..n]), trace[n]))
  }


  lemma UpgradesOwnedIs(cfg: Config, s: System, job: Job)
    requires cfg.Valid() && job.threadId < |s.caches|
    ensures UpgradesOwned(cfg, s, job) <==> OwnsAlone(cfg, s.caches[job.threadId].sets, job)
  {
  }

  lemma HitsOnBus(cfg: Config, sets: seq<LineSet>, job: Job, o: Outcome, stats: Stats)
    requires cfg.Valid() && ChoiceMade(cfg, sets, job, o, stats)
    ensures ChoiceFor(cfg, sets, job) == Upgrading <==> o.cache.haveBusRequest && o.stats.numMiss == stats.numMiss
  {
    hide ChoiceFor, TagOf, SetOf, SameStates, Marked, Upgrades;
  }

  /** Exactly the writes to owned lines go to the bus without being misses. */
  lemma UpgradesAreHitsOnBus(cfg: Config, s: System, job: Job)
    requires cfg.Valid() && Quiescent(cfg, s) && job.threadId < |s.caches|
    ensures var o := Taken(cfg, s, job);
            UpgradesOwned(cfg, s, job) <==> o.cache.haveBusRequest && o.stats.numMiss == s.stats.numMiss
  {
    hide *;
    OwnsAloneIs(cfg, s.caches[job.threadId].sets, job);
    UpgradesOwnedIs(cfg, s, job);
    TakenChoice(cfg, s, job);
    HitsOnBus(cfg, s.caches[job.threadId].sets, job, Taken(cfg, s, job), s.stats);
  }

  /** Modified copies flushed by snoops along the trace. */
  function TraceSnoopFlushes(cfg: Config, trace: seq<Job>): nat
    requires cfg.Valid() && JobsInRange(cfg, trace)
  {
    if |trace| == 0 then 0
    else
      var n := |trace| - 1;
      TraceSnoopFlushes(cfg, trace[..n]) + SnoopFlushes(cfg, RunTrace(cfg, trace[..n]), trace[n])
  }

  /** The laws, as an inductive statement. */
  ghost predicate Conserved(cfg: Config, trace: seq<Job>, stats: Stats)
    requires cfg.Valid() && JobsInRange(cfg, trace)
  {
    && stats.numHit + stats.numMiss == Accesses(trace)
    && stats.numBusRequests == stats.numMiss + OwnedUpgrades(cfg, trace)
    && (cfg.protocol != MOESI ==> OwnedUpgrades(cfg, trace) == 0)
    && (cfg.protocol != MOESI ==>
          TraceSnoopFlushes(cfg, trace) <= stats.numFlush <= TraceSnoopFlushes(cfg, trace) + stats.numEvict)
    && (cfg.protocol == MSI ==> stats.numMainMemoryUses == stats.numMiss + TraceSnoopFlushes(cfg, trace))
  }

  /** The laws for one job: `upgrade` says whether it was a write to an owned line. */
  ghost predicate OneJobConserves(cfg: Config, job: Job, a: Stats, e: Stats, upgrade: bool, flushes: nat) {
    && e.numHit + e.numMiss == a.numHit + a.numMiss + One(IsAccess(job))
    && e.numBusRequests - a.numBusRequests == e.numMiss - a.numMiss + One(upgrade)
    && (cfg.protocol != MOESI ==>
          && !upgrade
          && a.numFlush + flushes <= e.numFlush
          && e.numFlush - e.numEvict <= a.numFlush - a.numEvict + flushes)
    && (cfg.protocol == MSI ==> e.numMainMemoryUses - e.numMiss == a.numMainMemoryUses - a.numMiss + flushes)
  }

  lemma JobConservesOnce(cfg: Config, addresses: set<nat>, s: System, job: Job)
    requires cfg.Valid() && Ready(false, cfg, addresses, s) && job.threadId < |s.caches| && job.address in addresses
    ensures OneJobConserves(cfg, job, s.stats, RunJob(cfg, s, job).stats,
                            UpgradesOwned(cfg, s, job), SnoopFlushes(cfg, s, job))
  {
    hide UpgradesOwned, RunJob, Taken, Ready, Quiescent, SetOf, TagOf, DirtyEviction, NeedToEvict, ModifiedCopies, Shaped, SetAtRequest;
    assert Quiescent(cfg, s) by { ReadyIsQuiet(false, cfg, addresses, s); }
    UpgradesAreHitsOnBus(cfg, s, job);
    TakenAccess(cfg, s, job);
    JobCounts(cfg, addresses, s, job);
    if Taken(cfg, s, job).cache.haveBusRequest {
      PredictionAgrees(cfg, addresses, s, job);
      assert SetAtRequest(cfg, s, job) == Taken(cfg, s, job).cache.sets[SetOf(cfg, job.address)] by { SetAtRequestIs(cfg, s, job); }
    }
  }

  lemma ReadyIsQuiet(strict: bool, cfg: Config, addresses: set<nat>, s: System)
    requires cfg.Valid() && Ready(strict, cfg, addresses, s)
    ensures Quiescent(cfg, s)
  {
  }

  lemma SetAtRequestIs(cfg: Config, s: System, job: Job)
    requires cfg.Valid() && Quiescent(cfg, s) && job.threadId < |s.caches|
    ensures |Taken(cfg, s, job).cache.sets| == cfg.NumSets()
    ensures SetAtRequest(cfg, s, job) == Taken(cfg, s, job).cache.sets[SetOf(cfg, job.address)]
  {
    hide Taken, SetOf;
    TakenDecides(cfg, s, job);
  }

  lemma JobConserves(cfg: Config, addresses: set<nat>, trace: seq<Job>)
    requires cfg.Valid() && JobsInRange(cfg, trace) && |trace| > 0 && JobAddresses(trace) <= addresses
    requires var n := |trace| - 1; Ready(false, cfg, addresses, RunTrace(cfg, trace[..n]))
    requires var n := |trace| - 1; Conserved(cfg, trace[..n], RunTrace(cfg, trace[..n]).stats)
    ensures var n := |trace| - 1; Conserved(cfg, trace, RunJob(cfg, RunTrace(cfg, trace[..n]), trace[n]).stats)
  {
    var n := |trace| - 1;
    assert trace[n].address in JobAddresses(trace);
    JobConservesOnce(cfg, addresses, RunTrace(cfg, trace[..n]), trace[n]);
    hide RunTrace, RunJob, Taken, Ready, Quiescent, SnoopFlushes, UpgradesOwned, JobAddresses;
  }

  lemma PredictionAgrees(cfg: Config, addresses: set<nat>, s: System, job: Job)
    requires cfg.Valid() && Ready(false, cfg, addresses, s) && job.threadId < |s.caches| && job.address in addresses
    requires Taken(cfg, s, job).cache.haveBusRequest
    ensures DirtyEviction(cfg, SetAtRequest(cfg, s, job), TagOf(cfg, job.address))
            == NeedToEvict(cfg, SetAtRequest(cfg, s, job), TagOf(cfg, job.address))
  {
    hide Taken, RequestFor, Coherent, Quiescent, SetOf, TagOf;
    StartedRequest(cfg, addresses, s, job);
    var u := SetAtRequest(cfg, s, job);
    if NeedToEvict(cfg, u, TagOf(cfg, job.address)) {
      FullSetHasModifiedVictim(u, cfg.numLinesInSet);
    }
  }

  /** When the loop ends: every read and write was one hit or one miss, every miss one bus
      request, and under MSI memory was used once per miss and once per snoop flush. */
  lemma {:induction false} CountersAreConserved(cfg: Config, trace: seq<Job>)
    requires cfg.Valid() && JobsInRange(cfg, trace)
    ensures Conserved(cfg, trace, RunTrace(cfg, trace).stats)
  {
    if |trace| == 0 {
    } else {
      var n := |trace| - 1;
      CountersAreConserved(cfg, trace[..n]);
      assert forall j :: j in trace[..n] ==> j in trace;
      RunTraceIsReady(NeedsCoherence(cfg), cfg, JobAddresses(trace), trace[..n]);
      ReadyWithoutCoherence(NeedsCoherence(cfg), cfg, JobAddresses(trace), RunTrace(cfg, trace[..n]));
      hide Ready, Conserved, RunJob, Quiescent;
      JobConserves(cfg, JobAddresses(trace), trace);
    }
  }
}
