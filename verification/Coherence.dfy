/** Coherence in every reachable state, for every interleaving of cache ticks,
    bus ticks, clock ticks and arriving jobs. */
module Coherence {
  import opened Constants
  import opened LineSets
  import opened CacheModel
  import opened SystemModel

  // ---------------------------------------------------------------------
  // The invariant
  // ---------------------------------------------------------------------

  function St(c: CacheState, k: nat, tag: nat): State
    requires k < |c.sets|
  {
    StateIn(c.sets[k], tag)
  }

  predicate IsOwner(st: State) { st == Modified || st == Owned || st == Exclusive }

  /** The states a protocol uses. */
  predicate Legal(p: Protocol, st: State) {
    match p
    case MSI => st != Exclusive && st != Owned
    case MESI => st != Owned
    case MOESI => true
  }

  /** What two different caches may hold of the same line. */
  predicate Compatible(p: Protocol, a: State, b: State) {
    if p == MOESI then !(IsOwner(a) && IsOwner(b))
    else (IsOwner(a) ==> b == Invalid) && (IsOwner(b) ==> a == Invalid)
  }

  /** What a cache may hold of a line while another cache's transaction on it is in flight. */
  predicate InFlightState(p: Protocol, command: Command, isShared: bool, st: State) {
    match command
    case BusRdX => st == Invalid
    case BusRd =>
      if p == MOESI then isShared || !IsOwner(st)
      else st == Invalid || (st == Shared && (p == MESI ==> isShared))
  }

  ghost predicate LinesFrom(cfg: Config, addresses: set<nat>, k: nat, s: LineSet)
    requires cfg.Valid()
  {
    && |s| <= cfg.numLinesInSet
    && DistinctTags(s)
    && forall i :: 0 <= i < |s| ==>
                     && s[i].setIndex == k
                     && s[i].rawAddress in addresses
                     && SetOf(cfg, s[i].rawAddress) == k
                     && TagOf(cfg, s[i].rawAddress) == s[i].tag
  }

  predicate CostOf(cfg: Config, r: Request) {
    || r.cycleCost == cfg.memoryResponseCycleCost
    || (r.command == BusRdX && r.cycleCost == 2 * cfg.memoryResponseCycleCost)
    || (r.command == BusRdX && cfg.protocol == MOESI && r.cycleCost == cfg.cacheHitCycleCost)
  }

  /** A request is for its cache's current job, unless that job is neither a read nor a write. */
  predicate RequestFor(cfg: Config, job: Job, r: Request)
    requires cfg.Valid()
  {
    && CostOf(cfg, r)
    && (job.IsRead() || job.IsWrite() ==>
          && r.lineSet == SetOf(cfg, job.address)
          && r.lineTag == TagOf(cfg, job.address)
          && (r.command == BusRdX <==> job.IsWrite()))
  }

  ghost predicate GoodCache(cfg: Config, addresses: set<nat>, c: CacheState)
    requires cfg.Valid()
  {
    && Shaped(cfg, c)
    && (forall k :: 0 <= k < |c.sets| ==> LinesFrom(cfg, addresses, k, c.sets[k]))
    && (forall k, t {:trigger St(c, k, t)} :: 0 <= k < |c.sets| && 0 <= t ==> Legal(cfg.protocol, St(c, k, t)))
    && (c.currentJob.Some? ==> c.currentJob.value.address in addresses)
    && (forall i :: 0 <= i < |c.pendingJobs| ==> c.pendingJobs[i].address in addresses)
    && (c.haveBusRequest ==> RequestFor(cfg, c.currentJob.value, c.busRequest.value))
    && (c.haveBusRequest && !c.busRequestBeingServiced ==> c.jobCycleCost == c.busRequest.value.cycleCost)
  }

  ghost predicate Pairwise(cfg: Config, s: System) {
    CachesShaped(cfg, s) &&
    forall i, j, k, t {:trigger St(s.caches[i], k, t), St(s.caches[j], k, t)} ::
      0 <= i < |s.caches| && 0 <= j < |s.caches| && i != j && 0 <= k < cfg.NumSets() && 0 <= t
      ==> Compatible(cfg.protocol, St(s.caches[i], k, t), St(s.caches[j], k, t))
  }

  /** Exactly the bus's current cache is being serviced, with the request the bus holds. */
  predicate BusServes(cfg: Config, s: System) {
    && SystemShaped(cfg, s)
    && (forall i :: 0 <= i < |s.caches| ==> (s.caches[i].busRequestBeingServiced <==> s.bus.inUse && i == s.bus.currentCache))
    && (!s.bus.inUse ==> !s.bus.isShared)
    && (s.bus.inUse ==> s.caches[s.bus.currentCache].busRequest == s.bus.currentRequest)
  }

  /** While a transaction is in flight, every other copy already agrees with its outcome. */
  ghost predicate OthersAgree(cfg: Config, s: System)
    requires SystemShaped(cfg, s)
  {
    s.bus.inUse ==>
      var cc, r := s.bus.currentCache, s.bus.currentRequest.value;
      && (forall j :: 0 <= j < |s.caches| && j != cc ==>
            InFlightState(cfg.protocol, r.command, s.bus.isShared, St(s.caches[j], r.lineSet, r.lineTag)))
      && (cfg.protocol == MESI && r.command == BusRd && s.bus.isShared ==>
            exists j :: 0 <= j < |s.caches| && j != cc && St(s.caches[j], r.lineSet, r.lineTag) == Shared)
  }

  /** The inductive invariant.  Shape, set contents and bus bookkeeping hold of every
      run; the coherence part is added when `strict`. */
  ghost predicate Coherent(strict: bool, cfg: Config, addresses: set<nat>, s: System)
    requires cfg.Valid()
  {
    && SystemShaped(cfg, s)
    && (forall i :: 0 <= i < |s.caches| ==> GoodCache(cfg, addresses, s.caches[i]))
    && BusServes(cfg, s)
    && (strict ==> Pairwise(cfg, s) && OthersAgree(cfg, s))
  }

  /** MESI alone needs tags to identify sets. */
  ghost predicate TraceOk(cfg: Config, addresses: set<nat>)
    requires cfg.Valid()
  {
    cfg.protocol == MESI ==> TagsIdentifySets(cfg, addresses)
  }

  // ---------------------------------------------------------------------
  // One cache: what each operation may do to line states
  // ---------------------------------------------------------------------

  ghost predicate SameStates(a: seq<LineSet>, b: seq<LineSet>) {
    && |a| == |b|
    && (forall k :: 0 <= k < |a| ==> SameLines(a[k], b[k]))
    && (forall k, t :: 0 <= k < |a| && 0 <= t ==> Find(a[k], t) == Find(b[k], t) && StateIn(a[k], t) == StateIn(b[k], t))
  }

  lemma ScanKeepsStates(sets: seq<LineSet>, tag: nat, st: State, cycle: nat)
    ensures SameStates(sets, Scanned(sets, tag, st, cycle))
  {
    forall k | 0 <= k < |sets| {
      TouchKeepsStates(sets[k], tag, cycle);
    }
  }

  lemma TouchAllKeepsStates(sets: seq<LineSet>, tag: nat, cycle: nat)
    ensures SameStates(sets, TouchAll(sets, tag, cycle))
  {
    forall k | 0 <= k < |sets| {
      TouchKeepsStates(sets[k], tag, cycle);
    }
  }

  lemma {:induction false} SameStatesSameScan(a: seq<LineSet>, b: seq<LineSet>, tag: nat, st: State)
    requires SameStates(a, b)
    ensures FirstInState(a, tag, st) == FirstInState(b, tag, st)
  {
    if |a| != 0 {
      SameStatesSameScan(a[1..], b[1..], tag, st);
    }
  }

  /** The only state change a processor request makes by itself: a line becomes modified.
      When `strict`, that line was owned by this cache already. */
  ghost predicate Upgrades(strict: bool, a: seq<LineSet>, b: seq<LineSet>) {
    && |a| == |b|
    && (forall k :: 0 <= k < |a| ==> SameLines(a[k], b[k]))
    && (forall k, t :: 0 <= k < |a| && 0 <= t ==>
          StateIn(b[k], t) == StateIn(a[k], t)
          || (StateIn(b[k], t) == Modified && (strict ==> IsOwner(StateIn(a[k], t)))))
  }

  lemma AssignAllUpgrades(strict: bool, sets: seq<LineSet>, tag: nat, cycle: nat)
    requires strict ==> forall k :: 0 <= k < |sets| && HasLine(sets[k], tag) ==> IsOwner(StateIn(sets[k], tag))
    ensures Upgrades(strict, sets, AssignAll(sets, tag, Modified, cycle))
  {
    forall k | 0 <= k < |sets| {
      AssignSetsOneState(sets[k], tag, Modified, cycle);
    }
  }

  /** What a processor request leaves behind in a cache that took job `c.currentJob`. */
  ghost predicate Served(strict: bool, cfg: Config, c: CacheState, c': CacheState)
    requires cfg.Valid() && c.currentJob.Some?
  {
    && c' == c.(sets := c'.sets, busRequest := c'.busRequest, haveBusRequest := c'.haveBusRequest, busy := true,
                startServiceCycle := c'.startServiceCycle, jobCycleCost := c'.jobCycleCost)
    && Upgrades(strict, c.sets, c'.sets)
    && (cfg.protocol == MSI ==> SameStates(c.sets, c'.sets))
    && (c'.haveBusRequest ==>
          && c'.busRequest.Some?
          && RequestFor(cfg, c.currentJob.value, c'.busRequest.value)
          && c'.jobCycleCost == c'.busRequest.value.cycleCost)
    && (c'.busRequest.Some? ==> c'.busRequest.value.lineSet < cfg.NumSets())
  }

  lemma SameStatesChain(a: seq<LineSet>, b: seq<LineSet>, c: seq<LineSet>)
    requires SameStates(a, b) && SameStates(b, c)
    ensures SameStates(a, c)
  {
  }

  lemma ScanThenUpgrade(strict: bool, a: seq<LineSet>, b: seq<LineSet>, c: seq<LineSet>)
    requires SameStates(a, b) && Upgrades(strict, b, c)
    ensures Upgrades(strict, a, c)
  {
  }

  lemma SameStatesUpgrade(strict: bool, a: seq<LineSet>, b: seq<LineSet>)
    requires SameStates(a, b)
    ensures Upgrades(strict, a, b)
  {
  }

  /** One more query after states have been preserved so far. */
  lemma QueryAgain(cfg: Config, c0: CacheState, c: CacheState, st: State, cycle: nat)
    requires cfg.Valid() && c.currentJob.Some? && SameStates(c0.sets, c.sets)
    ensures SameStates(c0.sets, Queried(cfg, c, st, cycle).sets)
  {
    hide SameStates, Scanned;
    var tag := TagOf(cfg, c.currentJob.value.address);
    ScanKeepsStates(c.sets, tag, st, cycle);
    SameStatesChain(c0.sets, c.sets, Scanned(c.sets, tag, st, cycle));
  }

  /** The read's queries all see the states before the read. */
  lemma ReadQueries(cfg: Config, c: CacheState, cycle: nat)
    requires cfg.Valid() && Serving(cfg, c)
    ensures var c1 := Queried(cfg, c, Modified, cycle);
            var c2 := Queried(cfg, c1, Shared, cycle);
            var c3 := Queried(cfg, c2, Exclusive, cycle);
            && SameStates(c.sets, c1.sets) && SameStates(c.sets, c2.sets) && SameStates(c.sets, c3.sets)
            && SameStates(c.sets, Queried(cfg, c3, Owned, cycle).sets)
            && LineInState(cfg, c1, Shared) == LineInState(cfg, c, Shared)
            && LineInState(cfg, c2, Exclusive) == LineInState(cfg, c, Exclusive)
            && LineInState(cfg, c3, Owned) == LineInState(cfg, c, Owned)
  {
    SelfSame(c.sets);
    var tag := TagOf(cfg, c.currentJob.value.address);
    hide SameStates, Scanned, FirstInState, TagOf, Shaped;
    var c1 := Queried(cfg, c, Modified, cycle);
    var c2 := Queried(cfg, c1, Shared, cycle);
    var c3 := Queried(cfg, c2, Exclusive, cycle);
    QueryAgain(cfg, c, c, Modified, cycle);
    QueryAgain(cfg, c, c1, Shared, cycle);
    QueryAgain(cfg, c, c2, Exclusive, cycle);
    QueryAgain(cfg, c, c3, Owned, cycle);
    SameStatesSameScan(c.sets, c1.sets, tag, Shared);
    SameStatesSameScan(c.sets, c2.sets, tag, Exclusive);
    SameStatesSameScan(c.sets, c3.sets, tag, Owned);
  }

  lemma HitServed(strict: bool, cfg: Config, c: CacheState, c1: CacheState, stats: Stats, cycle: nat)
    requires cfg.Valid() && Serving(cfg, c) && c1 == c.(sets := c1.sets) && SameStates(c.sets, c1.sets) && Serving(cfg, c1)
    ensures Served(strict, cfg, c, Hit(cfg, c1, stats, cycle).cache)
  {
    SameStatesUpgrade(strict, c.sets, c1.sets);
    hide SameStates, Upgrades;
  }

  lemma ReadMissServed(strict: bool, cfg: Config, c: CacheState, c1: CacheState, stats: Stats)
    requires cfg.Valid() && Serving(cfg, c) && c.currentJob.value.IsRead() && !c.currentJob.value.IsWrite()
    requires c1 == c.(sets := c1.sets) && SameStates(c.sets, c1.sets) && Serving(cfg, c1)
    ensures Served(strict, cfg, c, ReadMiss(cfg, c1, stats).cache)
  {
    SameStatesUpgrade(strict, c.sets, c1.sets);
    hide SameStates, Upgrades, TagOf, SetOf;
  }

  lemma ReadServed(strict: bool, cfg: Config, c: CacheState, stats: Stats, cycle: nat)
    requires cfg.Valid() && Serving(cfg, c) && c.currentJob.value.IsRead() && !c.currentJob.value.IsWrite()
    ensures Served(strict, cfg, c, Read(cfg, c, stats, cycle).cache)
  {
    ReadQueries(cfg, c, cycle);
    hide SameStates, Scanned, TagInState, TagOf, Served, Hit, ReadMiss;
    var c1 := Queried(cfg, c, Modified, cycle);
    var c2 := Queried(cfg, c1, Shared, cycle);
    var c3 := Queried(cfg, c2, Exclusive, cycle);
    HitServed(strict, cfg, c, c1, stats, cycle);
    HitServed(strict, cfg, c, c2, stats, cycle);
    HitServed(strict, cfg, c, c3, stats, cycle);
    HitServed(strict, cfg, c, Queried(cfg, c3, Owned, cycle), stats, cycle);
    ReadMissServed(strict, cfg, c, Queried(cfg, c3, Owned, cycle), stats);
  }

  lemma WriteMSIServed(strict: bool, cfg: Config, c: CacheState, stats: Stats, cycle: nat)
    requires cfg.Valid() && cfg.protocol == MSI && Serving(cfg, c) && c.currentJob.value.IsWrite()
    ensures Served(strict, cfg, c, WriteMSI(cfg, c, stats, cycle).cache)
  {
    assert SameStates(c.sets, c.sets);
    hide SameStates, Upgrades, Scanned, FirstInState, TagOf;
    QueryAgain(cfg, c, c, Modified, cycle);
    SameStatesUpgrade(strict, c.sets, WriteMSI(cfg, c, stats, cycle).cache.sets);
  }

  /** When tags identify sets, a cache has at most one set with a line for the tag. */
  lemma ExclusiveTagIsAlone(cfg: Config, addresses: set<nat>, sets: seq<LineSet>, tag: nat)
    requires cfg.Valid() && TagsIdentifySets(cfg, addresses)
    requires forall k :: 0 <= k < |sets| ==> LinesFrom(cfg, addresses, k, sets[k])
    requires TagInState(sets, tag, Exclusive)
    ensures forall k :: 0 <= k < |sets| && HasLine(sets[k], tag) ==> StateIn(sets[k], tag) == Exclusive
  {
    var e := FirstInState(sets, tag, Exclusive);
    forall k | 0 <= k < |sets| && HasLine(sets[k], tag)
      ensures k == e
    {
      var x, y := sets[e][Find(sets[e], tag)], sets[k][Find(sets[k], tag)];
      assert TagOf(cfg, x.rawAddress) == TagOf(cfg, y.rawAddress) == tag;
    }
  }

  /** Marking every line of the tag modified, once all of them are owners. */
  lemma MarkAfterScan(strict: bool, c0: CacheState, c: CacheState, tag: nat, cycle: nat)
    requires SameStates(c0.sets, c.sets)
    requires strict ==> forall k :: 0 <= k < |c0.sets| && HasLine(c0.sets[k], tag) ==> IsOwner(StateIn(c0.sets[k], tag))
    ensures Upgrades(strict, c0.sets, AssignAll(c.sets, tag, Modified, cycle))
  {
    AssignAllUpgrades(strict, c.sets, tag, cycle);
    ScanThenUpgrade(strict, c0.sets, c.sets, AssignAll(c.sets, tag, Modified, cycle));
  }

  /** The MESI write's two queries. */
  lemma MESIQueries(cfg: Config, c: CacheState, cycle: nat)
    requires cfg.Valid() && Serving(cfg, c)
    ensures var c1 := Queried(cfg, c, Modified, cycle);
            var c2 := Queried(cfg, c1, Exclusive, cycle);
            && SameStates(c.sets, c1.sets) && SameStates(c.sets, c2.sets)
            && LineInState(cfg, c1, Exclusive) == LineInState(cfg, c, Exclusive)
  {
    SelfSame(c.sets);
    var tag := TagOf(cfg, c.currentJob.value.address);
    hide SameStates, Scanned, FirstInState, TagOf, Shaped;
    var c1 := Queried(cfg, c, Modified, cycle);
    QueryAgain(cfg, c, c, Modified, cycle);
    QueryAgain(cfg, c, c1, Exclusive, cycle);
    SameStatesSameScan(c.sets, c1.sets, tag, Exclusive);
  }

  lemma WriteMissServed(strict: bool, cfg: Config, c: CacheState, c1: CacheState, stats: Stats)
    requires cfg.Valid() && Serving(cfg, c) && c.currentJob.value.IsWrite()
    requires c1 == c.(sets := c1.sets) && SameStates(c.sets, c1.sets) && Serving(cfg, c1)
    ensures Served(strict, cfg, c, WriteSharedInvalid(cfg, c1, stats).cache)
  {
    SameStatesUpgrade(strict, c.sets, c1.sets);
    hide SameStates, Upgrades, TagOf, SetOf, DirtyEviction;
  }

  lemma ExclusiveHitServed(strict: bool, cfg: Config, c: CacheState, c1: CacheState, stats: Stats, cycle: nat)
    requires cfg.Valid() && cfg.protocol != MSI && Serving(cfg, c) && c1 == c.(sets := c1.sets) && SameStates(c.sets, c1.sets) && Serving(cfg, c1)
    requires var tag := TagOf(cfg, c.currentJob.value.address);
             strict ==> forall k :: 0 <= k < |c.sets| && HasLine(c.sets[k], tag) ==> IsOwner(StateIn(c.sets[k], tag))
    ensures Served(strict, cfg, c, ExclusiveHit(cfg, c1, stats, cycle).cache)
  {
    MarkAfterScan(strict, c, c1, TagOf(cfg, c.currentJob.value.address), cycle);
    hide SameStates, Upgrades, TagOf, AssignAll, HasLine, StateIn;
  }

  lemma WriteMESIServed(strict: bool, cfg: Config, addresses: set<nat>, c: CacheState, stats: Stats, cycle: nat)
    requires cfg.Valid() && cfg.protocol == MESI && (strict ==> TagsIdentifySets(cfg, addresses))
    requires Serving(cfg, c) && c.currentJob.value.IsWrite()
    requires forall k :: 0 <= k < |c.sets| ==> LinesFrom(cfg, addresses, k, c.sets[k])
    ensures Served(strict, cfg, c, WriteMESI(cfg, c, stats, cycle).cache)
  {
    MESIQueries(cfg, c, cycle);
    hide SameStates, Scanned, FirstInState, TagOf, LinesFrom, TagsIdentifySets, HasLine, StateIn, Served, Hit, ExclusiveHit, WriteSharedInvalid;
    var tag := TagOf(cfg, c.currentJob.value.address);
    var c1 := Queried(cfg, c, Modified, cycle);
    var c2 := Queried(cfg, c1, Exclusive, cycle);
    if LineInState(cfg, c, Modified) {
      HitServed(strict, cfg, c, c1, stats, cycle);
    } else if LineInState(cfg, c1, Exclusive) {
      if strict {
        ExclusiveTagIsAlone(cfg, addresses, c.sets, tag);
      }
      ExclusiveHitServed(strict, cfg, c, c2, stats, cycle);
    } else {
      WriteMissServed(strict, cfg, c, c2, stats);
    }
  }

  /** Once neither the invalid nor the shared query succeeds, every line of the tag is an owner. */
  lemma NeitherInvalidNorShared(a: seq<LineSet>, b: seq<LineSet>, tag: nat)
    requires SameStates(a, b) && !TagInState(a, tag, Invalid) && !TagInState(b, tag, Shared)
    ensures forall k :: 0 <= k < |a| && HasLine(a[k], tag) ==> IsOwner(StateIn(a[k], tag))
  {
  }

  lemma WriteUnsharedServed(strict: bool, cfg: Config, c: CacheState, c2: CacheState, stats: Stats, cycle: nat)
    requires cfg.Valid() && cfg.protocol == MOESI && Serving(cfg, c) && c.currentJob.value.IsWrite()
    requires c2 == c.(sets := c2.sets) && SameStates(c.sets, c2.sets)
    requires var tag := TagOf(cfg, c.currentJob.value.address);
             forall k :: 0 <= k < |c.sets| && HasLine(c.sets[k], tag) ==> IsOwner(StateIn(c.sets[k], tag))
    ensures Served(strict, cfg, c, WriteUnshared(cfg, c2, stats, cycle).cache)
  {
    hide SameStates, Upgrades, Scanned, FirstInState, TagOf, AssignAll, HasLine, StateIn;
    var tag := TagOf(cfg, c.currentJob.value.address);
    var c3 := Queried(cfg, c2, Exclusive, cycle);
    QueryAgain(cfg, c, c2, Exclusive, cycle);
    if LineInState(cfg, c2, Exclusive) {
      QueryAgain(cfg, c, c3, Exclusive, cycle);
      MarkAfterScan(strict, c, Queried(cfg, c3, Exclusive, cycle), tag, cycle);
    } else {
      var c4 := Queried(cfg, c3, Modified, cycle);
      QueryAgain(cfg, c, c3, Modified, cycle);
      if LineInState(cfg, c3, Modified) {
        QueryAgain(cfg, c, c4, Modified, cycle);
        SameStatesUpgrade(strict, c.sets, Queried(cfg, c4, Modified, cycle).sets);
      } else {
        QueryAgain(cfg, c, c4, Owned, cycle);
        MarkAfterScan(strict, c, Queried(cfg, c4, Owned, cycle), tag, cycle);
        SameStatesUpgrade(strict, c.sets, Queried(cfg, c4, Owned, cycle).sets);
      }
    }
  }

  lemma WriteMOESIServed(strict: bool, cfg: Config, c: CacheState, stats: Stats, cycle: nat)
    requires cfg.Valid() && cfg.protocol == MOESI && Serving(cfg, c) && c.currentJob.value.IsWrite()
    ensures Served(strict, cfg, c, WriteMOESI(cfg, c, stats, cycle).cache)
  {
    assert SameStates(c.sets, c.sets);
    hide SameStates, Upgrades, Scanned, FirstInState, TagOf, HasLine, StateIn, WriteUnshared;
    var tag := TagOf(cfg, c.currentJob.value.address);
    var c1 := Queried(cfg, c, Invalid, cycle);
    QueryAgain(cfg, c, c, Invalid, cycle);
    var c2 := Queried(cfg, c1, Shared, cycle);
    QueryAgain(cfg, c, c1, Shared, cycle);
    if LineInState(cfg, c, Invalid) {
      SameStatesUpgrade(strict, c.sets, c1.sets);
    } else if LineInState(cfg, c1, Shared) {
      SameStatesUpgrade(strict, c.sets, c2.sets);
    } else {
      NeitherInvalidNorShared(c.sets, c1.sets, tag);
      WriteUnsharedServed(strict, cfg, c, c2, stats, cycle);
    }
  }

  /** Serving the next pending job, or nothing, from a cache that is not being serviced. */
  ghost predicate TickedTo(strict: bool, cfg: Config, addresses: set<nat>, c: CacheState, c': CacheState)
    requires cfg.Valid()
  {
    && GoodCache(cfg, addresses, c')
    && c'.busRequestBeingServiced == c.busRequestBeingServiced
    && (c.busRequestBeingServiced ==> c' == c)
    && Upgrades(strict, c.sets, c'.sets)
  }

  lemma ServedIsGood(strict: bool, cfg: Config, addresses: set<nat>, c: CacheState, c': CacheState)
    requires cfg.Valid() && GoodCache(cfg, addresses, c.(haveBusRequest := false)) && Serving(cfg, c)
    requires Served(strict, cfg, c, c')
    ensures TickedTo(strict, cfg, addresses, c, c')
  {
    forall k, t | 0 <= k < |c'.sets| && 0 <= t
      ensures Legal(cfg.protocol, St(c', k, t))
    {
      assert Legal(cfg.protocol, St(c.(haveBusRequest := false), k, t));
    }
  }

  lemma WriteServed(strict: bool, cfg: Config, addresses: set<nat>, c: CacheState, stats: Stats, cycle: nat)
    requires cfg.Valid() && (strict ==> TraceOk(cfg, addresses)) && Serving(cfg, c) && c.currentJob.value.IsWrite()
    requires forall k :: 0 <= k < |c.sets| ==> LinesFrom(cfg, addresses, k, c.sets[k])
    ensures Served(strict, cfg, c, Write(cfg, c, stats, cycle).cache)
  {
    hide Served, WriteMSI, WriteMESI, WriteMOESI, LinesFrom;
    match cfg.protocol
    case MSI => WriteMSIServed(strict, cfg, c, stats, cycle);
    case MESI => WriteMESIServed(strict, cfg, addresses, c, stats, cycle);
    case MOESI => WriteMOESIServed(strict, cfg, c, stats, cycle);
  }

  lemma HandleRequestEffect(strict: bool, cfg: Config, addresses: set<nat>, c: CacheState, stats: Stats, cycle: nat)
    requires cfg.Valid() && (strict ==> TraceOk(cfg, addresses))
    requires GoodCache(cfg, addresses, c) && !c.busRequestBeingServiced
    ensures TickedTo(strict, cfg, addresses, c, HandleRequest(cfg, c, stats, cycle).cache)
  {
    hide Write, Read, Served, Upgrades;
    SameStatesUpgrade(strict, c.sets, c.sets);
    if !c.busy && c.pendingJobs != [] {
      var job := c.pendingJobs[0];
      var c1 := c.(currentJob := Some(job), pendingJobs := c.pendingJobs[1..]);
      forall k, t | 0 <= k < |c1.sets| && 0 <= t
        ensures Legal(cfg.protocol, St(c1, k, t))
      {
        assert Legal(cfg.protocol, St(c, k, t));
      }
      assert GoodCache(cfg, addresses, c1.(haveBusRequest := false)) by {
        assert forall k, t :: 0 <= k < |c1.sets| && 0 <= t ==> St(c1.(haveBusRequest := false), k, t) == St(c1, k, t);
      }
      if job.IsWrite() {
        WriteServed(strict, cfg, addresses, c1, stats, cycle);
        ServedIsGood(strict, cfg, addresses, c1, Write(cfg, c1, stats, cycle).cache);
      } else if job.IsRead() {
        ReadServed(strict, cfg, c1, stats, cycle);
        ServedIsGood(strict, cfg, addresses, c1, Read(cfg, c1, stats, cycle).cache);
      }
    }
  }

  lemma SameStatesStayGood(cfg: Config, addresses: set<nat>, c: CacheState, c': CacheState)
    requires cfg.Valid() && GoodCache(cfg, addresses, c) && SameStates(c.sets, c'.sets) && c' == c.(sets := c'.sets, busy := c'.busy)
    ensures GoodCache(cfg, addresses, c')
  {
    hide LinesFrom, SameLines, RequestFor, Find;
    forall k | 0 <= k < |c'.sets|
      ensures LinesFrom(cfg, addresses, k, c'.sets[k])
    {
      SameLinesFrom(cfg, addresses, k, c.sets[k], c'.sets[k]);
    }
    forall k, t | 0 <= k < |c'.sets| && 0 <= t
      ensures Legal(cfg.protocol, St(c', k, t))
    {
      assert Legal(cfg.protocol, St(c, k, t));
    }
  }

  lemma TouchedIsGood(cfg: Config, addresses: set<nat>, c: CacheState, cycle: nat)
    requires cfg.Valid() && GoodCache(cfg, addresses, c)
    ensures GoodCache(cfg, addresses, CurrentJobLineTouched(cfg, c, cycle).(busy := false))
    ensures SameStates(c.sets, CurrentJobLineTouched(cfg, c, cycle).sets)
  {
    SelfSame(c.sets);
    hide GoodCache, SameStates, TagOf, TouchAll;
    if c.currentJob.Some? {
      TouchAllKeepsStates(c.sets, TagOf(cfg, c.currentJob.value.address), cycle);
    }
    SameStatesStayGood(cfg, addresses, c, CurrentJobLineTouched(cfg, c, cycle).(busy := false));
  }

  lemma TickEffect(strict: bool, cfg: Config, addresses: set<nat>, c: CacheState, stats: Stats, cycle: nat)
    requires cfg.Valid() && (strict ==> TraceOk(cfg, addresses)) && GoodCache(cfg, addresses, c)
    ensures TickedTo(strict, cfg, addresses, c, Tick(cfg, c, stats, cycle).cache)
  {
    hide HandleRequest, SameStates, Upgrades, CurrentJobLineTouched, LinesFrom, RequestFor, St;
    assert SameStates(c.sets, c.sets) by { SelfSame(c.sets); }
    SameStatesUpgrade(strict, c.sets, c.sets);
    if !c.busRequestBeingServiced {
      var c1 := if c.startServiceCycle + c.jobCycleCost <= cycle
                then CurrentJobLineTouched(cfg, c, cycle).(busy := false) else c;
      assert SameStates(c.sets, c1.sets) && GoodCache(cfg, addresses, c1) && !c1.busRequestBeingServiced by {
        TouchedIsGood(cfg, addresses, c, cycle);
        TouchKeepsFlags(cfg, c, cycle);
      }
      SameStatesUpgrade(strict, c.sets, c1.sets);
      HandleRequestEffect(strict, cfg, addresses, c1, stats, cycle);
      ScanThenUpgrade(strict, c.sets, c1.sets, HandleRequest(cfg, c1, stats, cycle).cache.sets);
    }
  }

  lemma SelfSame(a: seq<LineSet>)
    ensures SameStates(a, a)
  {
  }

  lemma TouchKeepsFlags(cfg: Config, c: CacheState, cycle: nat)
    requires cfg.Valid()
    ensures CurrentJobLineTouched(cfg, c, cycle) == c.(sets := CurrentJobLineTouched(cfg, c, cycle).sets)
  {
  }

  // ---------------------------------------------------------------------
  // Snooping and completion
  // ---------------------------------------------------------------------

  /** Replacing one set by one with the same lines and legal states keeps a cache good. */
  lemma ReplaceSet(cfg: Config, addresses: set<nat>, c: CacheState, k0: nat, u: LineSet)
    requires cfg.Valid() && GoodCache(cfg, addresses, c) && k0 < |c.sets|
    requires LinesFrom(cfg, addresses, k0, u)
    requires forall t: nat {:trigger StateIn(u, t)} :: Legal(cfg.protocol, StateIn(u, t))
    ensures GoodCache(cfg, addresses, c.(sets := c.sets[k0 := u]))
    ensures forall k, t {:trigger St(c.(sets := c.sets[k0 := u]), k, t)} :: 0 <= k < |c.sets| && 0 <= t ==>
              St(c.(sets := c.sets[k0 := u]), k, t) == if k == k0 then StateIn(u, t) else St(c, k, t)
  {
    hide LinesFrom, RequestFor, StateIn;
    var c' := c.(sets := c.sets[k0 := u]);
    forall k, t | 0 <= k < |c'.sets| && 0 <= t
      ensures St(c', k, t) == if k == k0 then StateIn(u, t) else St(c, k, t)
      ensures Legal(cfg.protocol, St(c', k, t))
    {
      assert Legal(cfg.protocol, St(c, k, t));
    }
  }

  /** Where a snoop takes a copy: a write invalidates it; a read leaves it shared if it was
      exclusive, owned if it was modified and the protocol knows owners, and shared if it was
      modified otherwise; owned, shared and invalid copies survive a read. */
  predicate SnoopTakes(p: Protocol, command: Command, st: State, st': State) {
    if command == BusRdX then st' == Invalid
    else
      match st
      case Invalid => st' == Invalid
      case Shared => st' == Shared
      case Exclusive => st' == Shared
      case Owned => st' == Owned
      case Modified => st' == if p == MOESI then Owned else Shared
  }

  lemma SnoopEffect(cfg: Config, addresses: set<nat>, c: CacheState, r: Request, cycle: nat)
    requires cfg.Valid() && GoodCache(cfg, addresses, c) && r.lineSet < cfg.NumSets()
    ensures var c' := Snooped(cfg, c, r, cycle);
            && GoodCache(cfg, addresses, c')
            && c' == c.(sets := c'.sets)
            && (forall k, t {:trigger St(c', k, t)} :: 0 <= k < |c.sets| && 0 <= t ==>
                  St(c', k, t) == if k == r.lineSet && t == r.lineTag
                                  then SnoopedState(cfg.protocol, r.command, St(c, k, t)) else St(c, k, t))
            && SnoopTakes(cfg.protocol, r.command, St(c, r.lineSet, r.lineTag), St(c', r.lineSet, r.lineTag))
  {
    assert Legal(cfg.protocol, St(c, r.lineSet, r.lineTag));
    var s := c.sets[r.lineSet];
    var st := SnoopedState(cfg.protocol, r.command, StateIn(s, r.lineTag));
    var u := Assign(s, r.lineTag, st, cycle);
    AssignSetsOneState(s, r.lineTag, st, cycle);
    SameLinesFrom(cfg, addresses, r.lineSet, s, u);
    hide Assign, LinesFrom, SameLines;
    forall t: nat
      ensures Legal(cfg.protocol, StateIn(u, t))
    {
      assert Legal(cfg.protocol, St(c, r.lineSet, t));
    }
    ReplaceSet(cfg, addresses, c, r.lineSet, u);
  }

  lemma SameLinesFrom(cfg: Config, addresses: set<nat>, k: nat, s: LineSet, u: LineSet)
    requires cfg.Valid() && LinesFrom(cfg, addresses, k, s) && SameLines(s, u)
    ensures LinesFrom(cfg, addresses, k, u)
  {
  }

  /** A line that is not there yet goes last; a set at capacity first loses its victim. */
  lemma InstalledIs(cfg: Config, s: LineSet, job: Job)
    requires cfg.Valid() && DistinctTags(s) && |s| <= cfg.numLinesInSet
    ensures var tag := TagOf(cfg, job.address);
            Installed(cfg, s, job) ==
            if HasLine(s, tag) then s
            else (if |s| == cfg.numLinesInSet then Evict(s) else s)
                 + [Line(job.address, SetOf(cfg, job.address), tag, Invalid, 0)]
  {
    if |s| == cfg.numLinesInSet {
      EvictDropsOneTag(s, TagOf(cfg, job.address));
    }
  }

  lemma AppendedIsFound(s: LineSet, line: Line)
    ensures HasLine(s + [line], line.tag)
  {
    assert (s + [line])[|s|] == line;
  }

  /** Whatever the set, the job's line is there after installation. */
  lemma InstalledHasLine(cfg: Config, s: LineSet, job: Job)
    requires cfg.Valid()
    ensures HasLine(Installed(cfg, s, job), TagOf(cfg, job.address))
  {
    var tag := TagOf(cfg, job.address);
    var s1 := if NeedToEvict(cfg, s, tag) then Evict(s) else s;
    AppendedIsFound(if |s1| == cfg.numLinesInSet then Evict(s1) else s1, Line(job.address, SetOf(cfg, job.address), tag, Invalid, 0));
    hide TagOf, SetOf, Evict, HasLine, NeedToEvict;
  }

  lemma EvictKeepsLinesFrom(cfg: Config, addresses: set<nat>, k: nat, s: LineSet)
    requires cfg.Valid() && LinesFrom(cfg, addresses, k, s) && |s| > 0
    ensures LinesFrom(cfg, addresses, k, Evict(s)) && |Evict(s)| == |s| - 1
  {
    var r, e := Lru(s), Evict(s);
    assert forall i :: 0 <= i < |e| ==> e[i] == if i < r then s[i] else s[i + 1];
  }

  /** Making room in a set at capacity. */
  function Roomy(cfg: Config, s: LineSet): LineSet {
    if |s| == cfg.numLinesInSet && |s| > 0 then Evict(s) else s
  }

  lemma RoomEffect(cfg: Config, addresses: set<nat>, k: nat, s: LineSet, tag: nat)
    requires cfg.Valid() && LinesFrom(cfg, addresses, k, s) && !HasLine(s, tag)
    ensures var u := Roomy(cfg, s);
            && LinesFrom(cfg, addresses, k, u) && |u| < cfg.numLinesInSet && !HasLine(u, tag)
            && (forall t: nat {:trigger StateIn(u, t)} :: StateIn(u, t) == StateIn(s, t) || StateIn(u, t) == Invalid)
  {
    if |s| == cfg.numLinesInSet {
      EvictKeepsLinesFrom(cfg, addresses, k, s);
      EvictDropsOneTag(s, tag);
      forall t: nat
        ensures StateIn(Evict(s), t) == StateIn(s, t) || StateIn(Evict(s), t) == Invalid
      {
        EvictDropsOneTag(s, t);
      }
    }
  }

  lemma AppendEffect(cfg: Config, addresses: set<nat>, u: LineSet, job: Job)
    requires cfg.Valid() && job.address in addresses && |u| < cfg.numLinesInSet && !HasLine(u, TagOf(cfg, job.address))
    requires LinesFrom(cfg, addresses, SetOf(cfg, job.address), u)
    ensures var v := u + [Line(job.address, SetOf(cfg, job.address), TagOf(cfg, job.address), Invalid, 0)];
            && LinesFrom(cfg, addresses, SetOf(cfg, job.address), v) && HasLine(v, TagOf(cfg, job.address))
            && (forall t: nat {:trigger StateIn(v, t)} :: StateIn(v, t) == StateIn(u, t) || StateIn(v, t) == Invalid)
  {
    var k, tag := SetOf(cfg, job.address), TagOf(cfg, job.address);
    hide SetOf, TagOf, StateIn, HasLine;
    var line := Line(job.address, k, tag, Invalid, 0);
    AppendAddsOneTag(u, line, tag);
    forall t: nat
      ensures StateIn(u + [line], t) == StateIn(u, t) || StateIn(u + [line], t) == Invalid
    {
      AppendAddsOneTag(u, line, t);
    }
  }

  lemma InstallEffect(cfg: Config, addresses: set<nat>, s: LineSet, job: Job)
    requires cfg.Valid() && job.address in addresses
    requires LinesFrom(cfg, addresses, SetOf(cfg, job.address), s)
    ensures var u := Installed(cfg, s, job);
            && LinesFrom(cfg, addresses, SetOf(cfg, job.address), u)
            && HasLine(u, TagOf(cfg, job.address))
            && (forall t: nat {:trigger StateIn(u, t)} :: StateIn(u, t) == StateIn(s, t) || StateIn(u, t) == Invalid)
  {
    InstalledIs(cfg, s, job);
    hide Installed, SetOf, TagOf, StateIn, Evict;
    if !HasLine(s, TagOf(cfg, job.address)) {
      RoomEffect(cfg, addresses, SetOf(cfg, job.address), s, TagOf(cfg, job.address));
      AppendEffect(cfg, addresses, Roomy(cfg, s), job);
    }
  }

  /** A completed job settles its own line and can only drop others. */
  ghost predicate DoneTo(cfg: Config, c: CacheState, c': CacheState, isShared: bool)
    requires cfg.Valid() && c.currentJob.Some?
  {
    var job := c.currentJob.value;
    && c' == c.(sets := c'.sets, haveBusRequest := false, busy := false, busRequestBeingServiced := false)
    && |c'.sets| == |c.sets|
    && (forall k, t {:trigger St(c', k, t)} :: 0 <= k < |c.sets| && 0 <= t ==>
          if k == SetOf(cfg, job.address) && t == TagOf(cfg, job.address) && (job.IsRead() || job.IsWrite())
          then St(c', k, t) == DoneState(cfg.protocol, job, isShared, Invalid)
          else St(c', k, t) == St(c, k, t) || St(c', k, t) == Invalid)
  }

  /** What completion may leave of one tag. */
  predicate DoneTag(cfg: Config, job: Job, isShared: bool, tag: nat, before: State, after: State)
    requires cfg.Valid()
  {
    && Legal(cfg.protocol, after)
    && if tag == TagOf(cfg, job.address) && (job.IsRead() || job.IsWrite())
       then after == DoneState(cfg.protocol, job, isShared, Invalid)
       else after == before || after == Invalid
  }

  lemma DoneTagTable(cfg: Config, job: Job, isShared: bool, tag: nat, before: State, installed: State, after: State)
    requires cfg.Valid() && Legal(cfg.protocol, before) && (installed == before || installed == Invalid)
    requires after == if tag == TagOf(cfg, job.address) then DoneState(cfg.protocol, job, isShared, installed) else installed
    ensures DoneTag(cfg, job, isShared, tag, before, after)
  {
    hide TagOf;
  }

  lemma DoneSetEffect(cfg: Config, addresses: set<nat>, s: LineSet, job: Job, isShared: bool, cycle: nat)
    requires cfg.Valid() && job.address in addresses
    requires LinesFrom(cfg, addresses, SetOf(cfg, job.address), s)
    requires forall t: nat {:trigger StateIn(s, t)} :: Legal(cfg.protocol, StateIn(s, t))
    ensures var v := DoneSet(cfg, s, job, isShared, cycle);
            && LinesFrom(cfg, addresses, SetOf(cfg, job.address), v)
            && (forall t: nat {:trigger StateIn(v, t)} :: DoneTag(cfg, job, isShared, t, StateIn(s, t), StateIn(v, t)))
  {
    var tag := TagOf(cfg, job.address);
    var u := Installed(cfg, s, job);
    var done := DoneState(cfg.protocol, job, isShared, StateIn(u, tag));
    var v := Assign(u, tag, done, cycle);
    assert v == DoneSet(cfg, s, job, isShared, cycle);
    hide *;
    InstallEffect(cfg, addresses, s, job);
    AssignSetsOneState(u, tag, done, cycle);
    SameLinesFrom(cfg, addresses, SetOf(cfg, job.address), u, v);
    forall t: nat
      ensures DoneTag(cfg, job, isShared, t, StateIn(s, t), StateIn(v, t))
    {
      assert StateIn(u, t) == StateIn(s, t) || StateIn(u, t) == Invalid;
      DoneTagTable(cfg, job, isShared, t, StateIn(s, t), StateIn(u, t), StateIn(v, t));
    }
  }

  lemma DoneEffect(cfg: Config, addresses: set<nat>, c: CacheState, stats: Stats, isShared: bool, cycle: nat)
    requires cfg.Valid() && GoodCache(cfg, addresses, c) && c.currentJob.Some?
    ensures GoodCache(cfg, addresses, BusJobDone(cfg, c, stats, isShared, cycle).cache)
    ensures DoneTo(cfg, c, BusJobDone(cfg, c, stats, isShared, cycle).cache, isShared)
  {
    hide DoneSet, Installed, SetOf, TagOf, HasLine, DoneStats, LinesFrom, RequestFor, NeedToEvict, StateIn;
    var job := c.currentJob.value;
    var k0, tag := SetOf(cfg, job.address), TagOf(cfg, job.address);
    var s := c.sets[k0];
    forall t: nat
      ensures Legal(cfg.protocol, StateIn(s, t))
    {
      assert Legal(cfg.protocol, St(c, k0, t));
    }
    var v := DoneSet(cfg, s, job, isShared, cycle);
    DoneSetEffect(cfg, addresses, s, job, isShared, cycle);
    ReplaceSet(cfg, addresses, c, k0, v);
    var c1 := c.(sets := c.sets[k0 := v]);
    var c' := BusJobDone(cfg, c, stats, isShared, cycle).cache;
    assert c' == c1.(haveBusRequest := false, busy := false, busRequestBeingServiced := false);
    assert forall k, t :: 0 <= k < |c.sets| && 0 <= t ==> St(c', k, t) == St(c1, k, t);
  }
}
