/** The atomic bus as the object it is in the program, proved to take the model's steps. */
module Buses {
  import opened Constants
  import opened CacheModel
  import opened SystemModel
  import opened CacheSets
  import opened Caches

  /** Every set object of every cache. */
  ghost function AllSets(caches: seq<Cache>): set<CacheSet> {
    set i, k | 0 <= i < |caches| && 0 <= k < |caches[i].localCache| :: caches[i].localCache[k]
  }

  ghost function Views(caches: seq<Cache>): (r: seq<CacheState>)
    reads caches, AllSets(caches)
    ensures |r| == |caches|
    ensures forall i :: 0 <= i < |r| ==> r[i] == caches[i].View()
  {
    seq(|caches|, i requires 0 <= i < |caches| reads caches, AllSets(caches) => caches[i].View())
  }

  /** The caches are numbered, share the clock and the counters, and own their sets. */
  ghost predicate Linked(constants: CacheConstants, stats: CacheStats, caches: seq<Cache>) {
    && constants.cfg.Valid()
    && |caches| == constants.cfg.numProcessors
    && forall i {:trigger caches[i]} :: 0 <= i < |caches| ==>
         caches[i].processorId == i && caches[i].consts == constants && caches[i].stats == stats && caches[i].OwnsSets()
  }

  lemma RequestIsThere(cfg: Config, c: CacheState)
    requires Shaped(cfg, c) && c.haveBusRequest
    ensures c.busRequest.Some?
  {
  }

  function Lengthened(s: System, extra: nat): System
    requires 0 <= s.bus.currentCache < |s.caches|
  {
    var c := s.caches[s.bus.currentCache];
    s.(bus := s.bus.(endCycle := s.bus.endCycle + extra),
       caches := s.caches[s.bus.currentCache := c.(jobCycleCost := c.jobCycleCost + extra)],
       stats := s.stats.(numMainMemoryUses := s.stats.numMainMemoryUses + 1))
  }

  function Shortened(cfg: Config, s: System): System
    requires cfg.Valid() && 0 <= s.bus.currentCache < |s.caches|
  {
    var c := s.caches[s.bus.currentCache];
    s.(bus := s.bus.(endCycle := s.bus.endCycle - (cfg.memoryResponseCycleCost - cfg.cacheResponseCycleCost)),
       caches := s.caches[s.bus.currentCache := c.(jobCycleCost := cfg.cacheResponseCycleCost)])
  }

  /** The MESI answers, in terms of the two adjustments. */
  lemma AnsweredMESI(cfg: Config, round: Round, result: SnoopResult)
    requires cfg.Valid() && InTransaction(cfg, round.sys) && cfg.protocol == MESI
    ensures var s := round.sys;
            Answered(cfg, round, result)
            == if result == FLUSH_MODIFIED_TO_INVALID || result == FLUSH_MODIFIED_TO_SHARED then
                 var a := Lengthened(s, cfg.cacheResponseCycleCost);
                 Round(a.(bus := a.bus.(isShared := true)), round.foundShared)
               else if result == SHARED then
                 var a := if round.foundShared then s else Shortened(cfg, s);
                 Round(a.(bus := a.bus.(isShared := true)), true)
               else round
  {
    hide Shaped;
  }

  class AtomicBusManager {
    const constants: CacheConstants
    const caches: seq<Cache>
    const stats: CacheStats
    var currentCache: int
    var currentRequest: Option<Request>
    var inUse: bool
    var startCycle: nat
    var endCycle: int
    var isShared: bool

    ghost function View(): System
      reads this, constants, stats, caches, AllSets(caches)
    {
      System(constants.cycles, Views(caches),
             BusState(currentCache, currentRequest, inUse, startCycle, endCycle, isShared), stats.View())
    }

    ghost predicate Valid()
      reads this, constants, stats, caches, AllSets(caches)
    {
      Linked(constants, stats, caches) && SystemShaped(constants.cfg, View())
    }

    constructor (constants: CacheConstants, caches: seq<Cache>, stats: CacheStats)
      requires Linked(constants, stats, caches) && forall i :: 0 <= i < |caches| ==> caches[i].Valid()
      ensures this.constants == constants && this.caches == caches && this.stats == stats
      ensures Valid() && View() == System(constants.cycles, Views(caches), IDLE_BUS, stats.View())
    {
      this.constants, this.caches, this.stats := constants, caches, stats;
      currentCache, currentRequest := 0, None;
      startCycle, endCycle := 0, 0;
      inUse, isShared := false, false;
      new;
      assert forall i :: 0 <= i < |caches| ==> Views(caches)[i] == caches[i].View();
    }

    /** The cache being served is told that its job is done. */
    method FinishJob()
      requires Valid() && inUse
      modifies caches, AllSets(caches), stats
      ensures Valid()
      ensures var s := old(View());
              var o := CacheModel.BusJobDone(constants.cfg, s.caches[s.bus.currentCache], s.stats, s.bus.isShared, s.cycle);
              View() == s.(caches := s.caches[s.bus.currentCache := o.cache], stats := o.stats)
    {
      hide DoneSet, DoneStats, NeedToEvict, Installed, Shaped, SetOf, TagOf;
      caches[currentCache].BusJobDone(isShared);
      assert Views(caches) == old(Views(caches))[currentCache := caches[currentCache].View()];
    }

    method Release()
      requires Valid()
      modifies this`currentCache, this`inUse, this`isShared
      ensures Valid()
      ensures View() == old(View()).(bus := old(View()).bus.(currentCache := -1, inUse := false, isShared := false))
    {
      currentCache := -1;
      inUse := false;
      isShared := false;
      assert Views(caches) == old(Views(caches));
    }

    /** The transaction is over and the bus is free again. */
    method Complete()
      requires Valid() && inUse
      modifies this, caches, AllSets(caches), stats
      ensures Valid() && View() == Completed(constants.cfg, old(View()))
      ensures View().bus == old(View()).bus.(currentCache := -1, inUse := false, isShared := false)
    {
      assert InTransaction(constants.cfg, View());
      hide Valid, Views, CacheModel.BusJobDone, Shaped;
      FinishJob();
      Release();
    }

    /** Lowest-numbered cache with a request; -1 when there is none. */
    method NextCache() returns (next: int)
      requires Valid()
      ensures var k := FirstRequester(View().caches);
              next == if k == |caches| then -1 else k
    {
      for i := 0 to constants.cfg.numProcessors
        invariant forall j :: 0 <= j < i ==> !Views(caches)[j].haveBusRequest
      {
        if caches[i].haveBusRequest {
          assert Views(caches)[i].haveBusRequest;
          return i;
        }
      }
      return -1;
    }

    /** Cache `k` hands its request over and waits. */
    method FetchRequest(k: nat) returns (request: Option<Request>)
      requires Valid() && !inUse && k < |caches| && View().caches[k].haveBusRequest
      modifies caches
      ensures Valid() && request.Some? && request == old(View()).caches[k].busRequest
      ensures var s := old(View());
              View() == s.(caches := s.caches[k := s.caches[k].(startServiceCycle := s.cycle, busRequestBeingServiced := true)])
    {
      assert Shaped(constants.cfg, caches[k].View());
      RequestIsThere(constants.cfg, caches[k].View());
      hide Shaped;
      request := caches[k].GetBusRequest();
      assert Views(caches) == old(Views(caches))[k := caches[k].View()];
    }

    /** The bus's own fields at the start of a transaction. */
    method Occupy(k: nat, request: Request)
      requires Valid() && k < |caches| && request.lineSet < constants.cfg.NumSets() && caches[k].currentJob.Some?
      modifies this, stats
      ensures Valid()
      ensures var s := old(View());
              View() == s.(bus := BusState(k, Some(request), true, s.cycle, s.cycle + request.cycleCost, s.bus.isShared),
                           stats := s.stats.(numBusRequests := s.stats.numBusRequests + 1))
    {
      hide Shaped;
      currentRequest := Some(request);
      currentCache := k;
      stats.numBusRequests := stats.numBusRequests + 1;
      startCycle := constants.cycles;
      endCycle := startCycle + currentRequest.value.cycleCost;
      inUse := true;
      assert Views(caches) == old(Views(caches));
      assert View().caches[k].currentJob.Some?;
    }

    /** Cache `k` gets the bus. */
    method Grant(k: nat)
      requires Valid() && !inUse && k < |caches| && View().caches[k].haveBusRequest
      modifies this, caches, stats
      ensures Valid()
      ensures View() == Granted(constants.cfg, old(View()), k)
    {
      assert CachesShaped(constants.cfg, View()) && Shaped(constants.cfg, View().caches[k]);
      var request := FetchRequest(k);
      assert View().caches[k].currentJob.Some?;
      hide Valid, Views;
      Occupy(k, request.value);
    }

    /** A flush makes the transaction, and the requester's estimate, longer by `extra`. */
    method Lengthen(extra: nat)
      requires Valid() && inUse
      modifies this`endCycle, caches, stats
      ensures Valid()
      ensures View() == Lengthened(old(View()), extra)
    {
      hide Shaped;
      var cc := currentCache;
      endCycle := endCycle + extra;
      caches[cc].UpdateEndCycleTime(extra);
      stats.numMainMemoryUses := stats.numMainMemoryUses + 1;
      assert Views(caches) == old(Views(caches))[cc := caches[cc].View()];
    }

    /** Another cache supplies the line, faster than memory would. */
    method Shorten()
      requires Valid() && inUse
      modifies this`endCycle, caches
      ensures Valid()
      ensures View() == Shortened(constants.cfg, old(View()))
    {
      hide Shaped;
      var cc, mem, resp := currentCache, constants.cfg.memoryResponseCycleCost, constants.cfg.cacheResponseCycleCost;
      endCycle := endCycle - (mem - resp);
      caches[cc].NewEndCycleTime(resp);
      assert Views(caches) == old(Views(caches))[cc := caches[cc].View()];
    }

    method MarkShared()
      requires Valid()
      modifies this`isShared
      ensures Valid()
      ensures View() == old(View()).(bus := old(View()).bus.(isShared := true))
    {
      isShared := true;
      assert Views(caches) == old(Views(caches));
    }

    /** Under MSI a flush is followed by a read from memory. */
    method HandleAnswerMSI(result: SnoopResult, ghost foundShared: bool)
      requires Valid() && inUse && constants.cfg.protocol == MSI
      modifies this`endCycle, caches, stats
      ensures Valid()
      ensures Round(View(), foundShared) == Answered(constants.cfg, Round(old(View()), foundShared), result)
    {
      assert InTransaction(constants.cfg, View());
      hide Valid, Views, Shaped;
      if result == FLUSH_MODIFIED_TO_SHARED || result == FLUSH_MODIFIED_TO_INVALID {
        Lengthen(constants.cfg.memoryResponseCycleCost);
      }
    }

    /** Under MOESI an owner supplies the line, unless the request is only an upgrade. */
    method HandleAnswerMOESI(result: SnoopResult, ghost foundShared: bool)
      requires Valid() && inUse && constants.cfg.protocol == MOESI
      modifies this`endCycle, this`isShared, caches
      ensures Valid()
      ensures Round(View(), foundShared) == Answered(constants.cfg, Round(old(View()), foundShared), result)
    {
      assert InTransaction(constants.cfg, View());
      hide Valid, Views, Shaped;
      if result == MODIFIED || result == EXCLUSIVE || result == OWNED {
        if currentRequest.value.cycleCost != constants.cfg.cacheHitCycleCost {
          Shorten();
        }
        MarkShared();
      }
    }

    /** Under MESI the first sharer supplies the line; a flush comes on top. */
    method HandleAnswerMESI(result: SnoopResult, foundShared: bool) returns (found: bool)
      requires Valid() && inUse && constants.cfg.protocol == MESI
      modifies this`endCycle, this`isShared, caches, stats
      ensures Valid()
      ensures Round(View(), found) == Answered(constants.cfg, Round(old(View()), foundShared), result)
    {
      assert InTransaction(constants.cfg, View()) && constants.cfg.Valid();
      AnsweredMESI(constants.cfg, Round(View(), foundShared), result);
      hide Valid, Views, Shaped, Answered, Lengthened, Shortened;
      found := foundShared;
      if result == FLUSH_MODIFIED_TO_INVALID || result == FLUSH_MODIFIED_TO_SHARED {
        Lengthen(constants.cfg.cacheResponseCycleCost);
        MarkShared();
      } else if result == SHARED {
        if !foundShared {
          Shorten();
          found := true;
        }
        MarkShared();
      }
    }

    /** One answer adjusts the end of the transaction, the requester's own cost and the flags. */
    method HandleAnswer(result: SnoopResult, foundShared: bool) returns (found: bool)
      requires Valid() && inUse
      modifies this`endCycle, this`isShared, caches, stats
      ensures Valid()
      ensures Round(View(), found) == Answered(constants.cfg, Round(old(View()), foundShared), result)
    {
      assert InTransaction(constants.cfg, View());
      hide *;
      found := foundShared;
      match constants.cfg.protocol
      case MSI => HandleAnswerMSI(result, foundShared);
      case MOESI => HandleAnswerMOESI(result, foundShared);
      case MESI => found := HandleAnswerMESI(result, foundShared);
    }

    /** A cache other than the requester snoops and answers. */
    method Ask(i: nat) returns (result: SnoopResult)
      requires Valid() && inUse && i < |caches| && i != currentCache
      modifies AllSets(caches), stats
      ensures Valid()
      ensures var s := old(View());
              var o := Snoop(constants.cfg, s.caches[i], s.stats, s.bus.currentRequest.value, s.cycle);
              result == o.result && View() == s.(caches := s.caches[i := o.cache], stats := o.stats)
    {
      hide Snoop;
      result := caches[i].SnoopBusRequest(currentRequest.value);
      assert Views(caches) == old(Views(caches))[i := caches[i].View()];
    }

    /** Cache `i` snoops, unless it is the requester. */
    method SnoopNext(i: nat, foundShared: bool) returns (found: bool)
      requires Valid() && inUse && i < |caches|
      modifies this`endCycle, this`isShared, caches, AllSets(caches), stats
      ensures Valid()
      ensures Round(View(), found) == SnoopOne(constants.cfg, Round(old(View()), foundShared), i)
    {
      assert InTransaction(constants.cfg, View());
      hide Valid, Views, Snoop, Answered, Shaped;
      if i == currentCache {
        return foundShared;
      }
      var result := Ask(i);
      found := HandleAnswer(result, foundShared);
    }

    /** Every other cache snoops the request, in order. */
    method BroadcastRequest() returns (foundShared: bool)
      requires Valid() && inUse
      modifies this`endCycle, this`isShared, caches, AllSets(caches), stats
      ensures Valid()
      ensures Round(View(), foundShared) == Broadcast(constants.cfg, old(View()), |caches|)
    {
      assert constants.cfg.Valid();
      hide SnoopOne, Linked;
      foundShared := false;
      for i := 0 to |caches|
        invariant Valid() && inUse
        invariant constants.cfg.Valid() && InTransaction(constants.cfg, old(View()))
        invariant Round(View(), foundShared) == Broadcast(constants.cfg, old(View()), i)
      {
        foundShared := SnoopNext(i, foundShared);
      }
    }

    /** Complete the transaction that is due, if any, then pick and broadcast the next request. */
    method Tick()
      requires Valid()
      modifies this, caches, AllSets(caches), stats
      ensures Valid() && View() == BusTick(constants.cfg, old(View()))
    {
      assert SystemShaped(constants.cfg, View());
      hide Valid, Views, Completed, NextTransaction, Shaped;
      if inUse {
        if endCycle <= constants.cycles {
          Complete();
        } else {
          return;
        }
      }
      StartNext();
    }

    /** Grant cache `k`'s request, broadcast it, and count the memory use if nobody shared under MESI. */
    method Serve(k: nat)
      requires Valid() && !inUse && k < |caches| && View().caches[k].haveBusRequest
      modifies this, caches, AllSets(caches), stats
      ensures Valid()
      ensures CachesShaped(constants.cfg, old(View()))
      ensures View() == BroadcastDone(constants.cfg, Broadcast(constants.cfg, Granted(constants.cfg, old(View()), k), |caches|))
    {
      assert constants.cfg.Valid() && CachesShaped(constants.cfg, View()) && |View().caches| == |caches|;
      hide Broadcast, Granted, Valid, Views, Shaped, CachesShaped;
      Grant(k);
      assert inUse && InTransaction(constants.cfg, View());
      var foundShared := BroadcastRequest();
      if !foundShared && constants.cfg.protocol == MESI {
        CountMemoryUse();
      }
    }

    /** Pick the next request, if any, and broadcast it. */
    method StartNext()
      requires Valid() && !inUse
      modifies this, caches, AllSets(caches), stats
      ensures Valid() && View() == NextTransaction(constants.cfg, old(View()))
    {
      assert constants.cfg.Valid() && CachesShaped(constants.cfg, View()) && |View().caches| == |caches|;
      var next := NextCache();
      hide Broadcast, BroadcastDone, Granted, FirstRequester, Shaped, Valid, Views, CachesShaped;
      if next == -1 {
        Rest();
      } else {
        Serve(next);
      }
    }

    method Rest()
      requires Valid()
      modifies this`inUse, this`isShared
      ensures Valid() && View() == old(View()).(bus := old(View()).bus.(inUse := false, isShared := false))
    {
      inUse := false;
      isShared := false;
      assert Views(caches) == old(Views(caches));
    }

    method CountMemoryUse()
      requires Valid()
      modifies stats
      ensures Valid()
      ensures View() == old(View()).(stats := old(View()).stats.(numMainMemoryUses := old(View()).stats.numMainMemoryUses + 1))
    {
      stats.numMainMemoryUses := stats.numMainMemoryUses + 1;
      assert Views(caches) == old(Views(caches));
    }
  }
}
