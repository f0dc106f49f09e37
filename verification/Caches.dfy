/** One processor's cache as the object it is in the program: every method is proved to
    do to the object's state exactly what the value-level model says. */
module Caches {
  import opened Constants
  import opened LineSets
  import opened CacheModel
  import opened CacheSets
  import Coherence
  import SystemModel

  /** A scan that visited the sets up to `stop`, and found the tag in state `st` only there. */
  lemma ScanStopsAt(before: seq<LineSet>, after: seq<LineSet>, tag: nat, st: State, cycle: nat, stop: nat)
    requires |after| == |before| && stop <= |before|
    requires stop < |before| ==> LineSets.HasLine(before[stop], tag) && StateIn(before[stop], tag) == st
    requires forall k :: 0 <= k < stop ==> !(LineSets.HasLine(before[k], tag) && StateIn(before[k], tag) == st)
    requires forall k :: 0 <= k < |before| ==> after[k] == if k <= stop then Touch(before[k], tag, cycle) else before[k]
    ensures TagInState(before, tag, st) <==> stop < |before|
    ensures after == Scanned(before, tag, st, cycle)
  {
    hide StateIn, HasLine, Touch;
    assert FirstInState(before, tag, st) == stop;
  }

  /** Asking twice gives the same answer. */
  lemma QueryTwice(cfg: Config, c: CacheState, st: State, cycle: nat)
    requires cfg.Valid() && c.currentJob.Some?
    ensures LineInState(cfg, Queried(cfg, c, st, cycle), st) == LineInState(cfg, c, st)
  {
    var tag := TagOf(cfg, c.currentJob.value.address);
    Coherence.ScanKeepsStates(c.sets, tag, st, cycle);
    Coherence.SameStatesSameScan(c.sets, Scanned(c.sets, tag, st, cycle), tag, st);
  }

  /** The four queries of a read, up to the first success; `handled` says whether there was one. */
  ghost predicate ReadHitOrNot(cfg: Config, c: CacheState, stats: Stats, cycle: nat, handled: bool, o: Outcome)
    requires cfg.Valid() && Serving(cfg, c)
  {
    var c1 := Queried(cfg, c, Modified, cycle);
    var c2 := Queried(cfg, c1, Shared, cycle);
    var c3 := Queried(cfg, c2, Exclusive, cycle);
    var c4 := Queried(cfg, c3, Owned, cycle);
    var m, s := LineInState(cfg, c, Modified), LineInState(cfg, c1, Shared);
    var e, w := LineInState(cfg, c2, Exclusive), LineInState(cfg, c3, Owned);
    var last := if m then c1 else if s then c2 else if e then c3 else c4;
    && (handled <==> m || s || e || w)
    && o == if handled then Hit(cfg, last, stats, cycle) else Outcome(last, stats)
  }

  /** What a snoop handler does with the line it found. */
  ghost predicate Handled(p: Protocol, command: Command, before: Line, after: Line, a: Stats, b: Stats, result: SnoopResult) {
    && after == before.(state := SnoopedState(p, command, before.state))
    && b == SnoopStats(p, before.state, a)
    && result == SnoopAnswer(p, command, before.state)
  }

  lemma FoundAndHandled(p: Protocol, r: Request, before: LineSet, after: LineSet, cycle: nat, a: Stats, b: Stats, result: SnoopResult)
    requires LineSets.HasLine(before, r.lineTag)
    requires var i, touched := Find(before, r.lineTag), Touch(before, r.lineTag, cycle);
             && |after| == |before| && after == touched[i := after[i]]
             && Handled(p, r.command, touched[i], after[i], a, b, result)
    ensures var st := StateIn(before, r.lineTag);
            && after == Assign(before, r.lineTag, SnoopedState(p, r.command, st), cycle)
            && b == SnoopStats(p, st, a) && result == SnoopAnswer(p, r.command, st)
  {
    hide SnoopedState, SnoopAnswer, SnoopStats, Find;
  }

  lemma NotFound(p: Protocol, r: Request, before: LineSet, cycle: nat, a: Stats)
    requires !LineSets.HasLine(before, r.lineTag)
    ensures var st := StateIn(before, r.lineTag);
            && before == Assign(before, r.lineTag, SnoopedState(p, r.command, st), cycle)
            && a == SnoopStats(p, st, a) && NONE == SnoopAnswer(p, r.command, st)
  {
    hide Find;
  }

  lemma SettledIs(cfg: Config, before: LineSet, installed: LineSet, after: LineSet, job: Job, isShared: bool, cycle: nat)
    requires cfg.Valid() && installed == Installed(cfg, before, job) && LineSets.HasLine(installed, TagOf(cfg, job.address))
    requires var i, touched := Find(installed, TagOf(cfg, job.address)), Touch(installed, TagOf(cfg, job.address), cycle);
             after == touched[i := touched[i].(state := DoneState(cfg.protocol, job, isShared, touched[i].state))]
    ensures after == DoneSet(cfg, before, job, isShared, cycle)
    ensures StateIn(installed, TagOf(cfg, job.address))
            == Touch(installed, TagOf(cfg, job.address), cycle)[Find(installed, TagOf(cfg, job.address))].state
  {
    hide Installed, DoneState, Find, TagOf;
  }

  class Cache {
    const consts: CacheConstants
    const stats: CacheStats
    const processorId: nat
    const localCache: seq<CacheSet>
    var pendingJobs: seq<Job>
    var currentJob: Option<Job>
    var busRequest: Option<Request>
    var haveBusRequest: bool
    var busy: bool
    var busRequestBeingServiced: bool
    var startServiceCycle: nat
    var jobCycleCost: nat

    // -------------------------------------------------------------------
    // Abstraction
    // -------------------------------------------------------------------

    ghost function Sets(): (r: seq<LineSet>)
      reads localCache
      ensures |r| == |localCache|
      ensures forall k :: 0 <= k < |r| ==> r[k] == localCache[k].allLines
    {
      seq(|localCache|, k requires 0 <= k < |localCache| reads localCache => localCache[k].allLines)
    }

    ghost function View(): CacheState
      reads this, localCache
    {
      CacheState(Sets(), pendingJobs, currentJob, busRequest, haveBusRequest, busy, busRequestBeingServiced,
                 startServiceCycle, jobCycleCost)
    }

    /** The cache together with the shared counters. */
    ghost function Both(): Outcome
      reads this, localCache, stats
    {
      Outcome(View(), stats.View())
    }

    /** The sets are distinct objects, and this cache's own. */
    ghost predicate OwnsSets()
    {
      && consts.cfg.Valid()
      && (forall k :: 0 <= k < |localCache| ==> localCache[k].consts == consts && localCache[k].owner == processorId)
      && (forall k, l :: 0 <= k < l < |localCache| ==> localCache[k] != localCache[l])
    }

    ghost predicate Valid()
      reads this, localCache
    {
      OwnsSets() && Shaped(consts.cfg, View())
    }

    constructor (processorId: nat, consts: CacheConstants, stats: CacheStats)
      requires consts.cfg.Valid()
      ensures this.processorId == processorId && this.consts == consts && this.stats == stats
      ensures Valid() && fresh(localCache) && View() == SystemModel.NewCache(consts.cfg)
    {
      this.processorId, this.consts, this.stats := processorId, consts, stats;
      pendingJobs, currentJob, busRequest := [], None, None;
      haveBusRequest, busy, busRequestBeingServiced := false, false, false;
      startServiceCycle, jobCycleCost := 0, 0;
      var sets: seq<CacheSet> := [];
      while |sets| < consts.cfg.NumSets()
        invariant |sets| <= consts.cfg.NumSets()
        invariant forall k :: 0 <= k < |sets| ==>
                    fresh(sets[k]) && sets[k].consts == consts && sets[k].owner == processorId && sets[k].allLines == []
        invariant forall k, l :: 0 <= k < l < |sets| ==> sets[k] != sets[l]
      {
        var s := new CacheSet(consts, processorId);
        sets := sets + [s];
      }
      localCache := sets;
    }

    // -------------------------------------------------------------------
    // Scans over every set for the current job's tag
    // -------------------------------------------------------------------

    /** One step of the query's loop. */
    method QuerySet(i: nat, tag: nat, st: State) returns (found: bool)
      requires OwnsSets() && i < |localCache|
      modifies localCache[i]
      ensures found == (LineSets.HasLine(old(Sets())[i], tag) && StateIn(old(Sets())[i], tag) == st)
      ensures Sets() == old(Sets())[i := Touch(old(Sets())[i], tag, consts.cycles)]
    {
      hide StateIn, LineSets.HasLine, Touch;
      found := localCache[i].QueryLine(tag, st);
    }

    /** The query's loop; the index of the set where it stopped. */
    method StopAt(tag: nat, st: State) returns (stop: nat)
      requires OwnsSets()
      modifies localCache
      ensures stop <= |localCache|
      ensures var before, after := old(Sets()), Sets();
              && (stop < |before| ==> LineSets.HasLine(before[stop], tag) && StateIn(before[stop], tag) == st)
              && (forall k :: 0 <= k < stop ==> !(LineSets.HasLine(before[k], tag) && StateIn(before[k], tag) == st))
              && (forall k :: 0 <= k < |before| ==>
                    after[k] == if k <= stop then Touch(before[k], tag, consts.cycles) else before[k])
    {
      ghost var before := Sets();
      hide StateIn, LineSets.HasLine, Touch, OwnsSets;
      stop := 0;
      while stop < |localCache|
        invariant stop <= |localCache|
        invariant forall k :: 0 <= k < |before| ==> Sets()[k] == if k < stop then Touch(before[k], tag, consts.cycles) else before[k]
        invariant forall k :: 0 <= k < stop ==> !(LineSets.HasLine(before[k], tag) && StateIn(before[k], tag) == st)
      {
        var found := QuerySet(stop, tag, st);
        if found {
          return;
        }
        stop := stop + 1;
      }
    }

    method LineInState(st: State) returns (found: bool)
      requires Valid() && currentJob.Some?
      modifies localCache
      ensures Valid()
      ensures found == CacheModel.LineInState(consts.cfg, old(View()), st)
      ensures View() == Queried(consts.cfg, old(View()), st, consts.cycles)
    {
      var tag := TagOf(consts.cfg, currentJob.value.address);
      var stop := StopAt(tag, st);
      found := stop < |localCache|;
      hide StateIn, LineSets.HasLine, Touch, TagInState, Scanned, TagOf;
      ScanStopsAt(old(Sets()), Sets(), tag, st, consts.cycles, stop);
    }

    method SetLineState(st: State)
      requires Valid() && currentJob.Some?
      modifies localCache
      ensures Valid()
      ensures View() == LineStateSet(consts.cfg, old(View()), st, consts.cycles)
    {
      ghost var before := Sets();
      var tag := TagOf(consts.cfg, currentJob.value.address);
      hide TagOf, Assign;
      for i := 0 to |localCache|
        invariant forall k :: 0 <= k < i ==> localCache[k].allLines == Assign(before[k], tag, st, consts.cycles)
        invariant forall k :: i <= k < |localCache| ==> localCache[k].allLines == before[k]
      {
        localCache[i].AssignLine(tag, st);
      }
      assert Sets() == AssignAll(before, tag, st, consts.cycles);
    }

    method UpdateCurrentJobLineCycle()
      requires Valid()
      modifies localCache
      ensures Valid()
      ensures View() == CurrentJobLineTouched(consts.cfg, old(View()), consts.cycles)
    {
      if currentJob.None? {
        return;
      }
      ghost var before := Sets();
      var tag := TagOf(consts.cfg, currentJob.value.address);
      hide TagOf, Find;
      for i := 0 to |localCache|
        invariant forall k :: 0 <= k < i ==> localCache[k].allLines == Touch(before[k], tag, consts.cycles)
        invariant forall k :: i <= k < |localCache| ==> localCache[k].allLines == before[k]
      {
        var has := localCache[i].HasLine(tag);
        if has {
          var _ := localCache[i].GetLine(tag);
        }
      }
      assert Sets() == TouchAll(before, tag, consts.cycles);
    }

    // -------------------------------------------------------------------
    // Processor requests
    // -------------------------------------------------------------------

    /** The fields every hit sets. */
    method Hit()
      requires Valid() && Serving(consts.cfg, View())
      modifies this, stats
      ensures Valid() && Both() == CacheModel.Hit(consts.cfg, old(View()), old(stats.View()), consts.cycles)
    {
      startServiceCycle := consts.cycles;
      jobCycleCost := consts.cfg.cacheHitCycleCost;
      busy := true;
      haveBusRequest := false;
      stats.numHit := stats.numHit + 1;
      assert Sets() == old(Sets());
    }

    method HandleWriteModified() returns (handled: bool)
      requires Valid() && Serving(consts.cfg, View())
      modifies this, localCache, stats
      ensures Valid() && handled == CacheModel.LineInState(consts.cfg, old(View()), Modified)
      ensures var c1 := Queried(consts.cfg, old(View()), Modified, consts.cycles);
              Both() == if handled then CacheModel.Hit(consts.cfg, c1, old(stats.View()), consts.cycles)
                        else Outcome(c1, old(stats.View()))
    {
      hide CacheModel.LineInState, Queried;
      handled := LineInState(Modified);
      if handled {
        Hit();
      }
    }

    method HandleWriteExclusive() returns (handled: bool)
      requires Valid() && Serving(consts.cfg, View())
      modifies this, localCache, stats
      ensures Valid() && handled == CacheModel.LineInState(consts.cfg, old(View()), Exclusive)
      ensures var c1 := Queried(consts.cfg, old(View()), Exclusive, consts.cycles);
              Both() == if handled then ExclusiveHit(consts.cfg, c1, old(stats.View()), consts.cycles)
                        else Outcome(c1, old(stats.View()))
    {
      hide CacheModel.LineInState, Queried;
      handled := LineInState(Exclusive);
      if handled {
        Hit();
        stats.numExclusiveToModifiedTransitions := stats.numExclusiveToModifiedTransitions + 1;
        SetLineState(Modified);
      }
    }

    /** The memory cost of a miss; a foreseen dirty eviction doubles it and counts a flush. */
    method GetTotalMemoryCost(k: nat, tag: nat) returns (cost: nat)
      requires OwnsSets() && k < |localCache|
      modifies stats
      ensures cost == TotalMemoryCost(consts.cfg, localCache[k].allLines, tag)
      ensures stats.View() == old(stats.View()).(
                numFlush := old(stats.numFlush) + if DirtyEviction(consts.cfg, localCache[k].allLines, tag) then 1 else 0)
      ensures var u, mem := localCache[k].allLines, consts.cfg.memoryResponseCycleCost;
              var dirty := |u| == consts.cfg.numLinesInSet && forall n :: 0 <= n < |u| ==> u[n].state == Modified && u[n].tag != tag;
              |u| <= consts.cfg.numLinesInSet ==>
                && cost == (if dirty then 2 * mem else mem)
                && stats.numFlush == old(stats.numFlush) + One(dirty)
    {
      if |localCache[k].allLines| <= consts.cfg.numLinesInSet {
        DirtyEvictionIs(consts.cfg, localCache[k].allLines, tag);
      }
      hide IsFull, VictimIsModified, LineSets.HasLine;
      cost := consts.cfg.memoryResponseCycleCost;
      var has := localCache[k].HasLine(tag);
      if !has {
        var full := localCache[k].IsFull();
        if full {
          var dirty := localCache[k].EvictLineModified();
          if dirty {
            cost := cost * 2;
            stats.numFlush := stats.numFlush + 1;
          }
        }
      }
    }

    method HandleWriteSharedInvalid()
      requires Valid() && Serving(consts.cfg, View())
      modifies this, stats
      ensures Valid() && Both() == WriteSharedInvalid(consts.cfg, old(View()), old(stats.View()))
    {
      hide TotalMemoryCost, DirtyEviction, TagOf, SetOf;
      haveBusRequest := true;
      busy := true;
      var k, tag := SetOf(consts.cfg, currentJob.value.address), TagOf(consts.cfg, currentJob.value.address);
      var memoryCost := GetTotalMemoryCost(k, tag);
      stats.numMiss := stats.numMiss + 1;
      busRequest := Some(Request(BusRdX, k, tag, memoryCost, currentJob.value.address));
      jobCycleCost := memoryCost;
      assert Sets() == old(Sets());
    }

    method HandleWriteRequestMSI()
      requires Valid() && Serving(consts.cfg, View())
      modifies this, localCache, stats
      ensures Valid() && Both() == WriteMSI(consts.cfg, old(View()), old(stats.View()), consts.cycles)
    {
      hide CacheModel.LineInState, Scanned, CacheModel.Hit, WriteSharedInvalid;
      var handled := HandleWriteModified();
      if !handled {
        HandleWriteSharedInvalid();
      }
    }

    method HandleWriteRequestMESI()
      requires Valid() && Serving(consts.cfg, View())
      modifies this, localCache, stats
      ensures Valid() && Both() == WriteMESI(consts.cfg, old(View()), old(stats.View()), consts.cycles)
    {
      hide CacheModel.LineInState, Scanned, CacheModel.Hit, ExclusiveHit, WriteSharedInvalid;
      var handled := HandleWriteModified();
      if !handled {
        handled := HandleWriteExclusive();
        if !handled {
          HandleWriteSharedInvalid();
        }
      }
    }

    /** An owned line: marked modified now, while its upgrade goes to the bus as a hit. */
    method HandleWriteOwned()
      requires Valid() && Serving(consts.cfg, View())
      modifies this, localCache, stats
      ensures Valid() && Both() == OwnedUpgrade(consts.cfg, old(View()), old(stats.View()), consts.cycles)
    {
      hide TagOf, SetOf, AssignAll;
      haveBusRequest := true;
      busy := true;
      var k, tag := SetOf(consts.cfg, currentJob.value.address), TagOf(consts.cfg, currentJob.value.address);
      var memoryCost := consts.cfg.cacheHitCycleCost;
      stats.numHit := stats.numHit + 1;
      busRequest := Some(Request(BusRdX, k, tag, memoryCost, currentJob.value.address));
      jobCycleCost := consts.cfg.cacheHitCycleCost;
      assert Sets() == old(Sets());
      SetLineState(Modified);
    }

    method HandleWriteUnsharedMOESI()
      requires Valid() && Serving(consts.cfg, View())
      modifies this, localCache, stats
      ensures Valid() && Both() == WriteUnshared(consts.cfg, old(View()), old(stats.View()), consts.cycles)
    {
      hide TagInState, Scanned, CacheModel.Hit, ExclusiveHit, OwnedUpgrade, WriteSharedInvalid, TagOf;
      QueryTwice(consts.cfg, View(), Exclusive, consts.cycles);
      var found := LineInState(Exclusive);
      if found {
        var _ := HandleWriteExclusive();
        return;
      }
      QueryTwice(consts.cfg, View(), Modified, consts.cycles);
      found := LineInState(Modified);
      if found {
        var _ := HandleWriteModified();
        return;
      }
      found := LineInState(Owned);
      if found {
        HandleWriteOwned();
      } else {
        HandleWriteSharedInvalid();
      }
    }

    method HandleWriteRequestMOESI()
      requires Valid() && Serving(consts.cfg, View())
      modifies this, localCache, stats
      ensures Valid() && Both() == WriteMOESI(consts.cfg, old(View()), old(stats.View()), consts.cycles)
    {
      hide CacheModel.LineInState, Scanned, WriteUnshared, WriteSharedInvalid;
      var found := LineInState(Invalid);
      if !found {
        found := LineInState(Shared);
      }
      if found {
        HandleWriteSharedInvalid();
      } else {
        HandleWriteUnsharedMOESI();
      }
    }

    method HandleReadHit() returns (handled: bool)
      requires Valid() && Serving(consts.cfg, View())
      modifies this, localCache, stats
      ensures Valid() && ReadHitOrNot(consts.cfg, old(View()), old(stats.View()), consts.cycles, handled, Both())
    {
      hide CacheModel.LineInState, Scanned, CacheModel.Hit;
      handled := LineInState(Modified);
      if !handled {
        handled := LineInState(Shared);
      }
      if !handled {
        handled := LineInState(Exclusive);
      }
      if !handled {
        handled := LineInState(Owned);
      }
      if handled {
        Hit();
      }
    }

    method HandleReadMiss()
      requires Valid() && Serving(consts.cfg, View())
      modifies this, stats
      ensures Valid() && Both() == ReadMiss(consts.cfg, old(View()), old(stats.View()))
    {
      hide TagOf, SetOf;
      haveBusRequest := true;
      busy := true;
      var k, tag := SetOf(consts.cfg, currentJob.value.address), TagOf(consts.cfg, currentJob.value.address);
      busRequest := Some(Request(BusRd, k, tag, consts.cfg.memoryResponseCycleCost, currentJob.value.address));
      jobCycleCost := consts.cfg.memoryResponseCycleCost;
      stats.numMiss := stats.numMiss + 1;
      assert Sets() == old(Sets());
    }

    method HandleReadRequest()
      requires Valid() && Serving(consts.cfg, View())
      modifies this, localCache, stats
      ensures Valid() && Both() == Read(consts.cfg, old(View()), old(stats.View()), consts.cycles)
    {
      hide CacheModel.LineInState, Scanned, CacheModel.Hit, ReadMiss;
      var handled := HandleReadHit();
      if !handled {
        HandleReadMiss();
      }
    }

    /** Take the next pending job, if idle, and decide it. */
    method HandleRequest()
      requires Valid() && !busRequestBeingServiced
      modifies this, localCache, stats
      ensures Valid()
      ensures Both() == CacheModel.HandleRequest(consts.cfg, old(View()), old(stats.View()), consts.cycles)
    {
      hide WriteMSI, WriteMESI, WriteMOESI, Read;
      if !busy && |pendingJobs| > 0 {
        currentJob := Some(pendingJobs[0]);
        pendingJobs := pendingJobs[1..];
        assert Sets() == old(Sets());
        if currentJob.value.IsWrite() {
          match consts.cfg.protocol
          case MSI => HandleWriteRequestMSI();
          case MESI => HandleWriteRequestMESI();
          case MOESI => HandleWriteRequestMOESI();
        } else if currentJob.value.IsRead() {
          HandleReadRequest();
        }
      } else {
        assert Sets() == old(Sets());
      }
    }

    method Tick()
      requires Valid()
      modifies this, localCache, stats
      ensures Valid()
      ensures Both() == CacheModel.Tick(consts.cfg, old(View()), old(stats.View()), consts.cycles)
    {
      hide CacheModel.HandleRequest, CurrentJobLineTouched;
      if busRequestBeingServiced {
        return;
      }
      if startServiceCycle + jobCycleCost <= consts.cycles {
        UpdateCurrentJobLineCycle();
        busy := false;
      }
      if !busy && |pendingJobs| != 0 {
        HandleRequest();
      }
    }

    // -------------------------------------------------------------------
    // The bus's side
    // -------------------------------------------------------------------

    /** The cache is granted the bus. */
    method GetBusRequest() returns (request: Option<Request>)
      requires Valid() && haveBusRequest
      modifies this
      ensures Valid() && request == busRequest
      ensures View() == old(View()).(startServiceCycle := consts.cycles, busRequestBeingServiced := true)
    {
      startServiceCycle := consts.cycles;
      busRequestBeingServiced := true;
      assert Sets() == old(Sets());
      return busRequest;
    }

    method UpdateEndCycleTime(extraCycleCost: nat)
      requires Valid()
      modifies this`jobCycleCost
      ensures Valid() && View() == old(View()).(jobCycleCost := old(jobCycleCost) + extraCycleCost)
    {
      jobCycleCost := jobCycleCost + extraCycleCost;
      assert Sets() == old(Sets());
    }

    method NewEndCycleTime(decrease: nat)
      requires Valid()
      modifies this`jobCycleCost
      ensures Valid() && View() == old(View()).(jobCycleCost := decrease)
    {
      jobCycleCost := decrease;
      assert Sets() == old(Sets());
    }

    method HandleSnoopMESI(set0: CacheSet, i: nat, command: Command) returns (result: SnoopResult)
      requires i < |set0.allLines|
      modifies set0, stats
      ensures |set0.allLines| == old(|set0.allLines|) && set0.allLines == old(set0.allLines)[i := set0.allLines[i]]
      ensures Handled(MESI, command, old(set0.allLines[i]), set0.allLines[i], old(stats.View()), stats.View(), result)
      ensures var st, st' := old(set0.allLines[i].state), set0.allLines[i].state;
              && (command == BusRdX && st in {Modified, Exclusive, Shared} ==> st' == Invalid)
              && (command == BusRd && st in {Modified, Exclusive, Shared} ==> st' == Shared)
              && (st in {Invalid, Owned} ==> st' == st)
              && (result == SHARED <==> st in {Shared, Exclusive})
              && (result == FLUSH_MODIFIED_TO_SHARED <==> st == Modified && command == BusRd)
              && (result == FLUSH_MODIFIED_TO_INVALID <==> st == Modified && command == BusRdX)
              && (result == NONE <==> st in {Invalid, Owned})
      ensures stats.View() == old(stats.View()).(numFlush := old(stats.numFlush) + One(old(set0.allLines[i].state) == Modified))
    {
      var st := set0.allLines[i].state;
      match command
      case BusRd =>
        if st == Shared {
          result := SHARED;
        } else if st == Modified {
          stats.numFlush := stats.numFlush + 1;
          set0.SetState(i, Shared);
          result := FLUSH_MODIFIED_TO_SHARED;
        } else if st == Exclusive {
          set0.SetState(i, Shared);
          result := SHARED;
        } else {
          result := NONE;
        }
      case BusRdX =>
        if st == Shared || st == Exclusive {
          set0.SetState(i, Invalid);
          result := SHARED;
        } else if st == Modified {
          stats.numFlush := stats.numFlush + 1;
          set0.SetState(i, Invalid);
          result := FLUSH_MODIFIED_TO_INVALID;
        } else {
          result := NONE;
        }
    }

    method HandleSnoopMSI(set0: CacheSet, i: nat, command: Command) returns (result: SnoopResult)
      requires i < |set0.allLines|
      modifies set0, stats
      ensures |set0.allLines| == old(|set0.allLines|) && set0.allLines == old(set0.allLines)[i := set0.allLines[i]]
      ensures Handled(MSI, command, old(set0.allLines[i]), set0.allLines[i], old(stats.View()), stats.View(), result)
      ensures var st, st' := old(set0.allLines[i].state), set0.allLines[i].state;
              && (command == BusRdX && st in {Modified, Shared} ==> st' == Invalid)
              && (command == BusRd && st in {Modified, Shared} ==> st' == Shared)
              && (st !in {Modified, Shared} ==> st' == st)
              && (result == SHARED <==> st == Shared)
              && (result == FLUSH_MODIFIED_TO_SHARED <==> st == Modified && command == BusRd)
              && (result == FLUSH_MODIFIED_TO_INVALID <==> st == Modified && command == BusRdX)
              && (result == NONE <==> st !in {Modified, Shared})
      ensures stats.View() == old(stats.View()).(numFlush := old(stats.numFlush) + One(old(set0.allLines[i].state) == Modified))
    {
      var st := set0.allLines[i].state;
      match command
      case BusRd =>
        if st == Shared {
          result := SHARED;
        } else if st == Modified {
          stats.numFlush := stats.numFlush + 1;
          set0.SetState(i, Shared);
          result := FLUSH_MODIFIED_TO_SHARED;
        } else {
          result := NONE;
        }
      case BusRdX =>
        if st == Shared {
          set0.SetState(i, Invalid);
          result := SHARED;
        } else if st == Modified {
          stats.numFlush := stats.numFlush + 1;
          set0.SetState(i, Invalid);
          result := FLUSH_MODIFIED_TO_INVALID;
        } else {
          result := NONE;
        }
    }

    method HandleSnoopMOESI(set0: CacheSet, i: nat, command: Command) returns (result: SnoopResult)
      requires i < |set0.allLines|
      modifies set0, stats
      ensures |set0.allLines| == old(|set0.allLines|) && set0.allLines == old(set0.allLines)[i := set0.allLines[i]]
      ensures Handled(MOESI, command, old(set0.allLines[i]), set0.allLines[i], old(stats.View()), stats.View(), result)
      ensures var st, st' := old(set0.allLines[i].state), set0.allLines[i].state;
              && (command == BusRdX ==> st' == Invalid)
              && (command == BusRd && st in {Modified, Owned} ==> st' == Owned)
              && (command == BusRd && st in {Exclusive, Shared} ==> st' == Shared)
              && (command == BusRd && st == Invalid ==> st' == Invalid)
              && (result == MODIFIED <==> st == Modified)
              && (result == OWNED <==> st == Owned)
              && (result == EXCLUSIVE <==> st == Exclusive)
              && (result == SHARED <==> st == Shared && command == BusRd)
              && (result == NONE <==> st == Invalid || (st == Shared && command == BusRdX))
      ensures stats.View() == old(stats.View()).(
                numCacheShare := old(stats.numCacheShare) + One(old(set0.allLines[i].state) in {Modified, Owned, Exclusive}))
    {
      var st := set0.allLines[i].state;
      result := NONE;
      match command
      case BusRd =>
        match st {
          case Owned =>
            result := OWNED;
            stats.numCacheShare := stats.numCacheShare + 1;
          case Modified =>
            set0.SetState(i, Owned);
            stats.numCacheShare := stats.numCacheShare + 1;
            result := MODIFIED;
          case Shared =>
            result := SHARED;
          case Exclusive =>
            result := EXCLUSIVE;
            set0.SetState(i, Shared);
            stats.numCacheShare := stats.numCacheShare + 1;
          case Invalid =>
        }
      case BusRdX =>
        match st {
          case Owned =>
            result := OWNED;
            stats.numCacheShare := stats.numCacheShare + 1;
            set0.SetState(i, Invalid);
          case Modified =>
            result := MODIFIED;
            stats.numCacheShare := stats.numCacheShare + 1;
            set0.SetState(i, Invalid);
          case Exclusive =>
            result := EXCLUSIVE;
            stats.numCacheShare := stats.numCacheShare + 1;
            set0.SetState(i, Invalid);
          case Shared =>
            set0.SetState(i, Invalid);
          case Invalid =>
        }
    }

    /** The handler for the line found, by protocol. */
    method HandleSnoop(set0: CacheSet, i: nat, command: Command) returns (result: SnoopResult)
      requires i < |set0.allLines|
      modifies set0, stats
      ensures |set0.allLines| == old(|set0.allLines|) && set0.allLines == old(set0.allLines)[i := set0.allLines[i]]
      ensures Handled(consts.cfg.protocol, command, old(set0.allLines[i]), set0.allLines[i], old(stats.View()), stats.View(), result)
    {
      match consts.cfg.protocol
      case MESI => result := HandleSnoopMESI(set0, i, command);
      case MSI => result := HandleSnoopMSI(set0, i, command);
      case MOESI => result := HandleSnoopMOESI(set0, i, command);
    }

    method SnoopBusRequest(request: Request) returns (result: SnoopResult)
      requires Valid() && request.lineSet < |localCache|
      modifies localCache[request.lineSet], stats
      ensures Valid()
      ensures SnoopOutcome(View(), stats.View(), result) == Snoop(consts.cfg, old(View()), old(stats.View()), request, consts.cycles)
    {
      var set0 := localCache[request.lineSet];
      ghost var before := set0.allLines;
      result := NONE;
      var has := set0.HasLine(request.lineTag);
      if has {
        var line := set0.GetLine(request.lineTag);
        result := HandleSnoop(set0, line.value, request.command);
        FoundAndHandled(consts.cfg.protocol, request, before, set0.allLines, consts.cycles, old(stats.View()), stats.View(), result);
      } else {
        NotFound(consts.cfg.protocol, request, before, consts.cycles, stats.View());
      }
      hide Assign, SnoopedState, SnoopAnswer, SnoopStats, Handled, LineSets.HasLine, StateIn;
      assert Sets() == old(Sets())[request.lineSet := set0.allLines];
    }

    // -------------------------------------------------------------------
    // Completion
    // -------------------------------------------------------------------

    /** Make room if the set is full of modified lines, then install the job's line if it is missing. */
    method Install(set0: CacheSet, job: Job)
      requires set0.consts == consts && consts.cfg.Valid()
      modifies set0, stats
      ensures set0.allLines == Installed(consts.cfg, old(set0.allLines), job)
      ensures stats.View() == old(stats.View()).(
                numEvict := old(stats.numEvict) + One(NeedToEvict(consts.cfg, old(set0.allLines), TagOf(consts.cfg, job.address))))
    {
      hide LineSets.HasLine, LineSets.AddLine, Evict, TagOf, SetOf;
      var k, tag := SetOf(consts.cfg, job.address), TagOf(consts.cfg, job.address);
      var full := set0.IsFull();
      var has := set0.HasLine(tag);
      if full && !has {
        set0.EvictLRULine();
        stats.numEvict := stats.numEvict + 1;
      }
      has := set0.HasLine(tag);
      if !has {
        set0.AddLine(Line(job.address, k, tag, Invalid, 0));
      }
    }

    /** The final state of the line, and where its data is counted to have come from. */
    method Settle(set0: CacheSet, i: nat, job: Job, isShared: bool)
      requires i < |set0.allLines|
      modifies set0, stats
      ensures var line := old(set0.allLines[i]);
              && set0.allLines == old(set0.allLines)[i := line.(state := DoneState(consts.cfg.protocol, job, isShared, line.state))]
              && stats.View() == DoneStats(consts.cfg.protocol, job, isShared, line.state, old(stats.View()))
      ensures var p, st, st' := consts.cfg.protocol, old(set0.allLines[i].state), set0.allLines[i].state;
              && (job.IsWrite() ==> st' == Modified)
              && (job.IsRead() ==> st' == if p != MSI && !isShared then Exclusive else Shared)
              && (!job.IsRead() && !job.IsWrite() ==> st' == st)
      ensures var p, st := consts.cfg.protocol, old(set0.allLines[i].state);
              var access := job.IsRead() || job.IsWrite();
              stats.View() == old(stats.View()).(
                numCacheShare := old(stats.numCacheShare) + One(p == MESI && isShared && access),
                numMainMemoryUses := old(stats.numMainMemoryUses)
                  + One((p == MSI && access)
                        || (p == MESI && !isShared && job.IsRead())
                        || (p == MOESI && !isShared && (job.IsRead() || (job.IsWrite() && st != Owned)))))
    {
      var p := consts.cfg.protocol;
      if job.IsWrite() {
        if isShared && p == MOESI {
          set0.SetState(i, Modified);
        } else if p == MOESI && set0.allLines[i].state != Owned {
          stats.numMainMemoryUses := stats.numMainMemoryUses + 1;
          set0.SetState(i, Modified);
        } else if isShared && p == MESI {
          stats.numCacheShare := stats.numCacheShare + 1;
        } else if p == MSI {
          stats.numMainMemoryUses := stats.numMainMemoryUses + 1;
        }
        set0.SetState(i, Modified);
      }
      if job.IsRead() {
        match p
        case MOESI =>
          if isShared {
            set0.SetState(i, Shared);
          } else {
            set0.SetState(i, Exclusive);
            stats.numMainMemoryUses := stats.numMainMemoryUses + 1;
          }
        case MESI =>
          if !isShared {
            set0.SetState(i, Exclusive);
            stats.numMainMemoryUses := stats.numMainMemoryUses + 1;
          } else {
            set0.SetState(i, Shared);
            stats.numCacheShare := stats.numCacheShare + 1;
          }
        case MSI =>
          stats.numMainMemoryUses := stats.numMainMemoryUses + 1;
          set0.SetState(i, Shared);
      }
    }

    /** Everything completion does to the job's set. */
    method Finish(set0: CacheSet, job: Job, isShared: bool)
      requires set0.consts == consts && consts.cfg.Valid()
      modifies set0, stats
      ensures set0.allLines == DoneSet(consts.cfg, old(set0.allLines), job, isShared, consts.cycles)
      ensures var tag, evicted := TagOf(consts.cfg, job.address), One(NeedToEvict(consts.cfg, old(set0.allLines), TagOf(consts.cfg, job.address)));
              stats.View() == DoneStats(consts.cfg.protocol, job, isShared, StateIn(Installed(consts.cfg, old(set0.allLines), job), tag),
                                        old(stats.View()).(numEvict := old(stats.numEvict) + evicted))
    {
      ghost var before := set0.allLines;
      Install(set0, job);
      ghost var installed := set0.allLines;
      Coherence.InstalledHasLine(consts.cfg, before, job);
      hide *;
      var line := set0.GetLine(TagOf(consts.cfg, job.address));
      Settle(set0, line.value, job, isShared);
      SettledIs(consts.cfg, before, installed, set0.allLines, job, isShared, consts.cycles);
    }

    method BusJobDone(isShared: bool)
      requires Valid() && currentJob.Some?
      modifies this, localCache, stats
      ensures Valid()
      ensures Both() == CacheModel.BusJobDone(consts.cfg, old(View()), old(stats.View()), isShared, consts.cycles)
    {
      hide SetOf, TagOf, DoneSet, Installed, NeedToEvict, DoneStats;
      var k := SetOf(consts.cfg, currentJob.value.address);
      haveBusRequest := false;
      busy := false;
      busRequestBeingServiced := false;
      Finish(localCache[k], currentJob.value, isShared);
      assert Sets() == old(Sets())[k := localCache[k].allLines];
    }
  }
}
