/** Which line a job replaces, told by the timestamps before it; and MESI's simulation of MSI
    where sets overflow but both machines replace the same lines: with one cache, which has
    accessed its lines in one order, or with one line a set. */
module Replacement {
  import opened Constants
  import opened LineSets
  import opened CacheModel
  import opened SystemModel
  import opened Coherence
  import opened Safety
  import opened ServiceTime
  import opened JobRunner
  import opened CycleLoop
  import opened JobEffects
  import opened Counts
  import opened Simulation
  import opened Exactness
  import opened MoesiExactness
  import opened Recency

  // ---------------------------------------------------------------------
  // Timestamps after a whole job
  // ---------------------------------------------------------------------

  /** The tag of the cache's last job, which an idle cache refreshes every cycle. */
  predicate IsCurrent(cfg: Config, c: CacheState, tag: nat)
    requires cfg.Valid()
  {
    c.currentJob.Some? && tag == TagOf(cfg, c.currentJob.value.address)
  }

  function StampAt(c: CacheState, k: nat, tag: nat): nat
    requires k < |c.sets|
  {
    Stamp(c.sets[k], tag)
  }

  /** If the line is there, it has this timestamp. */
  predicate Stamped(c: CacheState, k: nat, tag: nat, stamp: nat)
    requires k < |c.sets|
  {
    Has(c, k, tag) ==> StampAt(c, k, tag) == stamp
  }

  lemma RefreshedMoves(cfg: Config, c: CacheState, cycle: nat, k: nat, t: nat)
    requires cfg.Valid() && k < |c.sets|
    ensures var r := Refreshed(cfg, c, cycle);
            |r.sets| == |c.sets| && r.currentJob == c.currentJob && Moves(c.sets[k], r.sets[k], t, IsCurrent(cfg, c, t), cycle)
  {
    RefreshMoves(cfg, c, cycle, k, t);
    TouchKeepsFlags(cfg, c, cycle);
    hide CurrentJobLineTouched, Moves, TagOf, SameStates;
  }

  /** A cache that is not the job's: its own last line is refreshed to the end, and the
      snooped line was looked up at the start. */
  ghost predicate OtherStamps(cfg: Config, s: System, job: Job, j: nat, e: System, k: nat, t: nat)
    requires cfg.Valid() && CachesShaped(cfg, s) && job.threadId < |s.caches|
    requires j < |s.caches| && j < |e.caches| && k < |s.caches[j].sets| && k < |e.caches[j].sets|
  {
    var c, c' := s.caches[j], e.caches[j];
    var snooped := ChoiceFor(cfg, s.caches[job.threadId].sets, job).UsesBus() && k == SetOf(cfg, job.address) && t == TagOf(cfg, job.address);
    && c'.currentJob == c.currentJob
    && Stamped(c', k, t, if IsCurrent(cfg, c, t) then e.cycle else if snooped then s.cycle + 1 else StampAt(c, k, t))
  }

  lemma StartedOther(cfg: Config, s: System, job: Job, j: nat, k: nat, t: nat)
    requires cfg.Valid() && Quiescent(cfg, s) && job.threadId < |s.caches| && j < |s.caches| && j != job.threadId && k < cfg.NumSets()
    ensures var g, c := Started(cfg, s, job), s.caches[j];
            var snooped := ChoiceFor(cfg, s.caches[job.threadId].sets, job).UsesBus() && k == SetOf(cfg, job.address) && t == TagOf(cfg, job.address);
            && |g.caches| == |s.caches| && |c.sets| == |g.caches[j].sets| == cfg.NumSets() && g.caches[j].currentJob == c.currentJob
            && g.cycle == s.cycle + 1
            && Moves(c.sets[k], g.caches[j].sets[k], t, IsCurrent(cfg, c, t) || snooped, s.cycle + 1)
  {
    var b, g, c, own := Begun(cfg, s, job), Started(cfg, s, job), s.caches[j], job.threadId;
    assert Shaped(cfg, c);
    TakenChoice(cfg, s, job);
    BegunShape(cfg, s, job);
    StartedShape(cfg, s, job);
    RefreshedMoves(cfg, c, s.cycle + 1, k, t);
    hide Taken, Moves, SetOf, TagOf, ChoiceFor, IsCurrent, SameStates, Marked, Upgrades, Refreshed;
    if b.caches[own].haveBusRequest {
      var r := b.caches[own].busRequest.value;
      StartSnoops(cfg, s, job);
      assert Shaped(cfg, b.caches[j]);
      SnoopMoves(cfg, b.caches[j], r, b.cycle, k, t);
      hide Snooped, Begun, Started, AnswerOf, Shares, FirstRequester;
      MovesOn(c.sets[k], b.caches[j].sets[k], g.caches[j].sets[k], t, IsCurrent(cfg, c, t), k == r.lineSet && t == r.lineTag, s.cycle + 1);
    } else {
      assert g.caches[j] == b.caches[j];
    }
  }

  lemma MovesTwice(a: LineSet, b: LineSet, c: LineSet, t: nat, first: bool, mid: nat, second: bool, end: nat)
    requires Moves(a, b, t, first, mid) && Moves(b, c, t, second, end) && HasLine(c, t)
    ensures Stamp(c, t) == if second then end else if first then mid else Stamp(a, t)
  {
    hide Stamp, HasLine;
  }

  lemma OtherStampsAre(cfg: Config, s: System, job: Job, j: nat, e: System, k: nat, t: nat, snooped: bool)
    requires cfg.Valid() && CachesShaped(cfg, s) && job.threadId < |s.caches|
    requires j < |s.caches| && j < |e.caches| && k < |s.caches[j].sets| && k < |e.caches[j].sets|
    requires e.caches[j].currentJob == s.caches[j].currentJob
    requires snooped == (ChoiceFor(cfg, s.caches[job.threadId].sets, job).UsesBus() && k == SetOf(cfg, job.address) && t == TagOf(cfg, job.address))
    requires HasLine(e.caches[j].sets[k], t) ==>
               Stamp(e.caches[j].sets[k], t) == if IsCurrent(cfg, s.caches[j], t) then e.cycle
                                                else if snooped then s.cycle + 1 else Stamp(s.caches[j].sets[k], t)
    ensures OtherStamps(cfg, s, job, j, e, k, t)
  {
    hide ChoiceFor, SetOf, TagOf, Stamp, HasLine, IsCurrent;
  }

  lemma RefreshedAgain(cfg: Config, a: LineSet, c: CacheState, k: nat, t: nat, snooped: bool, mid: nat, n: nat, end: nat)
    requires cfg.Valid() && k < |c.sets| && Moves(a, c.sets[k], t, IsCurrent(cfg, c, t) || snooped, mid) && (n == 0 ==> mid == end)
    ensures var r := if n == 0 then c else Refreshed(cfg, c, end);
            && |r.sets| == |c.sets| && r.currentJob == c.currentJob
            && (HasLine(r.sets[k], t) ==>
                  Stamp(r.sets[k], t) == if IsCurrent(cfg, c, t) then end else if snooped then mid else Stamp(a, t))
  {
    hide *;
    StartMoves(c.sets[k], t, end);
    RefreshedMoves(cfg, c, end, k, t);
    var r := if n == 0 then c else Refreshed(cfg, c, end);
    if HasLine(r.sets[k], t) {
      MovesTwice(a, c.sets[k], r.sets[k], t, IsCurrent(cfg, c, t) || snooped, mid, n > 0 && IsCurrent(cfg, c, t), end);
    }
  }

  lemma SameJobSameCurrent(cfg: Config, c: CacheState, c': CacheState, t: nat)
    requires cfg.Valid() && c.currentJob == c'.currentJob
    ensures IsCurrent(cfg, c, t) == IsCurrent(cfg, c', t)
  {
  }

  lemma QuiescentShape(cfg: Config, s: System)
    requires cfg.Valid() && Quiescent(cfg, s)
    ensures CachesShaped(cfg, s) && |s.caches| == cfg.numProcessors
  {
  }

  lemma OtherCacheStamps(cfg: Config, s: System, job: Job, j: nat, k: nat, t: nat)
    requires cfg.Valid() && Quiescent(cfg, s) && job.threadId < |s.caches| && j < |s.caches| && j != job.threadId && k < cfg.NumSets()
    requires RunJob(cfg, s, job).cycle == s.cycle + ServiceCost(cfg, s, job) + 1
    ensures |RunJob(cfg, s, job).caches| == |s.caches| && |RunJob(cfg, s, job).caches[j].sets| == |s.caches[j].sets| == cfg.NumSets()
    ensures OtherStamps(cfg, s, job, j, RunJob(cfg, s, job), k, t)
  {
    hide *;
    QuiescentShape(cfg, s);
    var g, n, e, c := Started(cfg, s, job), ServiceCost(cfg, s, job), RunJob(cfg, s, job), s.caches[j];
    StartedOther(cfg, s, job, j, k, t);
    RunJobCaches(cfg, s, job, j);
    var snooped := ChoiceFor(cfg, s.caches[job.threadId].sets, job).UsesBus() && k == SetOf(cfg, job.address) && t == TagOf(cfg, job.address);
    SameJobSameCurrent(cfg, c, g.caches[j], t);
    RefreshedAgain(cfg, c.sets[k], g.caches[j], k, t, snooped, s.cycle + 1, n, e.cycle);
    OtherStampsAre(cfg, s, job, j, e, k, t, snooped);
  }

  /** The job's cache: its line was accessed last, its previous job's line just before. */
  ghost predicate OwnStamps(cfg: Config, s: System, job: Job, e: System, k: nat, t: nat)
    requires cfg.Valid() && CachesShaped(cfg, s) && job.threadId < |s.caches| == |e.caches|
    requires k < |s.caches[job.threadId].sets| && k < |e.caches[job.threadId].sets|
  {
    var c, c' := s.caches[job.threadId], e.caches[job.threadId];
    && c'.currentJob == Some(job)
    && Stamped(c', k, t, if t == TagOf(cfg, job.address) && IsAccess(job) then e.cycle
                         else if IsCurrent(cfg, c, t) then s.cycle + 1 else StampAt(c, k, t))
  }

  /** The job's cache with the job before it. */
  function Receiving(cfg: Config, s: System, job: Job): CacheState
    requires cfg.Valid() && job.threadId < |s.caches|
  {
    Refreshed(cfg, s.caches[job.threadId], s.cycle + 1).(pendingJobs := [job])
  }

  lemma RefreshedFlags(cfg: Config, c: CacheState, cycle: nat)
    requires cfg.Valid() && Shaped(cfg, c)
    ensures var r := Refreshed(cfg, c, cycle);
            Shaped(cfg, r) && !r.busy && r.busRequestBeingServiced == c.busRequestBeingServiced && r.haveBusRequest == c.haveBusRequest
  {
    RefreshedEffect(cfg, c, cycle);
    hide Refreshed, SameStates;
  }

  lemma ReceivingIs(cfg: Config, s: System, job: Job, k: nat, t: nat)
    requires cfg.Valid() && Quiescent(cfg, s) && job.threadId < |s.caches| && k < cfg.NumSets()
    ensures var c, c1 := s.caches[job.threadId], Receiving(cfg, s, job);
            && |c.sets| == |c1.sets| == cfg.NumSets() && Shaped(cfg, c1) && !c1.busRequestBeingServiced && !c1.busy && c1.pendingJobs == [job]
            && Taken(cfg, s, job) == HandleRequest(cfg, c1, s.stats, s.cycle + 1)
            && Moves(c.sets[k], c1.sets[k], t, IsCurrent(cfg, c, t), s.cycle + 1)
  {
    hide Moves, HandleRequest, Refreshed, IsCurrent;
    var c := s.caches[job.threadId];
    assert Idle(cfg, c, s.cycle);
    RefreshedFlags(cfg, c, s.cycle + 1);
    RefreshedMoves(cfg, c, s.cycle + 1, k, t);
  }

  /** The job's cache once the request is decided. */
  lemma TakenMoves(cfg: Config, s: System, job: Job, k: nat, t: nat)
    requires cfg.Valid() && Quiescent(cfg, s) && job.threadId < |s.caches| && k < cfg.NumSets()
    ensures var c, o := s.caches[job.threadId], Taken(cfg, s, job).cache;
            && |c.sets| == |o.sets| == cfg.NumSets()
            && (t != TagOf(cfg, job.address) || !IsAccess(job) ==> Moves(c.sets[k], o.sets[k], t, IsCurrent(cfg, c, t), s.cycle + 1))
  {
    hide *;
    var c, c1 := s.caches[job.threadId], Receiving(cfg, s, job);
    ReceivingIs(cfg, s, job, k, t);
    RequestMoves(cfg, c1, s.stats, s.cycle + 1, k, t);
    NamesOnlyItsTag(cfg, c1.sets, job, k, t);
    MovesOn(c.sets[k], c1.sets[k], Taken(cfg, s, job).cache.sets[k], t, IsCurrent(cfg, c, t),
            !c1.busy && |c1.pendingJobs| > 0 && RequestTouches(cfg, c1.sets, c1.pendingJobs[0], k, t), s.cycle + 1);
  }

  lemma NamesOnlyItsTag(cfg: Config, sets: seq<LineSet>, job: Job, k: nat, t: nat)
    requires cfg.Valid()
    ensures t != TagOf(cfg, job.address) || !IsAccess(job) ==> !RequestTouches(cfg, sets, job, k, t)
  {
  }

  /** The job's cache from its start to the end of the job. */
  ghost predicate OwnEnds(cfg: Config, s: System, job: Job, e: System)
    requires cfg.Valid() && Quiescent(cfg, s) && job.threadId < |s.caches|
  {
    var own := job.threadId;
    var o, g := Taken(cfg, s, job).cache, Started(cfg, s, job);
    && |g.caches| == |e.caches| == |s.caches|
    && Shaped(cfg, g.caches[own]) && g.caches[own].sets == o.sets && g.caches[own].currentJob == Some(job) && |o.sets| == cfg.NumSets()
    && if !IsAccess(job) then e.caches[own] == g.caches[own]
       else if g.bus.inUse then e.caches[own] == BusJobDone(cfg, g.caches[own], g.stats, g.bus.isShared, e.cycle).cache
       else e.caches[own] == Refreshed(cfg, g.caches[own], e.cycle)
  }

  lemma StartedAndTaken(cfg: Config, s: System, job: Job)
    requires cfg.Valid() && Quiescent(cfg, s) && job.threadId < |s.caches|
    ensures var o, g := Taken(cfg, s, job).cache, Started(cfg, s, job);
            && |g.caches| == |s.caches| && g.cycle == s.cycle + 1 && |o.sets| == cfg.NumSets()
            && g.caches[job.threadId].sets == o.sets && g.caches[job.threadId].currentJob == Some(job) && Shaped(cfg, g.caches[job.threadId])
  {
    TakenDecides(cfg, s, job);
    StartedShape(cfg, s, job);
    hide Taken, Idle;
  }

  lemma OwnEndsIs(cfg: Config, s: System, job: Job, e: System)
    requires cfg.Valid() && Quiescent(cfg, s) && job.threadId < |s.caches| == |e.caches|
    requires var own := job.threadId;
             var o, g := Taken(cfg, s, job).cache, Started(cfg, s, job);
             && |g.caches| == |s.caches|
             && Shaped(cfg, g.caches[own]) && g.caches[own].sets == o.sets && g.caches[own].currentJob == Some(job) && |o.sets| == cfg.NumSets()
             && if !IsAccess(job) then e.caches[own] == g.caches[own]
                else if g.bus.inUse then e.caches[own] == BusJobDone(cfg, g.caches[own], g.stats, g.bus.isShared, e.cycle).cache
                else e.caches[own] == Refreshed(cfg, g.caches[own], e.cycle)
    ensures OwnEnds(cfg, s, job, e)
  {
    hide Taken, Started, Shaped, BusJobDone, Refreshed, Quiescent;
  }

  lemma ClockAfterJob(cfg: Config, addresses: set<nat>, s: System, job: Job)
    requires cfg.Valid() && cfg.protocol != MOESI && Ready(false, cfg, addresses, s) && job.threadId < |s.caches| && job.address in addresses
    ensures Quiescent(cfg, s) && RunJob(cfg, s, job).cycle == s.cycle + ServiceCost(cfg, s, job) + 1
  {
    hide RunJob, ServiceCost, Coherent;
    RunJobIsReady(false, cfg, addresses, s, job);
  }

  lemma JobOwnEnds(cfg: Config, addresses: set<nat>, s: System, job: Job)
    requires cfg.Valid() && cfg.protocol != MOESI && Ready(false, cfg, addresses, s) && job.threadId < |s.caches|
    requires job.address in addresses
    ensures Quiescent(cfg, s) && OwnEnds(cfg, s, job, RunJob(cfg, s, job))
    ensures RunJob(cfg, s, job).cycle == s.cycle + ServiceCost(cfg, s, job) + 1
  {
    hide *;
    ReadyIsQuiescent(cfg, addresses, s);
    ClockAfterJob(cfg, addresses, s, job);
    var e := RunJob(cfg, s, job);
    AccessesTakeTime(cfg, s, job);
    StartedAndTaken(cfg, s, job);
    RunJobCaches(cfg, s, job, job.threadId);
    assert OwnEnds(cfg, s, job, e) by { OwnEndsIs(cfg, s, job, e); }
  }

  lemma StartedIsGood(cfg: Config, addresses: set<nat>, s: System, job: Job, k: nat)
    requires cfg.Valid() && Ready(false, cfg, addresses, s) && job.threadId < |s.caches| && job.address in addresses && k < cfg.NumSets()
    ensures Quiescent(cfg, s)
    ensures var g := Started(cfg, s, job);
            && job.threadId < |g.caches| && k < |g.caches[job.threadId].sets|
            && DistinctTags(g.caches[job.threadId].sets[k]) && |g.caches[job.threadId].sets[k]| <= cfg.numLinesInSet
  {
    RunJobIsCoherent(false, cfg, addresses, s, job);
    StartedServes(cfg, s, job);
    hide Started, Taken, RunJob, TagOf, SetOf, Quiescent;
    var g := Started(cfg, s, job);
    assert GoodCache(cfg, addresses, g.caches[job.threadId]);
    assert LinesFrom(cfg, addresses, k, g.caches[job.threadId].sets[k]);
  }

  lemma CompletionOfMoves(cfg: Config, c: CacheState, job: Job, stats: Stats, isShared: bool, cycle: nat, k: nat, t: nat)
    requires cfg.Valid() && c.currentJob == Some(job) && Shaped(cfg, c) && k < |c.sets| && (t == TagOf(cfg, job.address) ==> k == SetOf(cfg, job.address))
    requires DistinctTags(c.sets[k]) && |c.sets[k]| <= cfg.numLinesInSet
    ensures var r := BusJobDone(cfg, c, stats, isShared, cycle).cache;
            |r.sets| == |c.sets| && r.currentJob == c.currentJob && Moves(c.sets[k], r.sets[k], t, t == TagOf(cfg, job.address), cycle)
  {
    CompletionMoves(cfg, c, stats, isShared, cycle, k, t);
    DoneKeepsJob(cfg, c, stats, isShared, cycle);
    hide Moves, BusJobDone, TagOf, SetOf;
  }

  /** From the decision to the end of the job. */
  lemma EndMoves(cfg: Config, addresses: set<nat>, s: System, job: Job, k: nat, t: nat)
    requires cfg.Valid() && cfg.protocol != MOESI && Ready(false, cfg, addresses, s) && job.threadId < |s.caches|
    requires job.address in addresses && k < cfg.NumSets() && (t == TagOf(cfg, job.address) ==> k == SetOf(cfg, job.address))
    ensures Quiescent(cfg, s)
    ensures var o, e := Taken(cfg, s, job).cache, RunJob(cfg, s, job);
            && |e.caches| == |s.caches| && |o.sets| == |e.caches[job.threadId].sets| == cfg.NumSets()
            && e.caches[job.threadId].currentJob == Some(job)
            && e.cycle == s.cycle + ServiceCost(cfg, s, job) + 1
            && Moves(o.sets[k], e.caches[job.threadId].sets[k], t, IsAccess(job) && t == TagOf(cfg, job.address), e.cycle)
  {
    JobOwnEnds(cfg, addresses, s, job);
    StartedIsGood(cfg, addresses, s, job, k);
    var e := RunJob(cfg, s, job);
    hide Moves, Taken, Started, ServiceCost, RunJob, BusJobDone, Refreshed, Ready, Quiescent, TagOf, SetOf, DistinctTags, Shaped;
    var c := Started(cfg, s, job).caches[job.threadId];
    StartMoves(c.sets[k], t, e.cycle);
    CompletionOfMoves(cfg, c, job, Started(cfg, s, job).stats, Started(cfg, s, job).bus.isShared, e.cycle, k, t);
    RefreshedMoves(cfg, c, e.cycle, k, t);
  }

  lemma DoneKeepsJob(cfg: Config, c: CacheState, stats: Stats, isShared: bool, cycle: nat)
    requires cfg.Valid() && c.currentJob.Some? && Shaped(cfg, c)
    ensures BusJobDone(cfg, c, stats, isShared, cycle).cache.currentJob == c.currentJob
  {
  }

  lemma AccessesTakeTime(cfg: Config, s: System, job: Job)
    requires cfg.Valid() && Quiescent(cfg, s) && job.threadId < |s.caches|
    ensures ServiceCost(cfg, s, job) == 0 <==> !IsAccess(job)
    ensures Taken(cfg, s, job).cache.haveBusRequest ==> IsAccess(job)
  {
    TakenDecides(cfg, s, job);
    hide Taken, Started;
  }

  lemma OwnCacheStamps(cfg: Config, addresses: set<nat>, s: System, job: Job, k: nat, t: nat)
    requires cfg.Valid() && cfg.protocol != MOESI && Ready(false, cfg, addresses, s) && CachesShaped(cfg, s) && job.threadId < |s.caches|
    requires job.address in addresses && k < cfg.NumSets() && (t == TagOf(cfg, job.address) ==> k == SetOf(cfg, job.address))
    ensures var e := RunJob(cfg, s, job);
            && |e.caches| == |s.caches| && |s.caches[job.threadId].sets| == |e.caches[job.threadId].sets| == cfg.NumSets()
            && OwnStamps(cfg, s, job, e, k, t)
  {
    EndMoves(cfg, addresses, s, job, k, t);
    TakenMoves(cfg, s, job, k, t);
    var own, o, e := job.threadId, Taken(cfg, s, job).cache, RunJob(cfg, s, job);
    hide Moves, Taken, RunJob, ServiceCost, TagOf, SetOf, Shaped, Stamp, HasLine, Ready, Quiescent, IsCurrent;
    var first, second := IsCurrent(cfg, s.caches[own], t), IsAccess(job) && t == TagOf(cfg, job.address);
    if HasLine(e.caches[own].sets[k], t) {
      if second {
        MovesLast(o.sets[k], e.caches[own].sets[k], t, e.cycle);
      } else {
        MovesTwice(s.caches[own].sets[k], o.sets[k], e.caches[own].sets[k], t, first, s.cycle + 1, second, e.cycle);
      }
    }
  }

  lemma MovesLast(a: LineSet, b: LineSet, t: nat, cycle: nat)
    requires Moves(a, b, t, true, cycle) && HasLine(b, t)
    ensures Stamp(b, t) == cycle
  {
  }

  // ---------------------------------------------------------------------
  // Which line a job replaces
  // ---------------------------------------------------------------------

  /** No timestamp lies in the future. */
  ghost predicate NoFuture(cfg: Config, c: CacheState, now: nat) {
    |c.sets| == cfg.NumSets() && forall k, t {:trigger StampAt(c, k, t)} :: 0 <= k < |c.sets| && 0 <= t && Has(c, k, t) ==> StampAt(c, k, t) <= now
  }

  /** The line accessed longest ago, not counting the cache's last job. */
  ghost predicate Oldest(cfg: Config, c: CacheState, k: nat, v: nat)
    requires cfg.Valid() && k < |c.sets|
  {
    && Has(c, k, v)
    && forall u: nat {:trigger StampAt(c, k, u)} :: Has(c, k, u) && u != v ==>
         IsCurrent(cfg, c, u) || (!IsCurrent(cfg, c, v) && StampAt(c, k, v) <= StampAt(c, k, u))
  }

  lemma LruStamp(s: LineSet, t: nat)
    requires DistinctTags(s) && HasLine(s, t)
    ensures |s| > 0 && HasLine(s, s[Lru(s)].tag) && Stamp(s, s[Lru(s)].tag) <= Stamp(s, t)
  {
    StampOfLine(s, Lru(s));
  }

  lemma VictimIsLru(cfg: Config, s: System, job: Job, v: nat)
    requires cfg.Valid() && Quiescent(cfg, s) && job.threadId < |s.caches| && VictimOf(cfg, s, job) == Some(v)
    ensures var o, k := Taken(cfg, s, job).cache, SetOf(cfg, job.address);
            && k < |o.sets| && |o.sets[k]| > 0 && v == o.sets[k][Lru(o.sets[k])].tag
    ensures !Has(s.caches[job.threadId], SetOf(cfg, job.address), TagOf(cfg, job.address))
    ensures ChoiceFor(cfg, s.caches[job.threadId].sets, job).UsesBus()
  {
    TakenDecides(cfg, s, job);
    hide Taken, SetOf, TagOf, Lru, ChoiceFor;
  }

  lemma SameTagsWhenTaken(cfg: Config, s: System, job: Job, k: nat, t: nat)
    requires cfg.Valid() && Quiescent(cfg, s) && job.threadId < |s.caches| && k < cfg.NumSets()
    ensures var c, o := s.caches[job.threadId], Taken(cfg, s, job).cache;
            |c.sets| == |o.sets| == cfg.NumSets() && Has(o, k, t) == Has(c, k, t)
  {
    hide Taken, TagOf, ChoiceFor, Has, St;
    TakenView(cfg, s, job);
  }

  lemma TakenIsGood(cfg: Config, addresses: set<nat>, s: System, job: Job, k: nat)
    requires cfg.Valid() && Ready(false, cfg, addresses, s) && job.threadId < |s.caches| && k < cfg.NumSets()
    ensures Quiescent(cfg, s)
    ensures var o := Taken(cfg, s, job).cache; k < |o.sets| && DistinctTags(o.sets[k])
  {
    var c, o := s.caches[job.threadId], Taken(cfg, s, job).cache;
    assert GoodCache(cfg, addresses, c) && LinesFrom(cfg, addresses, k, c.sets[k]);
    assert DistinctTags(c.sets[k]);
    hide Taken, TagOf, ChoiceFor, Has, St, GoodCache, LinesFrom;
    TakenView(cfg, s, job);
    SameLinesSameSize(c.sets[k], o.sets[k]);
  }

  lemma VictimIsOldest(cfg: Config, addresses: set<nat>, s: System, job: Job, v: nat)
    requires cfg.Valid() && Ready(false, cfg, addresses, s) && Quiescent(cfg, s) && CachesShaped(cfg, s) && job.threadId < |s.caches|
    requires VictimOf(cfg, s, job) == Some(v) && NoFuture(cfg, s.caches[job.threadId], s.cycle)
    ensures Oldest(cfg, s.caches[job.threadId], SetOf(cfg, job.address), v) && v != TagOf(cfg, job.address)
  {
    var c, o, k := s.caches[job.threadId], Taken(cfg, s, job).cache, SetOf(cfg, job.address);
    VictimIsLru(cfg, s, job, v);
    TakenIsGood(cfg, addresses, s, job, k);
    LruStamp(o.sets[k], v) by { StampOfLine(o.sets[k], Lru(o.sets[k])); }
    SameTagsWhenTaken(cfg, s, job, k, v);
    TakenMoves(cfg, s, job, k, v);
    assert Has(c, k, v) && v != TagOf(cfg, job.address) && StampAt(c, k, v) <= s.cycle;
    hide Taken, TagOf, SetOf, ChoiceFor, Ready, Quiescent, Lru, IsCurrent, VictimOf, Shaped, Find;
    forall u: nat | Has(c, k, u) && u != v
      ensures IsCurrent(cfg, c, u) || (!IsCurrent(cfg, c, v) && StampAt(c, k, v) <= StampAt(c, k, u))
    {
      SameTagsWhenTaken(cfg, s, job, k, u);
      TakenMoves(cfg, s, job, k, u);
      LruStamp(o.sets[k], u);
      assert StampAt(c, k, u) <= s.cycle;
    }
  }

  /** The timestamp a line has after a job that ends at cycle `end`, if it is still there. */
  function StampAfter(cfg: Config, s: System, job: Job, j: nat, k: nat, t: nat, end: nat): nat
    requires cfg.Valid() && CachesShaped(cfg, s) && job.threadId < |s.caches| && j < |s.caches| && k < cfg.NumSets()
  {
    var c, tag := s.caches[j], TagOf(cfg, job.address);
    if j == job.threadId then
      if t == tag && IsAccess(job) then end else if IsCurrent(cfg, c, t) then s.cycle + 1 else StampAt(c, k, t)
    else if IsCurrent(cfg, c, t) then end
    else if ChoiceFor(cfg, s.caches[job.threadId].sets, job).UsesBus() && k == SetOf(cfg, job.address) && t == tag then s.cycle + 1
    else StampAt(c, k, t)
  }

  /** Cache `j` after a whole job: its lines, their timestamps and its last job. */
  ghost predicate CacheAfter(cfg: Config, s: System, job: Job, j: nat, e: System)
    requires cfg.Valid() && CachesShaped(cfg, s) && Quiescent(cfg, s) && job.threadId < |s.caches| && j < |s.caches|
  {
    && j < |e.caches| && |e.caches[j].sets| == cfg.NumSets()
    && e.caches[j].currentJob == (if j == job.threadId then Some(job) else s.caches[j].currentJob)
    && MovedTo(cfg, s, job, j, if j == job.threadId then VictimOf(cfg, s, job) else None, e.caches[j])
    && (forall k, t {:trigger StampAt(e.caches[j], k, t)} :: 0 <= k < cfg.NumSets() && 0 <= t && Has(e.caches[j], k, t) ==>
          StampAt(e.caches[j], k, t) == StampAfter(cfg, s, job, j, k, t, e.cycle))
  }

  lemma TagOnlyInItsSet(cfg: Config, addresses: set<nat>, s: System, job: Job, j: nat, k: nat)
    requires cfg.Valid() && TagsIdentifySets(cfg, addresses) && Ready(false, cfg, addresses, s) && job.address in addresses
    requires j < |s.caches| && k < |s.caches[j].sets| && Has(s.caches[j], k, TagOf(cfg, job.address))
    ensures k == SetOf(cfg, job.address)
  {
    hide TagOf, SetOf, TagsIdentifySets;
    assert GoodCache(cfg, addresses, s.caches[j]);
    TagIsInItsSet(cfg, addresses, s.caches[j], job, k);
  }

  lemma OneStampAfter(cfg: Config, addresses: set<nat>, s: System, job: Job, j: nat, k: nat, t: nat)
    requires cfg.Valid() && cfg.protocol != MOESI && TagsIdentifySets(cfg, addresses) && Ready(false, cfg, addresses, s) && CachesShaped(cfg, s)
    requires job.threadId < |s.caches| && job.address in addresses && j < |s.caches| && k < cfg.NumSets()
    ensures var e := RunJob(cfg, s, job);
            && Quiescent(cfg, s) && |e.caches| == |s.caches| && |e.caches[j].sets| == cfg.NumSets()
            && (Has(e.caches[j], k, t) ==> StampAt(e.caches[j], k, t) == StampAfter(cfg, s, job, j, k, t, e.cycle))
  {
    assert Quiescent(cfg, s);
    RunJobIsReady(false, cfg, addresses, s, job);
    var e := RunJob(cfg, s, job);
    if j != job.threadId {
      hide TagsIdentifySets, Ready, RunJob, ServiceCost, Quiescent, IsCurrent, ChoiceFor, TagOf, SetOf, StampAt, Has, Shaped;
      OtherCacheStamps(cfg, s, job, j, k, t);
    } else {
      JobOwnEnds(cfg, addresses, s, job);
      assert |e.caches| == |s.caches|;
      hide TagsIdentifySets, Ready, RunJob, ServiceCost, Quiescent, IsCurrent, ChoiceFor, TagOf, SetOf, StampAt, Has, Shaped, OwnEnds;
      OwnCacheStamps(cfg, addresses, s, job, SetOf(cfg, job.address), TagOf(cfg, job.address));
      if t != TagOf(cfg, job.address) || k == SetOf(cfg, job.address) {
        OwnCacheStamps(cfg, addresses, s, job, k, t);
      } else {
        AnySetsShape(cfg, addresses, e, j);
        if Has(e.caches[j], k, t) {
          TagOnlyInItsSet(cfg, addresses, e, job, j, k);
        }
      }
    }
  }

  lemma AnySetsShape(cfg: Config, addresses: set<nat>, s: System, j: nat)
    requires cfg.Valid() && Ready(false, cfg, addresses, s) && j < |s.caches|
    ensures |s.caches[j].sets| == cfg.NumSets()
  {
  }

  lemma JobEffect(cfg: Config, addresses: set<nat>, s: System, job: Job, j: nat)
    requires cfg.Valid() && cfg.protocol != MOESI && TagsIdentifySets(cfg, addresses) && Ready(false, cfg, addresses, s) && CachesShaped(cfg, s)
    requires job.threadId < |s.caches| && job.address in addresses && j < |s.caches|
    ensures Quiescent(cfg, s) && CacheAfter(cfg, s, job, j, RunJob(cfg, s, job))
  {
    assert Quiescent(cfg, s);
    var e := RunJob(cfg, s, job);
    hide *;
    var victim := RunJobMoves(cfg, addresses, s, job, j);
    OneStampAfter(cfg, addresses, s, job, j, 0, 0) by { SomeSet(cfg); }
    JobsAfter(cfg, addresses, s, job, j);
    forall k, t | 0 <= k < cfg.NumSets() && 0 <= t
      ensures Has(e.caches[j], k, t) ==> StampAt(e.caches[j], k, t) == StampAfter(cfg, s, job, j, k, t, e.cycle)
    {
      OneStampAfter(cfg, addresses, s, job, j, k, t);
    }
    CacheAfterIs(cfg, s, job, j, e);
  }

  lemma SomeSet(cfg: Config)
    ensures 0 < cfg.NumSets()
  {
  }

  lemma JobsAfter(cfg: Config, addresses: set<nat>, s: System, job: Job, j: nat)
    requires cfg.Valid() && cfg.protocol != MOESI && Ready(false, cfg, addresses, s) && CachesShaped(cfg, s)
    requires job.threadId < |s.caches| && job.address in addresses && j < |s.caches|
    ensures var e := RunJob(cfg, s, job);
            j < |e.caches| && e.caches[j].currentJob == if j == job.threadId then Some(job) else s.caches[j].currentJob
  {
    assert Quiescent(cfg, s);
    RunJobIsReady(false, cfg, addresses, s, job);
    if j == job.threadId {
      OwnCacheStamps(cfg, addresses, s, job, SetOf(cfg, job.address), TagOf(cfg, job.address));
    } else {
      OtherCacheStamps(cfg, s, job, j, SetOf(cfg, job.address), TagOf(cfg, job.address));
    }
  }

  lemma CacheAfterIs(cfg: Config, s: System, job: Job, j: nat, e: System)
    requires cfg.Valid() && CachesShaped(cfg, s) && Quiescent(cfg, s) && job.threadId < |s.caches| && j < |s.caches|
    requires j < |e.caches| && |e.caches[j].sets| == cfg.NumSets()
    requires e.caches[j].currentJob == (if j == job.threadId then Some(job) else s.caches[j].currentJob)
    requires MovedTo(cfg, s, job, j, if j == job.threadId then VictimOf(cfg, s, job) else None, e.caches[j])
    requires forall k, t :: 0 <= k < cfg.NumSets() && 0 <= t && Has(e.caches[j], k, t) ==>
               StampAt(e.caches[j], k, t) == StampAfter(cfg, s, job, j, k, t, e.cycle)
    ensures CacheAfter(cfg, s, job, j, e)
  {
    hide MovedTo, StampAt, StampAfter, Has, Quiescent, Shaped, VictimOf;
  }

  // ---------------------------------------------------------------------
  // Both machines replace the same line
  // ---------------------------------------------------------------------

  lemma SameTagsSameSize(a: LineSet, b: LineSet)
    requires DistinctTags(a) && DistinctTags(b) && forall t: nat :: HasLine(a, t) == HasLine(b, t)
    ensures |a| == |b|
  {
    NoMoreLines(a, b);
    NoMoreLines(b, a);
  }

  lemma NoMoreLines(a: LineSet, b: LineSet)
    requires DistinctTags(a) && forall t: nat :: HasLine(a, t) ==> HasLine(b, t)
    ensures |a| <= |b|
  {
    var tags := set i | 0 <= i < |a| :: a[i].tag;
    DistinctTagsAreFew(a, tags);
    forall t | t in tags
      ensures HasLine(b, t)
    {
      var i :| 0 <= i < |a| && a[i].tag == t;
      FindsEveryLine(a, i);
    }
    TagsNeedLines(b, tags);
  }

  /** Two similar machines before a job. */
  ghost predicate Twins(cfg: Config, addresses: set<nat>, m: System, e: System, job: Job)
    requires cfg.Valid()
  {
    && TagsIdentifySets(cfg, addresses) && Similar(cfg, m, e)
    && Ready(false, Msi(cfg), addresses, m) && Ready(true, Mesi(cfg), addresses, e)
    && job.address in addresses && job.threadId < cfg.numProcessors
  }

  lemma TwinsAre(cfg: Config, addresses: set<nat>, m: System, e: System, job: Job)
    requires cfg.Valid() && Twins(cfg, addresses, m, e, job)
    ensures Msi(cfg).Valid() && Mesi(cfg).Valid()
    ensures |m.caches| == |e.caches| == cfg.numProcessors && job.threadId < |m.caches|
    ensures CachesShaped(Msi(cfg), m) && CachesShaped(Mesi(cfg), e) && Quiescent(Msi(cfg), m) && Quiescent(Mesi(cfg), e)
    ensures Ready(false, Mesi(cfg), addresses, e)
    ensures TagsIdentifySets(Msi(cfg), addresses) && TagsIdentifySets(Mesi(cfg), addresses)
  {
    SameWidths(cfg);
    SameDecoding(cfg, addresses);
    ReadyWithoutCoherence(true, Mesi(cfg), addresses, e);
    hide TagsIdentifySets, SimilarCaches, GoodCache;
  }

  lemma SetIsGood(cfg: Config, addresses: set<nat>, s: System, j: nat, k: nat)
    requires cfg.Valid() && Ready(false, cfg, addresses, s) && j < |s.caches| && k < cfg.NumSets()
    ensures k < |s.caches[j].sets| && DistinctTags(s.caches[j].sets[k]) && |s.caches[j].sets[k]| <= cfg.numLinesInSet
  {
    assert GoodCache(cfg, addresses, s.caches[j]) && LinesFrom(cfg, addresses, k, s.caches[j].sets[k]);
  }

  lemma TwinsHaveSameRoom(cfg: Config, addresses: set<nat>, m: System, e: System, job: Job)
    requires cfg.Valid() && Twins(cfg, addresses, m, e, job)
    requires CachesShaped(Msi(cfg), m) && CachesShaped(Mesi(cfg), e) && job.threadId < |m.caches| == |e.caches|
    ensures HasRoom(Msi(cfg), m, job) == HasRoom(Mesi(cfg), e, job)
  {
    TwinsAre(cfg, addresses, m, e, job);
    WidthsAgree(cfg, job);
    var i, k, tag := job.threadId, SetOf(cfg, job.address), TagOf(cfg, job.address);
    SetIsGood(Msi(cfg), addresses, m, i, k);
    SetIsGood(Mesi(cfg), addresses, e, i, k);
    hide TagOf, SetOf, Ready, TagsIdentifySets, Quiescent, HasLine, DistinctTags;
    forall t: nat
      ensures HasLine(m.caches[i].sets[k], t) == HasLine(e.caches[i].sets[k], t)
    {
      SimilarAt(cfg, m, e, i, k, t);
    }
    SameTagsSameSize(m.caches[i].sets[k], e.caches[i].sets[k]);
  }

  /** What an existing victim says about the job. */
  lemma VictimMeans(cfg: Config, addresses: set<nat>, s: System, job: Job)
    requires cfg.Valid() && cfg.protocol != MOESI && Ready(false, cfg, addresses, s) && Quiescent(cfg, s) && CachesShaped(cfg, s) && job.threadId < |s.caches|
    ensures VictimOf(cfg, s, job).Some? <==>
            ChoiceFor(cfg, s.caches[job.threadId].sets, job) == OnBus && !HasRoom(cfg, s, job)
    ensures VictimOf(cfg, s, job).Some? ==> Has(s.caches[job.threadId], SetOf(cfg, job.address), VictimOf(cfg, s, job).value)
  {
    assert ChoiceFor(cfg, s.caches[job.threadId].sets, job) != Upgrading;
    hide RunJob, Ready, Quiescent, HasRoom, VictimOf, ChoiceFor, MovedTo, Shaped, SetOf, TagOf;
    var v := RunJobMoves(cfg, addresses, s, job, job.threadId);
  }

  lemma VictimsTogether(cfg: Config, addresses: set<nat>, m: System, e: System, job: Job)
    requires cfg.Valid() && Twins(cfg, addresses, m, e, job)
    ensures Msi(cfg).Valid() && Mesi(cfg).Valid() && Quiescent(Msi(cfg), m) && Quiescent(Mesi(cfg), e)
    ensures |m.caches| == |e.caches| == cfg.numProcessors && job.threadId < cfg.numProcessors
    ensures VictimOf(Msi(cfg), m, job).Some? <==> VictimOf(Mesi(cfg), e, job).Some?
  {
    TwinsAre(cfg, addresses, m, e, job);
    TwinsHaveSameRoom(cfg, addresses, m, e, job);
    SameWidths(cfg);
    WidthsAgree(cfg, job);
    var line := St(e.caches[job.threadId], SetOf(cfg, job.address), TagOf(cfg, job.address));
    assert GoodCache(Mesi(cfg), addresses, e.caches[job.threadId]);
    ChoiceIsAt(Mesi(cfg), addresses, e.caches[job.threadId], job);
    ValidIsThere(e.caches[job.threadId], SetOf(cfg, job.address), TagOf(cfg, job.address));
    assert HasRoom(Mesi(cfg), e, job) || ChoiceFor(Mesi(cfg), e.caches[job.threadId].sets, job) != MarkingHit;
    hide *;
    TwinsChoose(cfg, addresses, m, e, job);
    VictimMeans(Msi(cfg), addresses, m, job);
    VictimMeans(Mesi(cfg), addresses, e, job);
  }

  lemma TwinsChoose(cfg: Config, addresses: set<nat>, m: System, e: System, job: Job)
    requires cfg.Valid() && Twins(cfg, addresses, m, e, job)
    ensures Msi(cfg).Valid() && Mesi(cfg).Valid() && job.threadId < |m.caches| == |e.caches|
    ensures (ChoiceFor(Mesi(cfg), e.caches[job.threadId].sets, job) == MarkingHit || ChoiceFor(Mesi(cfg), e.caches[job.threadId].sets, job) == OnBus)
            <==> ChoiceFor(Msi(cfg), m.caches[job.threadId].sets, job) == OnBus
  {
    TwinsAre(cfg, addresses, m, e, job);
    SomeSet(cfg);
    hide ChoiceFor, Ready, Quiescent, SimilarCaches, TagsIdentifySets;
    CopiesStaySimilar(cfg, addresses, m, e, job, 0, 0, 0);
  }

  /** With the same victim, if any, the machines stay similar. */
  lemma TwinsStaySimilar(cfg: Config, addresses: set<nat>, m: System, e: System, job: Job)
    requires cfg.Valid() && Twins(cfg, addresses, m, e, job)
    requires Msi(cfg).Valid() && Mesi(cfg).Valid() && Quiescent(Msi(cfg), m) && Quiescent(Mesi(cfg), e)
    requires job.threadId < |m.caches| == |e.caches| && VictimOf(Msi(cfg), m, job) == VictimOf(Mesi(cfg), e, job)
    ensures Similar(cfg, RunJob(Msi(cfg), m, job), RunJob(Mesi(cfg), e, job))
  {
    TwinsAre(cfg, addresses, m, e, job);
    TwinParts(cfg, addresses, m, e, job);
    hide *;
    var m', e' := RunJob(Msi(cfg), m, job), RunJob(Mesi(cfg), e, job);
    var v := RunJobMoves(Msi(cfg), addresses, m, job, job.threadId);
    var w := RunJobMoves(Mesi(cfg), addresses, e, job, job.threadId);
    forall j | 0 <= j < cfg.numProcessors
      ensures SimilarCaches(cfg, m'.caches[j], e'.caches[j])
    {
      var vm := RunJobMoves(Msi(cfg), addresses, m, job, j);
      var ve := RunJobMoves(Mesi(cfg), addresses, e, job, j);
      MovesDoAgree(cfg, addresses, m, e, job, j);
      CachesStaySimilar(cfg, m, e, job, j, vm, m'.caches[j], e'.caches[j]);
    }
    MissesStayInStep(cfg, addresses, m, e, job);
    SimilarFrom(cfg, m', e');
  }

  lemma TwinParts(cfg: Config, addresses: set<nat>, m: System, e: System, job: Job)
    requires cfg.Valid() && Twins(cfg, addresses, m, e, job)
    ensures TagsIdentifySets(cfg, addresses) && Similar(cfg, m, e) && Ready(false, Msi(cfg), addresses, m) && Ready(true, Mesi(cfg), addresses, e)
    ensures job.address in addresses && job.threadId < cfg.numProcessors
  {
  }

  /** Both machines' victims, in both machines' sets. */
  lemma VictimsAreLines(cfg: Config, addresses: set<nat>, m: System, e: System, job: Job)
    requires cfg.Valid() && Twins(cfg, addresses, m, e, job)
    ensures Msi(cfg).Valid() && Mesi(cfg).Valid() && Quiescent(Msi(cfg), m) && Quiescent(Mesi(cfg), e)
    ensures job.threadId < |m.caches| == |e.caches| == cfg.numProcessors
    ensures var vm, ve := VictimOf(Msi(cfg), m, job), VictimOf(Mesi(cfg), e, job);
            var k, cm, ce := SetOf(cfg, job.address), m.caches[job.threadId], e.caches[job.threadId];
            && (vm.Some? <==> ve.Some?) && k < |cm.sets| && k < |ce.sets|
            && |cm.sets[k]| <= cfg.numLinesInSet
            && (vm.Some? ==> Has(cm, k, vm.value) && Has(cm, k, ve.value) && Has(ce, k, vm.value) && Has(ce, k, ve.value))
  {
    hide *;
    var i, k := job.threadId, SetOf(cfg, job.address);
    TwinsAre(cfg, addresses, m, e, job);
    TwinParts(cfg, addresses, m, e, job);
    WidthsAgree(cfg, job);
    SameWays(cfg);
    SetIsGood(Msi(cfg), addresses, m, i, k);
    SetIsGood(Mesi(cfg), addresses, e, i, k);
    VictimsTogether(cfg, addresses, m, e, job);
    VictimMeans(Msi(cfg), addresses, m, job);
    VictimMeans(Mesi(cfg), addresses, e, job);
    if VictimOf(Msi(cfg), m, job).Some? {
      SimilarAt(cfg, m, e, i, k, VictimOf(Msi(cfg), m, job).value);
      SimilarAt(cfg, m, e, i, k, VictimOf(Mesi(cfg), e, job).value);
    }
  }

  lemma SameWays(cfg: Config)
    ensures Msi(cfg).numLinesInSet == cfg.numLinesInSet && Mesi(cfg).numLinesInSet == cfg.numLinesInSet
  {
  }

  /** With one line a set there is no choice. */
  lemma OneLineSameVictim(cfg: Config, addresses: set<nat>, m: System, e: System, job: Job)
    requires cfg.Valid() && Twins(cfg, addresses, m, e, job) && cfg.numLinesInSet == 1
    ensures Msi(cfg).Valid() && Mesi(cfg).Valid() && Quiescent(Msi(cfg), m) && Quiescent(Mesi(cfg), e)
    ensures job.threadId < |m.caches| == |e.caches| && VictimOf(Msi(cfg), m, job) == VictimOf(Mesi(cfg), e, job)
  {
    hide *;
    VictimsAreLines(cfg, addresses, m, e, job);
    if VictimOf(Msi(cfg), m, job).Some? {
      OneLineOneTag(m.caches[job.threadId], SetOf(cfg, job.address), VictimOf(Msi(cfg), m, job).value, VictimOf(Mesi(cfg), e, job).value);
    }
  }

  lemma OneLineOneTag(c: CacheState, k: nat, v: nat, w: nat)
    requires k < |c.sets| && |c.sets[k]| <= 1 && Has(c, k, v) && Has(c, k, w)
    ensures v == w
  {
    TagsNeedLines(c.sets[k], {v, w});
    assert v != w ==> |{v, w}| == 2;
  }

  /** The only cache's lines were last accessed in the same order on both machines, at
      different times, and its last job was the same. */
  ghost predicate InOrder(cfg: Config, m: System, e: System) {
    && NoFutures(cfg, m, e)
    && m.caches[0].currentJob == e.caches[0].currentJob
    && forall k, t, u {:trigger StampAt(m.caches[0], k, t), StampAt(m.caches[0], k, u)} ::
         0 <= k < cfg.NumSets() && 0 <= t && 0 <= u && t != u && Has(m.caches[0], k, t) && Has(m.caches[0], k, u) ==>
           && StampAt(m.caches[0], k, t) != StampAt(m.caches[0], k, u)
           && (StampAt(m.caches[0], k, t) < StampAt(m.caches[0], k, u) <==> StampAt(e.caches[0], k, t) < StampAt(e.caches[0], k, u))
  }

  lemma SameCurrent(cfg: Config, a: CacheState, b: CacheState, t: nat)
    requires cfg.Valid() && a.currentJob == b.currentJob
    ensures Msi(cfg).Valid() && Mesi(cfg).Valid() && IsCurrent(Msi(cfg), a, t) == IsCurrent(Mesi(cfg), b, t)
  {
    if a.currentJob.Some? {
      WidthsAgree(cfg, a.currentJob.value);
    }
  }

  lemma OldestIsOne(cfg: Config, m: System, e: System, k: nat, v: nat, w: nat)
    requires cfg.Valid() && InOrder(cfg, m, e) && k < cfg.NumSets() && Msi(cfg).Valid() && Mesi(cfg).Valid()
    requires Oldest(Msi(cfg), m.caches[0], k, v) && Oldest(Mesi(cfg), e.caches[0], k, w)
    requires Has(m.caches[0], k, w) && Has(e.caches[0], k, v)
    ensures v == w
  {
    SameCurrent(cfg, m.caches[0], e.caches[0], v);
    SameCurrent(cfg, m.caches[0], e.caches[0], w);
    if v != w {
      CurrentIsOne(Msi(cfg), m.caches[0], v, w);
    }
    hide IsCurrent, StampAt, Has;
    var mv, mw, ev, ew := StampAt(m.caches[0], k, v), StampAt(m.caches[0], k, w), StampAt(e.caches[0], k, v), StampAt(e.caches[0], k, w);
    assert v != w ==> mv <= mw;
    assert v != w ==> ew <= ev;
  }

  /** With one cache both machines have accessed its lines in the same order. */
  lemma OneCacheSameVictim(cfg: Config, addresses: set<nat>, m: System, e: System, job: Job)
    requires cfg.Valid() && Twins(cfg, addresses, m, e, job) && cfg.numProcessors == 1 && InOrder(cfg, m, e)
    ensures Msi(cfg).Valid() && Mesi(cfg).Valid() && Quiescent(Msi(cfg), m) && Quiescent(Mesi(cfg), e)
    ensures job.threadId < |m.caches| == |e.caches| && VictimOf(Msi(cfg), m, job) == VictimOf(Mesi(cfg), e, job)
  {
    assert job.threadId == 0 && NoFutures(cfg, m, e);
    hide *;
    TwinsAre(cfg, addresses, m, e, job);
    TwinParts(cfg, addresses, m, e, job);
    WidthsAgree(cfg, job);
    VictimsAreLines(cfg, addresses, m, e, job);
    if VictimOf(Msi(cfg), m, job).Some? {
      var v, w := VictimOf(Msi(cfg), m, job).value, VictimOf(Mesi(cfg), e, job).value;
      SplitNoFutures(cfg, m, e);
      VictimIsOldest(Msi(cfg), addresses, m, job, v);
      VictimIsOldest(Mesi(cfg), addresses, e, job, w);
      OldestIsOne(cfg, m, e, SetOf(cfg, job.address), v, w);
    }
  }

  ghost predicate NoFutures(cfg: Config, m: System, e: System) {
    && |m.caches| == |e.caches| == 1
    && NoFuture(cfg, m.caches[0], m.cycle) && NoFuture(cfg, e.caches[0], e.cycle)
  }

  lemma SplitNoFutures(cfg: Config, m: System, e: System)
    requires NoFutures(cfg, m, e)
    ensures |m.caches| == |e.caches| == 1
    ensures NoFuture(Msi(cfg), m.caches[0], m.cycle) && NoFuture(Mesi(cfg), e.caches[0], e.cycle)
  {
    hide Has, StampAt;
  }

  /** What is in a cache after a job was there before, or is the job's own line. */
  lemma WhereFrom(cfg: Config, s: System, job: Job, j: nat, e: System, k: nat, t: nat)
    requires cfg.Valid() && CachesShaped(cfg, s) && Quiescent(cfg, s) && job.threadId < |s.caches| && j < |s.caches| && k < cfg.NumSets()
    requires cfg.protocol != MOESI && CacheAfter(cfg, s, job, j, e) && Has(e.caches[j], k, t)
    ensures Has(s.caches[j], k, t) || (j == job.threadId && IsAccess(job) && t == TagOf(cfg, job.address))
    ensures StampAt(e.caches[j], k, t) == StampAfter(cfg, s, job, j, k, t, e.cycle)
  {
    hide TagOf, SetOf, Has, StampAt, StampAfter, VictimOf, FirstInState, Quiescent;
    assert HasAfter(cfg, s, job, j, k, t);
  }

  lemma StaysPast(cfg: Config, s: System, job: Job, j: nat, e: System)
    requires cfg.Valid() && CachesShaped(cfg, s) && Quiescent(cfg, s) && job.threadId < |s.caches| && j < |s.caches|
    requires cfg.protocol != MOESI && CacheAfter(cfg, s, job, j, e) && NoFuture(cfg, s.caches[j], s.cycle) && s.cycle < e.cycle
    ensures NoFuture(cfg, e.caches[j], e.cycle)
  {
    hide CacheAfter, Quiescent, Has, Stamp, IsCurrent, ChoiceFor, TagOf, SetOf;
    assert |e.caches[j].sets| == cfg.NumSets() by { AfterShape(cfg, s, job, j, e); }
    forall k, t | 0 <= k < |e.caches[j].sets| && 0 <= t && Has(e.caches[j], k, t)
      ensures StampAt(e.caches[j], k, t) <= e.cycle
    {
      WhereFrom(cfg, s, job, j, e, k, t);
      assert Has(s.caches[j], k, t) ==> StampAt(s.caches[j], k, t) <= s.cycle;
    }
  }

  lemma AfterShape(cfg: Config, s: System, job: Job, j: nat, e: System)
    requires cfg.Valid() && CachesShaped(cfg, s) && Quiescent(cfg, s) && job.threadId < |s.caches| && j < |s.caches|
    requires CacheAfter(cfg, s, job, j, e)
    ensures j < |e.caches| && |e.caches[j].sets| == cfg.NumSets()
    ensures e.caches[j].currentJob == if j == job.threadId then Some(job) else s.caches[j].currentJob
  {
  }

  /** Two lines of the only cache after a job. */
  lemma PairStaysInOrder(cfg: Config, m: System, e: System, job: Job, m': System, e': System, k: nat, t: nat, u: nat)
    requires cfg.Valid() && Msi(cfg).Valid() && Mesi(cfg).Valid() && InOrder(cfg, m, e) && job.threadId == 0 && k < cfg.NumSets()
    requires CachesShaped(Msi(cfg), m) && CachesShaped(Mesi(cfg), e) && Quiescent(Msi(cfg), m) && Quiescent(Mesi(cfg), e)
    requires CacheAfter(Msi(cfg), m, job, 0, m') && CacheAfter(Mesi(cfg), e, job, 0, e')
    requires Similar(cfg, m, e)
    requires m.cycle < m'.cycle && e.cycle < e'.cycle && (IsAccess(job) ==> m.cycle + 1 < m'.cycle && e.cycle + 1 < e'.cycle)
    requires t != u && k < |m'.caches[0].sets| && k < |e'.caches[0].sets|
    requires Has(m'.caches[0], k, t) && Has(m'.caches[0], k, u) && Has(e'.caches[0], k, t) && Has(e'.caches[0], k, u)
    ensures StampAt(m'.caches[0], k, t) != StampAt(m'.caches[0], k, u)
    ensures StampAt(m'.caches[0], k, t) < StampAt(m'.caches[0], k, u) <==> StampAt(e'.caches[0], k, t) < StampAt(e'.caches[0], k, u)
  {
    WidthsAgree(cfg, job);
    hide CacheAfter, Quiescent, Has, Stamp, IsCurrent, TagOf, SetOf, Shaped, SimilarCaches;
    WhereFrom(Msi(cfg), m, job, 0, m', k, t);
    WhereFrom(Msi(cfg), m, job, 0, m', k, u);
    WhereFrom(Mesi(cfg), e, job, 0, e', k, t);
    WhereFrom(Mesi(cfg), e, job, 0, e', k, u);
    SameCurrent(cfg, m.caches[0], e.caches[0], t);
    SameCurrent(cfg, m.caches[0], e.caches[0], u);
    CurrentIsOne(Msi(cfg), m.caches[0], t, u);
    SimilarAt(cfg, m, e, 0, k, t);
    SimilarAt(cfg, m, e, 0, k, u);
    assert Has(m.caches[0], k, t) ==> StampAt(m.caches[0], k, t) <= m.cycle && StampAt(e.caches[0], k, t) <= e.cycle;
    assert Has(m.caches[0], k, u) ==> StampAt(m.caches[0], k, u) <= m.cycle && StampAt(e.caches[0], k, u) <= e.cycle;
  }

  lemma CurrentIsOne(cfg: Config, c: CacheState, t: nat, u: nat)
    requires cfg.Valid() && t != u
    ensures !(IsCurrent(cfg, c, t) && IsCurrent(cfg, c, u))
  {
  }

  /** The only cache after a job, on both machines. */
  ghost predicate OneCacheMoves(cfg: Config, m: System, e: System, job: Job, m': System, e': System) {
    && cfg.Valid() && Msi(cfg).Valid() && Mesi(cfg).Valid() && InOrder(cfg, m, e) && job.threadId == 0
    && CachesShaped(Msi(cfg), m) && CachesShaped(Mesi(cfg), e) && Quiescent(Msi(cfg), m) && Quiescent(Mesi(cfg), e)
    && CacheAfter(Msi(cfg), m, job, 0, m') && CacheAfter(Mesi(cfg), e, job, 0, e')
    && Similar(cfg, m, e) && Similar(cfg, m', e') && cfg.numProcessors == 1
    && m.cycle < m'.cycle && e.cycle < e'.cycle && (IsAccess(job) ==> m.cycle + 1 < m'.cycle && e.cycle + 1 < e'.cycle)
  }

  lemma JobMovesOneCache(cfg: Config, addresses: set<nat>, m: System, e: System, job: Job)
    requires cfg.Valid() && Twins(cfg, addresses, m, e, job) && cfg.numProcessors == 1 && InOrder(cfg, m, e)
    requires Msi(cfg).Valid() && Mesi(cfg).Valid() && Quiescent(Msi(cfg), m) && Quiescent(Mesi(cfg), e)
    requires job.threadId < |m.caches| == |e.caches| && Similar(cfg, RunJob(Msi(cfg), m, job), RunJob(Mesi(cfg), e, job))
    ensures OneCacheMoves(cfg, m, e, job, RunJob(Msi(cfg), m, job), RunJob(Mesi(cfg), e, job))
  {
    TwinsAre(cfg, addresses, m, e, job);
    TwinParts(cfg, addresses, m, e, job);
    SameWidths(cfg);
    hide Twins, InOrder, Similar, CacheAfter, RunJob, Ready, TagsIdentifySets, Quiescent, Shaped;
    JobEffect(Msi(cfg), addresses, m, job, 0);
    JobEffect(Mesi(cfg), addresses, e, job, 0);
    TimePasses(Msi(cfg), addresses, m, job);
    TimePasses(Mesi(cfg), addresses, e, job);
  }

  lemma OneCacheStaysInOrder(cfg: Config, m: System, e: System, job: Job, m': System, e': System)
    requires OneCacheMoves(cfg, m, e, job, m', e')
    ensures InOrder(cfg, m', e')
  {
    assert |m'.caches| == |e'.caches| == 1;
    SplitNoFutures(cfg, m, e);
    SameWidths(cfg);
    hide InOrder, Similar, CacheAfter, Quiescent, Shaped, StampAt, Has, NoFuture;
    StaysPast(Msi(cfg), m, job, 0, m');
    StaysPast(Mesi(cfg), e, job, 0, e');
    AfterShape(Msi(cfg), m, job, 0, m');
    AfterShape(Mesi(cfg), e, job, 0, e');
    assert m'.caches[0].currentJob == e'.caches[0].currentJob == Some(job);
    forall k, t, u | 0 <= k < cfg.NumSets() && 0 <= t && 0 <= u && t != u && Has(m'.caches[0], k, t) && Has(m'.caches[0], k, u)
      ensures StampAt(m'.caches[0], k, t) != StampAt(m'.caches[0], k, u)
      ensures StampAt(m'.caches[0], k, t) < StampAt(m'.caches[0], k, u) <==> StampAt(e'.caches[0], k, t) < StampAt(e'.caches[0], k, u)
    {
      SimilarAt(cfg, m', e', 0, k, t);
      SimilarAt(cfg, m', e', 0, k, u);
      PairStaysInOrder(cfg, m, e, job, m', e', k, t, u);
    }
    OneCacheAfter(cfg, m', e');
  }

  lemma JobKeepsOrder(cfg: Config, addresses: set<nat>, m: System, e: System, job: Job)
    requires cfg.Valid() && Twins(cfg, addresses, m, e, job) && cfg.numProcessors == 1 && InOrder(cfg, m, e)
    requires Msi(cfg).Valid() && Mesi(cfg).Valid() && Quiescent(Msi(cfg), m) && Quiescent(Mesi(cfg), e)
    requires job.threadId < |m.caches| == |e.caches| && Similar(cfg, RunJob(Msi(cfg), m, job), RunJob(Mesi(cfg), e, job))
    ensures InOrder(cfg, RunJob(Msi(cfg), m, job), RunJob(Mesi(cfg), e, job))
  {
    hide *;
    JobMovesOneCache(cfg, addresses, m, e, job);
    OneCacheStaysInOrder(cfg, m, e, job, RunJob(Msi(cfg), m, job), RunJob(Mesi(cfg), e, job));
  }

  lemma OneCacheAfter(cfg: Config, m: System, e: System)
    requires |m.caches| == |e.caches| == 1 && |m.caches[0].sets| == |e.caches[0].sets| == cfg.NumSets()
    requires NoFuture(Msi(cfg), m.caches[0], m.cycle) && NoFuture(Mesi(cfg), e.caches[0], e.cycle)
    requires m.caches[0].currentJob == e.caches[0].currentJob
    requires forall k, t, u :: 0 <= k < cfg.NumSets() && 0 <= t && 0 <= u && t != u && Has(m.caches[0], k, t) && Has(m.caches[0], k, u) ==>
               && StampAt(m.caches[0], k, t) != StampAt(m.caches[0], k, u)
               && (StampAt(m.caches[0], k, t) < StampAt(m.caches[0], k, u) <==> StampAt(e.caches[0], k, t) < StampAt(e.caches[0], k, u))
    ensures InOrder(cfg, m, e)
  {
    hide StampAt, Has;
  }

  lemma TimePasses(cfg: Config, addresses: set<nat>, s: System, job: Job)
    requires cfg.Valid() && cfg.protocol != MOESI && Ready(false, cfg, addresses, s) && job.threadId < |s.caches| && job.address in addresses
    ensures Quiescent(cfg, s) && s.cycle < RunJob(cfg, s, job).cycle && |RunJob(cfg, s, job).caches| == |s.caches|
    ensures IsAccess(job) ==> s.cycle + 1 < RunJob(cfg, s, job).cycle
  {
    JobOwnEnds(cfg, addresses, s, job);
    AccessesTakeTime(cfg, s, job);
    hide RunJob, ServiceCost, Taken, Started, Ready;
  }

  // ---------------------------------------------------------------------
  // The simulation without crowding out
  // ---------------------------------------------------------------------

  /** Both machines after a trace. */
  ghost predicate SimilarAfter(cfg: Config, trace: seq<Job>)
    requires cfg.Valid() && JobsInRange(cfg, trace)
  {
    Similar(cfg, RunTrace(Msi(cfg), trace), RunTrace(Mesi(cfg), trace))
  }

  lemma EmptyTraceIsSimilar(cfg: Config)
    requires cfg.Valid()
    ensures SimilarAfter(cfg, [])
    ensures cfg.numProcessors == 1 ==> InOrder(cfg, RunTrace(Msi(cfg), []), RunTrace(Mesi(cfg), []))
  {
  }

  lemma {:induction false} TracesStaySimilar(cfg: Config, addresses: set<nat>, trace: seq<Job>)
    requires cfg.Valid() && TagsIdentifySets(cfg, addresses) && (cfg.numProcessors == 1 || cfg.numLinesInSet == 1)
    requires JobsInRange(cfg, trace) && JobAddresses(trace) <= addresses
    ensures SimilarAfter(cfg, trace)
    ensures cfg.numProcessors == 1 ==> InOrder(cfg, RunTrace(Msi(cfg), trace), RunTrace(Mesi(cfg), trace))
  {
    if |trace| == 0 {
      EmptyTraceIsSimilar(cfg);
    } else {
      var n := |trace| - 1;
      var first, job := trace[..n], trace[n];
      assert first + [job] == trace && job.address in JobAddresses(trace) && JobAddresses(first) <= JobAddresses(trace);
      TracesStaySimilar(cfg, addresses, first);
      hide InOrder, RunTrace, RunJob, Ready, TagsIdentifySets, JobAddresses, Quiescent, Similar;
      var m, e := RunTrace(Msi(cfg), first), RunTrace(Mesi(cfg), first);
      TracesAreTwins(cfg, addresses, first, job);
      if cfg.numProcessors == 1 {
        OneCacheSameVictim(cfg, addresses, m, e, job);
      } else {
        OneLineSameVictim(cfg, addresses, m, e, job);
      }
      TwinsStaySimilar(cfg, addresses, m, e, job);
      if cfg.numProcessors == 1 {
        JobKeepsOrder(cfg, addresses, m, e, job);
      }
    }
  }

  lemma TracesAreTwins(cfg: Config, addresses: set<nat>, first: seq<Job>, job: Job)
    requires cfg.Valid() && TagsIdentifySets(cfg, addresses) && JobsInRange(cfg, first) && SimilarAfter(cfg, first)
    requires JobAddresses(first) <= addresses && job.address in addresses && job.threadId < cfg.numProcessors
    ensures Twins(cfg, addresses, RunTrace(Msi(cfg), first), RunTrace(Mesi(cfg), first), job)
    ensures JobsInRange(Msi(cfg), first + [job]) && JobsInRange(Mesi(cfg), first + [job]) && Msi(cfg).Valid() && Mesi(cfg).Valid()
    ensures Quiescent(Msi(cfg), RunTrace(Msi(cfg), first)) && Quiescent(Mesi(cfg), RunTrace(Mesi(cfg), first))
    ensures RunTrace(Msi(cfg), first + [job]) == RunJob(Msi(cfg), RunTrace(Msi(cfg), first), job)
    ensures RunTrace(Mesi(cfg), first + [job]) == RunJob(Mesi(cfg), RunTrace(Mesi(cfg), first), job)
  {
    SameDecoding(cfg, addresses);
    hide RunTrace, RunJob, Ready, TagsIdentifySets, JobAddresses, Quiescent, Similar;
    OneMoreJob(Msi(cfg), first, job, addresses);
    OneMoreJob(Mesi(cfg), first, job, addresses);
    RunTraceIsReady(true, Mesi(cfg), addresses, first);
  }
}
