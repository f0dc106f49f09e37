/** Every counter and the clock after a job, told by what the caches held before it; hence
    what each counter stands at, and how long the loop has run, at the end of every trace. */
module Ledger {
  import opened Constants
  import opened LineSets
  import opened CacheModel
  import opened SystemModel
  import opened Coherence
  import opened Safety
  import opened ServiceTime
  import opened JobRunner
  import opened CycleLoop
  import opened JobEffects
  import opened Counts

  // ---------------------------------------------------------------------
  // The other caches' copies
  // ---------------------------------------------------------------------

  /** How many caches hold a line in each valid state. */
  datatype Copies = Copies(modified: nat, owned: nat, exclusive: nat, shared: nat)
  {
    function Plus(st: State): Copies {
      Copies(modified + One(st == Modified), owned + One(st == Owned), exclusive + One(st == Exclusive), shared + One(st == Shared))
    }
  }

  /** Copies whose cache answers a MOESI request with the data. */
  function Owners(c: Copies): nat { c.modified + c.owned + c.exclusive }

  /** Copies whose cache answers a MESI request with `SHARED`. */
  function Clean(c: Copies): nat { c.shared + c.exclusive }

  /** The copies in the first `n` caches other than `cc`. */
  function CopiesIn(caches: seq<CacheState>, cc: int, k: nat, tag: nat, n: nat): Copies
    requires n <= |caches| && forall j :: 0 <= j < |caches| ==> k < |caches[j].sets|
  {
    if n == 0 then Copies(0, 0, 0, 0)
    else
      var copies := CopiesIn(caches, cc, k, tag, n - 1);
      if n - 1 == cc then copies else copies.Plus(St(caches[n - 1], k, tag))
  }

  lemma {:induction false} SameCopiesIn(a: seq<CacheState>, b: seq<CacheState>, cc: int, k: nat, tag: nat, n: nat)
    requires n <= |a| == |b| && forall j :: 0 <= j < |a| ==> k < |a[j].sets| && k < |b[j].sets|
    requires forall j :: 0 <= j < |a| && j != cc ==> St(a[j], k, tag) == St(b[j], k, tag)
    ensures CopiesIn(a, cc, k, tag, n) == CopiesIn(b, cc, k, tag, n)
  {
    if n > 0 {
      SameCopiesIn(a, b, cc, k, tag, n - 1);
    }
  }

  // ---------------------------------------------------------------------
  // The broadcast
  // ---------------------------------------------------------------------

  /** How far the answers of caches with these copies move the end of a transaction whose request costs `cost`. */
  function Shift(cfg: Config, cost: nat, copies: Copies): int
    requires cfg.Valid()
  {
    var mem, resp := cfg.memoryResponseCycleCost, cfg.cacheResponseCycleCost;
    match cfg.protocol
    case MSI => copies.modified * mem
    case MESI => copies.modified * resp - (if Clean(copies) > 0 then mem - resp else 0)
    case MOESI => if cost == cfg.cacheHitCycleCost then 0 else -(Owners(copies) * (mem - resp))
  }

  /** Somebody else supplies the line: the bus's shared flag. */
  predicate Supplied(p: Protocol, copies: Copies) {
    match p
    case MSI => false
    case MESI => copies.modified + Clean(copies) > 0
    case MOESI => Owners(copies) > 0
  }

  /** The counters after snoops by caches with these copies. */
  function AfterSnoops(p: Protocol, copies: Copies, a: Stats): Stats {
    if p == MOESI then a.(numCacheShare := a.numCacheShare + Owners(copies))
    else a.(numFlush := a.numFlush + copies.modified, numMainMemoryUses := a.numMainMemoryUses + copies.modified)
  }

  /** The broadcast so far, told by the copies of the caches that have snooped. */
  ghost predicate Tallied(cfg: Config, g: System, round: Round, copies: Copies)
    requires cfg.Valid() && g.bus.currentRequest.Some?
  {
    && round.sys.bus.endCycle == g.bus.endCycle + Shift(cfg, g.bus.currentRequest.value.cycleCost, copies)
    && (round.foundShared <==> cfg.protocol == MESI && Clean(copies) > 0)
    && (round.sys.bus.isShared <==> g.bus.isShared || Supplied(cfg.protocol, copies))
    && round.sys.stats == AfterSnoops(cfg.protocol, copies, g.stats)
  }

  /** One snoop by a cache whose copy is in state `st`, for a request of cost `cost`. */
  ghost predicate Stepped(cfg: Config, cost: nat, st: State, round: Round, round': Round)
    requires cfg.Valid()
  {
    var e, e', a, mem, resp := round.sys.bus.endCycle, round'.sys.bus.endCycle, round.sys.stats,
        cfg.memoryResponseCycleCost, cfg.cacheResponseCycleCost;
    match cfg.protocol
    case MSI =>
      && e' == (if st == Modified then e + mem else e)
      && round'.foundShared == round.foundShared && round'.sys.bus.isShared == round.sys.bus.isShared
      && round'.sys.stats == (if st == Modified then a.(numFlush := a.numFlush + 1, numMainMemoryUses := a.numMainMemoryUses + 1) else a)
    case MESI =>
      var clean := st == Shared || st == Exclusive;
      && e' == (if st == Modified then e + resp else if clean && !round.foundShared then e - (mem - resp) else e)
      && round'.foundShared == (round.foundShared || clean)
      && round'.sys.bus.isShared == (round.sys.bus.isShared || clean || st == Modified)
      && round'.sys.stats == (if st == Modified then a.(numFlush := a.numFlush + 1, numMainMemoryUses := a.numMainMemoryUses + 1) else a)
    case MOESI =>
      var owns := st == Modified || st == Owned || st == Exclusive;
      && e' == (if owns && cost != cfg.cacheHitCycleCost then e - (mem - resp) else e)
      && round'.foundShared == round.foundShared
      && round'.sys.bus.isShared == (round.sys.bus.isShared || owns)
      && round'.sys.stats == (if owns then a.(numCacheShare := a.numCacheShare + 1) else a)
  }

  lemma SnoopSteps(cfg: Config, round: Round, i: nat, st: State)
    requires cfg.Valid() && InTransaction(cfg, round.sys) && i < |round.sys.caches| && i != round.sys.bus.currentCache
    requires var r := round.sys.bus.currentRequest.value; st == St(round.sys.caches[i], r.lineSet, r.lineTag)
    ensures Stepped(cfg, round.sys.bus.currentRequest.value.cycleCost, st, round, SnoopOne(cfg, round, i))
  {
    hide Snooped, Shaped;
  }

  lemma OneMoreTime(n: nat, x: nat)
    ensures (n + 1) * x == n * x + x
  {
  }

  /** One more answer moves the end as far as the new copy says. */
  lemma ShiftStep(cfg: Config, cost: nat, copies: Copies, st: State)
    requires cfg.Valid()
    ensures var mem, resp := cfg.memoryResponseCycleCost, cfg.cacheResponseCycleCost;
            Shift(cfg, cost, copies.Plus(st)) - Shift(cfg, cost, copies) ==
            match cfg.protocol
            case MSI => if st == Modified then mem else 0
            case MESI =>
              if st == Modified then resp
              else if (st == Shared || st == Exclusive) && Clean(copies) == 0 then -(mem - resp) else 0
            case MOESI =>
              if (st == Modified || st == Owned || st == Exclusive) && cost != cfg.cacheHitCycleCost then -(mem - resp) else 0
  {
    var mem, resp := cfg.memoryResponseCycleCost, cfg.cacheResponseCycleCost;
    OneMoreTime(copies.modified, mem);
    OneMoreTime(copies.modified, resp);
    OneMoreTime(Owners(copies), mem - resp);
  }

  lemma TalliedStep(cfg: Config, g: System, round: Round, round': Round, copies: Copies, st: State)
    requires cfg.Valid() && g.bus.currentRequest.Some? && Tallied(cfg, g, round, copies)
    requires Stepped(cfg, g.bus.currentRequest.value.cycleCost, st, round, round')
    ensures Tallied(cfg, g, round', copies.Plus(st))
  {
    ShiftStep(cfg, g.bus.currentRequest.value.cycleCost, copies, st);
    hide Shift;
  }

  lemma SnoopIsTallied(cfg: Config, g: System, round: Round, n: nat)
    requires cfg.Valid() && InTransaction(cfg, g) && InTransaction(cfg, round.sys) && n < |g.caches| == |round.sys.caches|
    requires SnoopedUpTo(cfg, g, round.sys, n)
    requires var r := g.bus.currentRequest.value;
             Tallied(cfg, g, round, CopiesIn(g.caches, g.bus.currentCache, r.lineSet, r.lineTag, n))
    ensures var r := g.bus.currentRequest.value;
            Tallied(cfg, g, SnoopOne(cfg, round, n), CopiesIn(g.caches, g.bus.currentCache, r.lineSet, r.lineTag, n + 1))
  {
    var r, cc := g.bus.currentRequest.value, g.bus.currentCache;
    SameRequest(cfg, g, round, n);
    hide SnoopedUpTo, Tallied, St, Stepped;
    if n != cc {
      var st := St(g.caches[n], r.lineSet, r.lineTag);
      SnoopSteps(cfg, round, n, st);
      hide SnoopOne;
      TalliedStep(cfg, g, round, SnoopOne(cfg, round, n), CopiesIn(g.caches, cc, r.lineSet, r.lineTag, n), st);
    }
  }

  lemma {:induction false} BroadcastIsTallied(cfg: Config, g: System, n: nat)
    requires cfg.Valid() && InTransaction(cfg, g) && n <= |g.caches|
    ensures var r := g.bus.currentRequest.value;
            Tallied(cfg, g, Broadcast(cfg, g, n), CopiesIn(g.caches, g.bus.currentCache, r.lineSet, r.lineTag, n))
  {
    hide Tallied, SnoopOne, SnoopedUpTo, St;
    if n == 0 {
      NothingTallied(cfg, g, Round(g, false), Copies(0, 0, 0, 0));
    } else {
      BroadcastIsTallied(cfg, g, n - 1);
      BroadcastEffect(cfg, g, n - 1);
      SnoopIsTallied(cfg, g, Broadcast(cfg, g, n - 1), n - 1);
    }
  }

  lemma NothingTallied(cfg: Config, g: System, round: Round, none: Copies)
    requires cfg.Valid() && g.bus.currentRequest.Some? && round.sys == g && !round.foundShared
    requires none.modified == Owners(none) == Clean(none) == 0
    ensures Tallied(cfg, g, round, none)
  {
    hide Shift, AfterSnoops, Supplied;
    NoShift(cfg, g.bus.currentRequest.value.cycleCost, none);
    NoSnoops(cfg.protocol, none, g.stats);
  }

  lemma NoSnoops(p: Protocol, none: Copies, a: Stats)
    requires none.modified == Owners(none) == Clean(none) == 0
    ensures AfterSnoops(p, none, a) == a && !Supplied(p, none)
  {
  }

  lemma NoShift(cfg: Config, cost: nat, none: Copies)
    requires cfg.Valid() && none.modified == Owners(none) == Clean(none) == 0
    ensures Shift(cfg, cost, none) == 0
  {
  }

  /** The bus right after a grant from quiet: when the transaction will end, its flag, and the counters. */
  lemma GrantIsTallied(cfg: Config, b: System, k: nat)
    requires cfg.Valid() && CachesShaped(cfg, b) && k < |b.caches| && b.caches[k].haveBusRequest
    requires FirstRequester(b.caches) == k && !b.bus.isShared
    ensures var g, r := NextTransaction(cfg, b), b.caches[k].busRequest.value;
            var copies := CopiesIn(b.caches, k, r.lineSet, r.lineTag, |b.caches|);
            var a := AfterSnoops(cfg.protocol, copies, b.stats);
            && g.bus.endCycle - g.bus.startCycle == r.cycleCost + Shift(cfg, r.cycleCost, copies)
            && (g.bus.isShared <==> Supplied(cfg.protocol, copies))
            && g.stats == a.(numBusRequests := a.numBusRequests + 1,
                             numMainMemoryUses := a.numMainMemoryUses + One(cfg.protocol == MESI && Clean(copies) == 0))
  {
    hide Broadcast, FirstRequester, CopiesIn, St, Shift, Supplied;
    var g0, r := Granted(cfg, b, k), b.caches[k].busRequest.value;
    BroadcastIsTallied(cfg, g0, |b.caches|);
    BroadcastEffect(cfg, g0, |b.caches|);
    GrantKeepsCopies(cfg, b, k);
  }

  lemma GrantKeepsCopies(cfg: Config, b: System, k: nat)
    requires cfg.Valid() && CachesShaped(cfg, b) && k < |b.caches| && b.caches[k].haveBusRequest
    ensures var g0, r := Granted(cfg, b, k), b.caches[k].busRequest.value;
            CopiesIn(g0.caches, k, r.lineSet, r.lineTag, |b.caches|) == CopiesIn(b.caches, k, r.lineSet, r.lineTag, |b.caches|)
  {
    var g0, r := Granted(cfg, b, k), b.caches[k].busRequest.value;
    hide St, CopiesIn;
    SameCopiesIn(g0.caches, b.caches, k, r.lineSet, r.lineTag, |b.caches|);
  }

  // ---------------------------------------------------------------------
  // One whole job
  // ---------------------------------------------------------------------

  /** The other caches' copies of the job's line. */
  function OtherCopies(cfg: Config, s: System, job: Job): Copies
    requires cfg.Valid() && CachesShaped(cfg, s)
  {
    CopiesIn(s.caches, job.threadId, SetOf(cfg, job.address), TagOf(cfg, job.address), |s.caches|)
  }

  function ChoiceOf(cfg: Config, s: System, job: Job): Choice
    requires cfg.Valid() && job.threadId < |s.caches|
  {
    ChoiceFor(cfg, s.caches[job.threadId].sets, job)
  }

  /** The job's set has to lose a modified line for its own. */
  predicate HasDirtyFull(cfg: Config, s: System, job: Job)
    requires cfg.Valid() && CachesShaped(cfg, s) && job.threadId < |s.caches|
  {
    DirtyFull(cfg.numLinesInSet, s.caches[job.threadId].sets[SetOf(cfg, job.address)], TagOf(cfg, job.address))
  }

  /** The job's own copy is owned when its transaction completes. */
  predicate OwnsUnmarked(cfg: Config, s: System, job: Job)
    requires cfg.Valid() && CachesShaped(cfg, s) && job.threadId < |s.caches|
  {
    ChoiceOf(cfg, s, job) == OnBus && St(s.caches[job.threadId], SetOf(cfg, job.address), TagOf(cfg, job.address)) == Owned
  }

  /** What a job adds to every counter: `copies` are the other caches' copies of its line,
      `evicts` says that a modified line has to make room, `owns` that its own copy is owned. */
  function ChargesOf(p: Protocol, job: Job, choice: Choice, copies: Copies, evicts: bool, owns: bool): Stats {
    var bus := choice.UsesBus();
    Stats(
      numHit := One(choice == PlainHit || choice == MarkingHit || choice == Upgrading),
      numMiss := One(choice == OnBus),
      numFlush := One(choice == OnBus && job.IsWrite() && evicts) + (if bus && p != MOESI then copies.modified else 0),
      numEvict := One(bus && evicts),
      numCacheShare :=
        if p == MOESI && bus then copies.modified + copies.owned + copies.exclusive
        else One(p == MESI && bus && copies.modified + copies.exclusive + copies.shared > 0),
      numMainMemoryUses :=
        if !bus then 0
        else
          match p
          case MSI => copies.modified + 1
          case MESI =>
            copies.modified + One(copies.shared + copies.exclusive == 0)
            + One(job.IsRead() && copies.modified + copies.shared + copies.exclusive == 0)
          case MOESI => One(copies.modified + copies.owned + copies.exclusive == 0 && !(job.IsWrite() && owns)),
      numExclusiveToModifiedTransitions := One(choice == MarkingHit),
      numBusRequests := One(bus))
  }

  /** The same, told by the lines before the job. */
  function Charges(cfg: Config, s: System, job: Job): Stats
    requires cfg.Valid() && CachesShaped(cfg, s) && job.threadId < |s.caches|
  {
    ChargesOf(cfg.protocol, job, ChoiceOf(cfg, s, job), OtherCopies(cfg, s, job), HasDirtyFull(cfg, s, job), OwnsUnmarked(cfg, s, job))
  }

  function Sum(a: Stats, b: Stats): Stats {
    Stats(a.numHit + b.numHit, a.numMiss + b.numMiss, a.numFlush + b.numFlush, a.numEvict + b.numEvict,
          a.numCacheShare + b.numCacheShare, a.numMainMemoryUses + b.numMainMemoryUses,
          a.numExclusiveToModifiedTransitions + b.numExclusiveToModifiedTransitions, a.numBusRequests + b.numBusRequests)
  }

  lemma ReadyIsTidy(cfg: Config, addresses: set<nat>, s: System, i: nat)
    requires cfg.Valid() && Ready(false, cfg, addresses, s) && i < |s.caches|
    ensures Quiescent(cfg, s) && Tidy(cfg, s.caches[i].sets)
  {
    var c := s.caches[i];
    assert GoodCache(cfg, addresses, c);
    forall k | 0 <= k < |c.sets|
      ensures |c.sets[k]| <= cfg.numLinesInSet && DistinctTags(c.sets[k])
    {
      assert LinesFrom(cfg, addresses, k, c.sets[k]);
    }
  }

  /** The counters and the request's cost once the job is decided. */
  lemma TakenIsCharged(cfg: Config, addresses: set<nat>, s: System, job: Job)
    requires cfg.Valid() && Ready(false, cfg, addresses, s) && job.threadId < |s.caches|
    ensures Quiescent(cfg, s)
    ensures var o, choice := Taken(cfg, s, job), ChoiceOf(cfg, s, job);
            && (o.cache.haveBusRequest <==> choice.UsesBus())
            && (choice.UsesBus() ==> o.cache.busRequest.Some? && o.cache.busRequest.value.cycleCost == CostFor(cfg, s.caches[job.threadId].sets, job))
            && o.stats == Counted(s.stats, choice).(
                            numFlush := s.stats.numFlush + One(choice == OnBus && job.IsWrite() && HasDirtyFull(cfg, s, job)))
  {
    ReadyIsTidy(cfg, addresses, s, job.threadId);
    hide Ready, Quiescent, Taken, ChoiceFor, OneAccess, SetOf, TagOf, CostFor, Tidy;
    TakenChoice(cfg, s, job);
    TakenAccess(cfg, s, job);
    if job.IsRead() || job.IsWrite() {
      DecidedCost(cfg, s.caches[job.threadId].sets, job, Taken(cfg, s, job), s.stats);
    } else {
      DroppedIs(cfg, s.caches[job.threadId].sets, job);
    }
  }

  lemma DroppedIs(cfg: Config, sets: seq<LineSet>, job: Job)
    requires cfg.Valid()
    ensures ChoiceFor(cfg, sets, job) == Dropped <==> !job.IsRead() && !job.IsWrite()
  {
    hide TagInState, TagOf;
  }

  /** The bus once the job's request is granted, told by the lines before the job. */
  lemma StartIsTallied(cfg: Config, addresses: set<nat>, s: System, job: Job)
    requires cfg.Valid() && Ready(false, cfg, addresses, s) && job.threadId < |s.caches|
    requires Quiescent(cfg, s) && Taken(cfg, s, job).cache.haveBusRequest
    ensures var g, copies, cost := Started(cfg, s, job), OtherCopies(cfg, s, job), CostFor(cfg, s.caches[job.threadId].sets, job);
            var a := AfterSnoops(cfg.protocol, copies, Taken(cfg, s, job).stats);
            && g.bus.endCycle - g.bus.startCycle == cost + Shift(cfg, cost, copies)
            && (g.bus.isShared <==> Supplied(cfg.protocol, copies))
            && g.stats == a.(numBusRequests := a.numBusRequests + 1,
                             numMainMemoryUses := a.numMainMemoryUses + One(cfg.protocol == MESI && Clean(copies) == 0))
  {
    hide *;
    BegunFacts(cfg, s, job);
    TakenIsCharged(cfg, addresses, s, job);
    RequestIsForLine(cfg, s, job);
    BegunCopies(cfg, s, job);
    BusIffChosen(cfg, s, job);
    ChosenIs(cfg, s, job);
    GrantIsTallied(cfg, Begun(cfg, s, job), job.threadId);
  }

  lemma ChosenIs(cfg: Config, s: System, job: Job)
    requires cfg.Valid() && job.threadId < |s.caches|
    ensures ChoiceOf(cfg, s, job) == ChoiceFor(cfg, s.caches[job.threadId].sets, job)
  {
  }

  lemma BegunFacts(cfg: Config, s: System, job: Job)
    requires cfg.Valid() && Quiescent(cfg, s) && job.threadId < |s.caches| && Taken(cfg, s, job).cache.haveBusRequest
    ensures var b, k := Begun(cfg, s, job), job.threadId;
            && CachesShaped(cfg, b) && CachesShaped(cfg, s) && Started(cfg, s, job) == NextTransaction(cfg, b)
            && |b.caches| == |s.caches| && FirstRequester(b.caches) == k && !b.bus.isShared
            && b.caches[k] == Taken(cfg, s, job).cache && b.stats == Taken(cfg, s, job).stats
            && |s.caches[k].sets| == cfg.NumSets()
  {
    BegunShape(cfg, s, job);
    hide Begun, NextTransaction, Taken, FirstRequester;
    assert Shaped(cfg, s.caches[job.threadId]);
  }

  lemma RequestIsForLine(cfg: Config, s: System, job: Job)
    requires cfg.Valid() && Quiescent(cfg, s) && job.threadId < |s.caches| && Taken(cfg, s, job).cache.haveBusRequest
    ensures var q := Taken(cfg, s, job).cache.busRequest;
            q.Some? && q.value.lineSet == SetOf(cfg, job.address) && q.value.lineTag == TagOf(cfg, job.address)
  {
    hide Taken, ChoiceFor, SetOf, TagOf;
    TakenChoice(cfg, s, job);
  }

  lemma BegunCopies(cfg: Config, s: System, job: Job)
    requires cfg.Valid() && Quiescent(cfg, s) && job.threadId < |s.caches|
    ensures var b, k, tag := Begun(cfg, s, job), SetOf(cfg, job.address), TagOf(cfg, job.address);
            && |b.caches| == |s.caches| && (forall j :: 0 <= j < |b.caches| ==> k < |b.caches[j].sets|)
            && CopiesIn(b.caches, job.threadId, k, tag, |b.caches|) == OtherCopies(cfg, s, job)
  {
    var b, k, tag := Begun(cfg, s, job), SetOf(cfg, job.address), TagOf(cfg, job.address);
    assert |b.caches| == |s.caches| && forall j :: 0 <= j < |b.caches| ==> |b.caches[j].sets| == |s.caches[j].sets| == cfg.NumSets();
    hide Begun, Taken, Quiescent, St, CopiesIn, SetOf, TagOf;
    forall j | 0 <= j < |s.caches| && j != job.threadId
      ensures St(b.caches[j], k, tag) == St(s.caches[j], k, tag)
    {
      SameCopyAtStart(cfg, s, job, j, k, tag);
    }
    SameCopiesIn(b.caches, s.caches, job.threadId, k, tag, |s.caches|);
  }

  /** The set the job's line goes to, seen at completion. */
  lemma InstalledCopy(cfg: Config, addresses: set<nat>, s: System, job: Job)
    requires cfg.Valid() && Ready(false, cfg, addresses, s) && job.threadId < |s.caches| && Quiescent(cfg, s)
    requires ChoiceOf(cfg, s, job).UsesBus()
    ensures var u, tag := SetAtRequest(cfg, s, job), TagOf(cfg, job.address);
            && (StateIn(Installed(cfg, u, job), tag) == Owned <==> OwnsUnmarked(cfg, s, job))
            && (NeedToEvict(cfg, u, tag) <==> HasDirtyFull(cfg, s, job))
  {
    var k, tag := SetOf(cfg, job.address), TagOf(cfg, job.address);
    var o, u := Taken(cfg, s, job), SetAtRequest(cfg, s, job);
    ReadyIsTidy(cfg, addresses, s, job.threadId);
    hide Ready, Quiescent, ChoiceFor, Installed, SetOf, TagOf, Taken, ChoiceMade, NeedToEvict, Find;
    TakenChoice(cfg, s, job);
    DecidingKeepsDirtyFull(cfg, s.caches[job.threadId].sets, job, o, s.stats);
    SetAtRequestIs(cfg, s, job);
    DirtyEvictionIs(cfg, u, tag);
    TakenView(cfg, s, job);
    TakenTidy(cfg, addresses, s, job);
    var victim := InstallMoves(cfg, u, job);
    hide SetAtRequest, HasLine, Tidy, SameLines, StateIn;
    assert St(o.cache, k, tag) == MarkedState(ChoiceOf(cfg, s, job), true, s.caches[job.threadId], k, tag);
  }

  lemma TakenTidy(cfg: Config, addresses: set<nat>, s: System, job: Job)
    requires cfg.Valid() && Ready(false, cfg, addresses, s) && job.threadId < |s.caches| && Quiescent(cfg, s)
    ensures DistinctTags(SetAtRequest(cfg, s, job)) && |SetAtRequest(cfg, s, job)| <= cfg.numLinesInSet
  {
    ReadyIsTidy(cfg, addresses, s, job.threadId);
    hide Ready, Quiescent, ChoiceFor, SetOf, TagOf, Taken, St, Has;
    TakenView(cfg, s, job);
    var k := SetOf(cfg, job.address);
    SetAtRequestIs(cfg, s, job);
    SameLinesSameSize(s.caches[job.threadId].sets[k], SetAtRequest(cfg, s, job));
  }

  /** Memory uses counted at completion. */
  function DoneUses(p: Protocol, job: Job, copies: Copies, owns: bool): nat {
    match p
    case MSI => 1
    case MESI => One(job.IsRead() && copies.modified + copies.shared + copies.exclusive == 0)
    case MOESI => One(copies.modified + copies.owned + copies.exclusive == 0 && !(job.IsWrite() && owns))
  }

  /** The counters of a completion, told without the flag. */
  lemma DoneIsCharged(cfg: Config, job: Job, copies: Copies, st: State, a: Stats)
    requires job.IsRead() || job.IsWrite()
    ensures DoneStats(cfg.protocol, job, Supplied(cfg.protocol, copies), st, a)
            == a.(numCacheShare := a.numCacheShare + One(cfg.protocol == MESI && copies.modified + copies.exclusive + copies.shared > 0),
                  numMainMemoryUses := a.numMainMemoryUses + DoneUses(cfg.protocol, job, copies, st == Owned))
  {
  }

  lemma BusJobEnds(cfg: Config, addresses: set<nat>, s: System, job: Job)
    requires cfg.Valid() && Ready(false, cfg, addresses, s) && job.threadId < |s.caches| && Quiescent(cfg, s)
    requires Taken(cfg, s, job).cache.haveBusRequest
    ensures var g, u, tag := Started(cfg, s, job), SetAtRequest(cfg, s, job), TagOf(cfg, job.address);
            RunJob(cfg, s, job).stats
            == DoneStats(cfg.protocol, job, g.bus.isShared, StateIn(Installed(cfg, u, job), tag),
                         g.stats.(numEvict := g.stats.numEvict + One(NeedToEvict(cfg, u, tag))))
  {
    hide Started, Taken, RunJob, Begun, DoneSet, DoneStats, Installed, NeedToEvict, SetOf, TagOf, Ready, Quiescent;
    BusJobStats(cfg, s, job);
    SetAtRequestIs(cfg, s, job);
  }

  /** Decision, broadcast and completion together. */
  lemma ChargesAddUp(p: Protocol, job: Job, choice: Choice, copies: Copies, evicts: bool, owns: bool, a: Stats, t: Stats, g: Stats, e: Stats)
    requires choice.UsesBus() && (job.IsRead() || job.IsWrite())
    requires t == Counted(a, choice).(numFlush := a.numFlush + One(choice == OnBus && job.IsWrite() && evicts))
    requires var b := AfterSnoops(p, copies, t);
             g == b.(numBusRequests := b.numBusRequests + 1,
                     numMainMemoryUses := b.numMainMemoryUses + One(p == MESI && Clean(copies) == 0))
    requires e == g.(numEvict := g.numEvict + One(evicts),
                     numCacheShare := g.numCacheShare + One(p == MESI && copies.modified + copies.exclusive + copies.shared > 0),
                     numMainMemoryUses := g.numMainMemoryUses + DoneUses(p, job, copies, owns))
    ensures e == Sum(a, ChargesOf(p, job, choice, copies, evicts, owns))
  {
  }

  lemma HitIsCharged(p: Protocol, job: Job, choice: Choice, copies: Copies, evicts: bool, owns: bool, a: Stats, e: Stats)
    requires !choice.UsesBus()
    requires e == Counted(a, choice).(numFlush := a.numFlush)
    ensures e == Sum(a, ChargesOf(p, job, choice, copies, evicts, owns))
  {
  }

  lemma BusJobIsCharged(cfg: Config, addresses: set<nat>, s: System, job: Job)
    requires cfg.Valid() && Ready(false, cfg, addresses, s) && job.threadId < |s.caches| && Quiescent(cfg, s) && CachesShaped(cfg, s)
    requires Taken(cfg, s, job).cache.haveBusRequest
    ensures ChoiceOf(cfg, s, job).UsesBus() && (job.IsRead() || job.IsWrite())
    ensures var g, e, copies := Started(cfg, s, job).stats, RunJob(cfg, s, job).stats, OtherCopies(cfg, s, job);
            e == g.(numEvict := g.numEvict + One(HasDirtyFull(cfg, s, job)),
                    numCacheShare := g.numCacheShare + One(cfg.protocol == MESI && copies.modified + copies.exclusive + copies.shared > 0),
                    numMainMemoryUses := g.numMainMemoryUses + DoneUses(cfg.protocol, job, copies, OwnsUnmarked(cfg, s, job)))
  {
    hide *;
    TakenIsCharged(cfg, addresses, s, job);
    BusIsAccess(cfg, s, job);
    StartIsTallied(cfg, addresses, s, job);
    InstalledCopy(cfg, addresses, s, job);
    BusJobEnds(cfg, addresses, s, job);
    var g, u, tag, copies := Started(cfg, s, job), SetAtRequest(cfg, s, job), TagOf(cfg, job.address), OtherCopies(cfg, s, job);
    DoneIsCharged(cfg, job, copies, StateIn(Installed(cfg, u, job), tag),
                  g.stats.(numEvict := g.stats.numEvict + One(NeedToEvict(cfg, u, tag))));
  }

  lemma QuietIsShaped(cfg: Config, s: System)
    requires Quiescent(cfg, s)
    ensures CachesShaped(cfg, s)
  {
  }

  /** Every counter after a whole job. */
  lemma JobIsCharged(cfg: Config, addresses: set<nat>, s: System, job: Job)
    requires cfg.Valid() && Ready(false, cfg, addresses, s) && job.threadId < |s.caches|
    ensures Quiescent(cfg, s) && CachesShaped(cfg, s) && RunJob(cfg, s, job).stats == Sum(s.stats, Charges(cfg, s, job))
  {
    hide *;
    TakenIsCharged(cfg, addresses, s, job);
    QuietIsShaped(cfg, s);
    ChargesIs(cfg, s, job);
    var t, choice, copies := Taken(cfg, s, job), ChoiceOf(cfg, s, job), OtherCopies(cfg, s, job);
    var evicts, owns := HasDirtyFull(cfg, s, job), OwnsUnmarked(cfg, s, job);
    if t.cache.haveBusRequest {
      StartIsTallied(cfg, addresses, s, job);
      BusJobIsCharged(cfg, addresses, s, job);
      ChargesAddUp(cfg.protocol, job, choice, copies, evicts, owns, s.stats, t.stats, Started(cfg, s, job).stats, RunJob(cfg, s, job).stats);
    } else {
      NoBusJobStats(cfg, s, job);
      NotCounted(s.stats, choice);
      HitIsCharged(cfg.protocol, job, choice, copies, evicts, owns, s.stats, t.stats);
    }
  }

  lemma NotCounted(a: Stats, choice: Choice)
    ensures !choice.UsesBus() ==> choice != OnBus
    ensures One(false) == 0
  {
  }

  lemma ChargesIs(cfg: Config, s: System, job: Job)
    requires cfg.Valid() && CachesShaped(cfg, s) && job.threadId < |s.caches|
    ensures Charges(cfg, s, job)
            == ChargesOf(cfg.protocol, job, ChoiceOf(cfg, s, job), OtherCopies(cfg, s, job), HasDirtyFull(cfg, s, job), OwnsUnmarked(cfg, s, job))
  {
    hide ChargesOf;
  }

  lemma BusIsAccess(cfg: Config, s: System, job: Job)
    requires cfg.Valid() && Quiescent(cfg, s) && job.threadId < |s.caches| && Taken(cfg, s, job).cache.haveBusRequest
    ensures job.IsRead() || job.IsWrite()
  {
    hide Taken, Quiescent;
    TakenAccess(cfg, s, job);
  }

  // ---------------------------------------------------------------------
  // How long a job takes
  // ---------------------------------------------------------------------

  /** The cycles of a job after the one that brings it in, told by the lines before it. */
  function JobTime(cfg: Config, s: System, job: Job): nat
    requires cfg.Valid() && CachesShaped(cfg, s) && job.threadId < |s.caches|
  {
    var choice, copies, cost := ChoiceOf(cfg, s, job), OtherCopies(cfg, s, job), CostFor(cfg, s.caches[job.threadId].sets, job);
    var mem, resp := cfg.memoryResponseCycleCost, cfg.cacheResponseCycleCost;
    if choice == Dropped then 0
    else if !choice.UsesBus() then Max(1, cfg.cacheHitCycleCost)
    else
      match cfg.protocol
      case MSI => Max(1, cost + copies.modified * mem)
      case MESI => Max(1, cost + copies.modified * resp - (if copies.shared + copies.exclusive > 0 then mem - resp else 0))
      case MOESI =>
        Max(1, if cost == cfg.cacheHitCycleCost then cost
               else cost - (copies.modified + copies.owned + copies.exclusive) * (mem - resp))
  }

  lemma ShiftIs(cfg: Config, cost: nat, copies: Copies, d: int)
    requires cfg.Valid() && d == cost + Shift(cfg, cost, copies)
    ensures var mem, resp := cfg.memoryResponseCycleCost, cfg.cacheResponseCycleCost;
            d == match cfg.protocol
                 case MSI => cost + copies.modified * mem
                 case MESI => cost + copies.modified * resp - (if copies.shared + copies.exclusive > 0 then mem - resp else 0)
                 case MOESI =>
                   if cost == cfg.cacheHitCycleCost then cost
                   else cost - (copies.modified + copies.owned + copies.exclusive) * (mem - resp)
  {
  }

  /** The interpreter's service cost is the job's time. */
  lemma JobTimeIs(cfg: Config, addresses: set<nat>, s: System, job: Job)
    requires cfg.Valid() && Ready(false, cfg, addresses, s) && job.threadId < |s.caches|
    ensures Quiescent(cfg, s) && CachesShaped(cfg, s) && ServiceCost(cfg, s, job) == JobTime(cfg, s, job)
  {
    hide Ready, Quiescent, Started, Taken, OtherCopies, ChoiceFor, CostFor, Shift;
    TakenIsCharged(cfg, addresses, s, job);
    QuietIsShaped(cfg, s);
    TakenDecides(cfg, s, job);
    DroppedIs(cfg, s.caches[job.threadId].sets, job);
    if Taken(cfg, s, job).cache.haveBusRequest {
      StartIsTallied(cfg, addresses, s, job);
      var g, copies, cost := Started(cfg, s, job), OtherCopies(cfg, s, job), CostFor(cfg, s.caches[job.threadId].sets, job);
      ShiftIs(cfg, cost, copies, g.bus.endCycle - g.bus.startCycle);
    }
  }

  // ---------------------------------------------------------------------
  // Whole traces
  // ---------------------------------------------------------------------

  /** The charges of all the jobs of a trace. */
  function TraceCharges(cfg: Config, trace: seq<Job>): Stats
    requires cfg.Valid() && JobsInRange(cfg, trace)
  {
    if |trace| == 0 then NO_STATS
    else
      var n := |trace| - 1;
      Sum(TraceCharges(cfg, trace[..n]), Charges(cfg, RunTrace(cfg, trace[..n]), trace[n]))
  }

  /** The time of all the jobs of a trace, each with the cycle that brings it in. */
  function TraceTime(cfg: Config, trace: seq<Job>): nat
    requires cfg.Valid() && JobsInRange(cfg, trace)
  {
    if |trace| == 0 then 0
    else
      var n := |trace| - 1;
      TraceTime(cfg, trace[..n]) + JobTime(cfg, RunTrace(cfg, trace[..n]), trace[n]) + 1
  }

  /** Between the jobs of a trace the machine is ready. */
  lemma PrefixIsReady(cfg: Config, trace: seq<Job>, n: nat)
    requires cfg.Valid() && JobsInRange(cfg, trace) && n <= |trace|
    ensures Ready(false, cfg, JobAddresses(trace), RunTrace(cfg, trace[..n]))
  {
    assert forall j :: j in trace[..n] ==> j in trace;
    RunTraceIsReady(NeedsCoherence(cfg), cfg, JobAddresses(trace), trace[..n]);
    ReadyWithoutCoherence(NeedsCoherence(cfg), cfg, JobAddresses(trace), RunTrace(cfg, trace[..n]));
  }

  lemma LastJob(cfg: Config, trace: seq<Job>)
    requires cfg.Valid() && JobsInRange(cfg, trace) && |trace| > 0
    ensures var n := |trace| - 1; RunTrace(cfg, trace) == RunJob(cfg, RunTrace(cfg, trace[..n]), trace[n])
  {
    hide RunJob, Ready, Quiescent, Init;
  }

  /** Every counter, at the end of every trace, is the sum of what the jobs charged. */
  lemma {:induction false} CountersAreExact(cfg: Config, trace: seq<Job>)
    requires cfg.Valid() && JobsInRange(cfg, trace)
    ensures RunTrace(cfg, trace).stats == TraceCharges(cfg, trace)
  {
    if |trace| > 0 {
      var n := |trace| - 1;
      CountersAreExact(cfg, trace[..n]);
      LastJob(cfg, trace);
      PrefixIsReady(cfg, trace, n);
      JobIsCharged(cfg, JobAddresses(trace), RunTrace(cfg, trace[..n]), trace[n]);
      hide RunTrace, RunJob, Charges, Ready, Quiescent;
    }
  }

  /** The loop has run for the time of all the jobs. */
  lemma {:induction false} ClockIsExact(cfg: Config, trace: seq<Job>)
    requires cfg.Valid() && JobsInRange(cfg, trace)
    ensures RunTrace(cfg, trace).cycle == TraceTime(cfg, trace)
  {
    if |trace| == 0 {
      ClockIsTotalCost(cfg, trace);
    } else {
      var n := |trace| - 1;
      ClockIsExact(cfg, trace[..n]);
      ClockIsTotalCost(cfg, trace);
      ClockIsTotalCost(cfg, trace[..n]);
      PrefixIsReady(cfg, trace, n);
      JobTimeIs(cfg, JobAddresses(trace), RunTrace(cfg, trace[..n]), trace[n]);
      hide RunTrace, ServiceCost, JobTime, Ready, Quiescent;
    }
  }

  // ---------------------------------------------------------------------
  // Shares and evictions
  // ---------------------------------------------------------------------

  /** Cache `j` holds the line in a state from which the protocol counts a share. */
  predicate CanShare(p: Protocol, st: State) {
    match p
    case MSI => false
    case MESI => st == Shared || st == Exclusive || st == Modified
    case MOESI => st == Modified || st == Owned || st == Exclusive
  }

  /** Some cache among the first `n`, other than `cc`, could supply the line. */
  predicate SharerIn(p: Protocol, caches: seq<CacheState>, cc: int, k: nat, tag: nat, n: nat)
    requires n <= |caches| && forall j :: 0 <= j < |caches| ==> k < |caches[j].sets|
  {
    exists j :: 0 <= j < n && j != cc && CanShare(p, St(caches[j], k, tag))
  }

  /** The job goes to the bus while some other cache could supply its line. */
  predicate FindsSharer(cfg: Config, s: System, job: Job)
    requires cfg.Valid() && CachesShaped(cfg, s) && job.threadId < |s.caches|
  {
    && ChoiceOf(cfg, s, job).UsesBus()
    && SharerIn(cfg.protocol, s.caches, job.threadId, SetOf(cfg, job.address), TagOf(cfg, job.address), |s.caches|)
  }

  /** The bus jobs of the trace that find a sharer. */
  function SharedJobs(cfg: Config, trace: seq<Job>): nat
    requires cfg.Valid() && JobsInRange(cfg, trace)
  {
    if |trace| == 0 then 0
    else
      var n := |trace| - 1;
      SharedJobs(cfg, trace[..n]) + One(FindsSharer(cfg, RunTrace(cfg, trace[..n]), trace[n]))
  }

  /** The bus jobs of the trace, reads included, that find their set at capacity with every
      line modified and their own line missing. */
  function DirtyEvictions(cfg: Config, trace: seq<Job>): nat
    requires cfg.Valid() && JobsInRange(cfg, trace)
  {
    if |trace| == 0 then 0
    else
      var n := |trace| - 1;
      var s, job := RunTrace(cfg, trace[..n]), trace[n];
      DirtyEvictions(cfg, trace[..n]) + One(ChoiceOf(cfg, s, job).UsesBus() && HasDirtyFull(cfg, s, job))
  }

  lemma SharerStep(p: Protocol, caches: seq<CacheState>, cc: int, k: nat, tag: nat, n: nat)
    requires n < |caches| && forall j :: 0 <= j < |caches| ==> k < |caches[j].sets|
    ensures SharerIn(p, caches, cc, k, tag, n + 1)
            <==> SharerIn(p, caches, cc, k, tag, n) || (n != cc && CanShare(p, St(caches[n], k, tag)))
    ensures !SharerIn(p, caches, cc, k, tag, 0)
  {
    hide St, CanShare;
    if SharerIn(p, caches, cc, k, tag, n) {
      var j :| 0 <= j < n && j != cc && CanShare(p, St(caches[j], k, tag));
      assert 0 <= j < n + 1;
    }
  }

  lemma SharersDiffer(p: Protocol, caches: seq<CacheState>, cc: int, k: nat, tag: nat, n: nat)
    requires n < |caches| && forall j :: 0 <= j < |caches| ==> k < |caches[j].sets|
    requires p == MOESI && SharerIn(p, caches, cc, k, tag, n)
    requires forall i, j :: 0 <= i < j < |caches| ==> Compatible(p, St(caches[i], k, tag), St(caches[j], k, tag))
    ensures !CanShare(p, St(caches[n], k, tag))
  {
    hide St;
    var j :| 0 <= j < n && j != cc && CanShare(p, St(caches[j], k, tag));
    assert Compatible(p, St(caches[j], k, tag), St(caches[n], k, tag));
  }

  /** Copies counted and a sharer looked for. */
  predicate Held(p: Protocol, copies: Copies, held: bool) {
    && (p == MESI ==> (copies.modified + copies.exclusive + copies.shared > 0 <==> held))
    && (p == MOESI ==> copies.modified + copies.owned + copies.exclusive == One(held))
  }

  lemma SharesStep(p: Protocol, copies: Copies, held: bool, st: State)
    requires Held(p, copies, held) && (p == MOESI && held ==> !CanShare(p, st))
    ensures Held(p, copies.Plus(st), held || CanShare(p, st))
  {
  }

  /** Counting copies against looking for one; owners are never counted twice. */
  lemma {:induction false} CopiesAreHeld(p: Protocol, caches: seq<CacheState>, cc: int, k: nat, tag: nat, n: nat)
    requires n <= |caches| && forall j :: 0 <= j < |caches| ==> k < |caches[j].sets|
    requires p == MOESI ==> forall i, j :: 0 <= i < j < |caches| ==> Compatible(p, St(caches[i], k, tag), St(caches[j], k, tag))
    ensures Held(p, CopiesIn(caches, cc, k, tag, n), SharerIn(p, caches, cc, k, tag, n))
  {
    hide St, Held, CanShare, SharerIn, Compatible;
    if n == 0 {
      NobodyHolds(p, caches, cc, k, tag, Copies(0, 0, 0, 0));
    } else {
      var copies, st := CopiesIn(caches, cc, k, tag, n - 1), St(caches[n - 1], k, tag);
      CopiesAreHeld(p, caches, cc, k, tag, n - 1);
      SharerStep(p, caches, cc, k, tag, n - 1);
      if n - 1 != cc {
        if p == MOESI && SharerIn(p, caches, cc, k, tag, n - 1) {
          SharersDiffer(p, caches, cc, k, tag, n - 1);
        }
        SharesStep(p, copies, SharerIn(p, caches, cc, k, tag, n - 1), st);
      }
    }
  }

  lemma NobodyHolds(p: Protocol, caches: seq<CacheState>, cc: int, k: nat, tag: nat, none: Copies)
    requires forall j :: 0 <= j < |caches| ==> k < |caches[j].sets|
    requires none.modified == none.owned == none.exclusive == none.shared == 0
    ensures Held(p, none, SharerIn(p, caches, cc, k, tag, 0))
  {
  }

  lemma PairwiseAt(cfg: Config, addresses: set<nat>, s: System, k: nat, tag: nat)
    requires cfg.Valid() && Ready(true, cfg, addresses, s) && k < cfg.NumSets()
    ensures forall i :: 0 <= i < |s.caches| ==> k < |s.caches[i].sets|
    ensures forall i, j :: 0 <= i < j < |s.caches| ==> Compatible(cfg.protocol, St(s.caches[i], k, tag), St(s.caches[j], k, tag))
  {
    hide GoodCache, Compatible, BusServes, OthersAgree, Idle;
  }

  /** A job counts a share exactly if it finds a sharer. */
  lemma JobShares(cfg: Config, addresses: set<nat>, s: System, job: Job)
    requires cfg.Valid() && Ready(cfg.protocol == MOESI, cfg, addresses, s) && CachesShaped(cfg, s) && job.threadId < |s.caches|
    ensures Charges(cfg, s, job).numCacheShare == One(FindsSharer(cfg, s, job))
  {
    var k, tag := SetOf(cfg, job.address), TagOf(cfg, job.address);
    hide Ready, ChoiceFor, CopiesIn, St, SetOf, TagOf;
    if cfg.protocol == MOESI {
      PairwiseAt(cfg, addresses, s, k, tag);
    }
    hide Compatible, SharerIn;
    CopiesAreHeld(cfg.protocol, s.caches, job.threadId, k, tag, |s.caches|);
  }

  /** At the end of every trace the share counter is the number of bus jobs that found the line
      shared, exclusive or modified elsewhere under MESI; modified, owned or exclusive elsewhere
      under MOESI; and it is zero under MSI. */
  lemma {:induction false} SharesAreCounted(cfg: Config, trace: seq<Job>)
    requires cfg.Valid() && JobsInRange(cfg, trace)
    ensures RunTrace(cfg, trace).stats.numCacheShare == SharedJobs(cfg, trace)
    ensures cfg.protocol == MSI ==> RunTrace(cfg, trace).stats.numCacheShare == 0
  {
    hide RunTrace, Charges, Ready, Quiescent, ChoiceOf, Sum, FindsSharer, TraceCharges;
    CountersAreExact(cfg, trace);
    if |trace| == 0 {
      NothingCharged(cfg, trace);
    } else {
      var n := |trace| - 1;
      SharesAreCounted(cfg, trace[..n]);
      CountersAreExact(cfg, trace[..n]);
      QuietIsShaped(cfg, RunTrace(cfg, trace[..n]));
      TraceChargesStep(cfg, trace);
      assert forall j :: j in trace[..n] ==> j in trace;
      RunTraceIsReady(NeedsCoherence(cfg), cfg, JobAddresses(trace), trace[..n]);
      SumAddsUp(TraceCharges(cfg, trace[..n]), Charges(cfg, RunTrace(cfg, trace[..n]), trace[n]));
      JobShares(cfg, JobAddresses(trace), RunTrace(cfg, trace[..n]), trace[n]);
      MsiNeverShares(cfg, RunTrace(cfg, trace[..n]), trace[n]);
    }
  }

  lemma MsiNeverShares(cfg: Config, s: System, job: Job)
    requires cfg.Valid() && CachesShaped(cfg, s) && job.threadId < |s.caches|
    ensures cfg.protocol == MSI ==> !FindsSharer(cfg, s, job)
  {
    hide ChoiceOf;
  }

  lemma JobEvicts(cfg: Config, s: System, job: Job)
    requires cfg.Valid() && CachesShaped(cfg, s) && job.threadId < |s.caches|
    ensures Charges(cfg, s, job).numEvict == One(ChoiceOf(cfg, s, job).UsesBus() && HasDirtyFull(cfg, s, job))
  {
    hide ChoiceOf, HasDirtyFull, OtherCopies, OwnsUnmarked;
  }

  lemma SumAddsUp(a: Stats, b: Stats)
    ensures Sum(a, b).numEvict == a.numEvict + b.numEvict
    ensures Sum(a, b).numCacheShare == a.numCacheShare + b.numCacheShare
  {
  }

  lemma TraceChargesStep(cfg: Config, trace: seq<Job>)
    requires cfg.Valid() && JobsInRange(cfg, trace) && |trace| > 0
    ensures var n := |trace| - 1;
            TraceCharges(cfg, trace) == Sum(TraceCharges(cfg, trace[..n]), Charges(cfg, RunTrace(cfg, trace[..n]), trace[n]))
  {
    hide RunTrace, Charges, Sum, Quiescent;
  }

  /** And the eviction counter is the number of bus jobs, reads and writes alike, whose set was
      at capacity, entirely modified and without their line. */
  lemma {:induction false} EvictionsAreCounted(cfg: Config, trace: seq<Job>)
    requires cfg.Valid() && JobsInRange(cfg, trace)
    ensures RunTrace(cfg, trace).stats.numEvict == DirtyEvictions(cfg, trace)
  {
    hide RunTrace, ChoiceOf, HasDirtyFull, Charges, Sum, Quiescent, TraceCharges;
    CountersAreExact(cfg, trace);
    if |trace| == 0 {
      NothingCharged(cfg, trace);
    } else {
      var n := |trace| - 1;
      EvictionsAreCounted(cfg, trace[..n]);
      CountersAreExact(cfg, trace[..n]);
      QuietIsShaped(cfg, RunTrace(cfg, trace[..n]));
      TraceChargesStep(cfg, trace);
      JobEvicts(cfg, RunTrace(cfg, trace[..n]), trace[n]);
      SumAddsUp(TraceCharges(cfg, trace[..n]), Charges(cfg, RunTrace(cfg, trace[..n]), trace[n]));
    }
  }

  lemma NothingCharged(cfg: Config, trace: seq<Job>)
    requires cfg.Valid() && |trace| == 0
    ensures JobsInRange(cfg, trace) && TraceCharges(cfg, trace).numEvict == 0 && TraceCharges(cfg, trace).numCacheShare == 0
  {
  }
}
