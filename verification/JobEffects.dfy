/** What one whole job does to line states and counters. */
module JobEffects {
  import opened Constants
  import opened LineSets
  import opened CacheModel
  import opened SystemModel
  import opened Coherence
  import opened Safety
  import opened ServiceTime
  import opened JobRunner
  import opened CycleLoop

  predicate Has(c: CacheState, k: nat, tag: nat)
    requires k < |c.sets|
  {
    HasLine(c.sets[k], tag)
  }

  /** Equal up to timestamps and bookkeeping. */
  ghost predicate SameView(c: CacheState, c': CacheState) {
    && |c.sets| == |c'.sets|
    && (forall k, t {:trigger St(c', k, t)} :: 0 <= k < |c.sets| && 0 <= t ==> St(c', k, t) == St(c, k, t))
    && (forall k, t {:trigger Has(c', k, t)} :: 0 <= k < |c.sets| && 0 <= t ==> Has(c', k, t) == Has(c, k, t))
  }

  /** How a request is decided: dropped, a plain hit, a hit that marks the tag's lines
      modified, the same followed by a bus upgrade, or a plain bus transaction. */
  datatype Choice = Dropped | PlainHit | MarkingHit | Upgrading | OnBus
  {
    predicate Marks() { MarkingHit? || Upgrading? }

    predicate UsesBus() { Upgrading? || OnBus? }
  }

  function ChoiceFor(cfg: Config, sets: seq<LineSet>, job: Job): Choice
    requires cfg.Valid()
  {
    var tag := TagOf(cfg, job.address);
    if job.IsWrite() then
      if cfg.protocol == MOESI then MoesiWrite(sets, tag)
      else if TagInState(sets, tag, Modified) then PlainHit
      else if cfg.protocol == MESI && TagInState(sets, tag, Exclusive) then MarkingHit
      else OnBus
    else if job.IsRead() then
      if TagInState(sets, tag, Modified) || TagInState(sets, tag, Shared)
         || TagInState(sets, tag, Exclusive) || TagInState(sets, tag, Owned) then PlainHit
      else OnBus
    else Dropped
  }

  /** The MOESI write looks for the states in its own order. */
  function MoesiWrite(sets: seq<LineSet>, tag: nat): Choice {
    if TagInState(sets, tag, Invalid) || TagInState(sets, tag, Shared) then OnBus
    else if TagInState(sets, tag, Exclusive) then MarkingHit
    else if TagInState(sets, tag, Modified) then PlainHit
    else if TagInState(sets, tag, Owned) then Upgrading
    else OnBus
  }

  function CommandOf(job: Job): Command {
    if job.IsWrite() then BusRdX else BusRd
  }

  /** The counters a request bumps when it is decided, flushes aside. */
  function Counted(stats: Stats, choice: Choice): Stats {
    match choice
    case Dropped => stats
    case PlainHit => stats.(numHit := stats.numHit + 1)
    case MarkingHit => stats.(numHit := stats.numHit + 1,
                              numExclusiveToModifiedTransitions := stats.numExclusiveToModifiedTransitions + 1)
    case Upgrading => stats.(numHit := stats.numHit + 1)
    case OnBus => stats.(numMiss := stats.numMiss + 1)
  }

  ghost predicate ChoiceMade(cfg: Config, sets: seq<LineSet>, job: Job, o: Outcome, stats: Stats)
    requires cfg.Valid()
  {
    var choice := ChoiceFor(cfg, sets, job);
    && (choice.Marks() ==> Upgrades(false, sets, o.cache.sets) && Marked(sets, o.cache.sets, TagOf(cfg, job.address)))
    && (!choice.Marks() ==> SameStates(sets, o.cache.sets))
    && (o.cache.haveBusRequest <==> choice.UsesBus())
    && (choice.UsesBus() ==>
          && o.cache.busRequest.Some?
          && var r := o.cache.busRequest.value;
             && r.command == CommandOf(job) && r.lineSet == SetOf(cfg, job.address) && r.lineTag == TagOf(cfg, job.address)
             && r.address == job.address
             && (choice == Upgrading ==> r.cycleCost == cfg.cacheHitCycleCost))
    && o.stats.(numFlush := 0) == Counted(stats, choice).(numFlush := 0)
  }

  /** Every line of the tag has become modified, and nothing else has changed. */
  ghost predicate Marked(a: seq<LineSet>, b: seq<LineSet>, tag: nat) {
    && |a| == |b|
    && forall k, t :: 0 <= k < |a| && 0 <= t ==>
                        && Find(b[k], t) == Find(a[k], t)
                        && StateIn(b[k], t) == if t == tag && HasLine(a[k], t) then Modified else StateIn(a[k], t)
  }

  lemma AssignAllMarks(a: seq<LineSet>, b: seq<LineSet>, tag: nat, cycle: nat)
    requires SameStates(a, b)
    ensures Marked(a, AssignAll(b, tag, Modified, cycle), tag)
    ensures Upgrades(false, a, AssignAll(b, tag, Modified, cycle))
  {
    forall k | 0 <= k < |a| {
      AssignSetsOneState(b[k], tag, Modified, cycle);
    }
  }

  lemma ReadChoice(cfg: Config, c: CacheState, stats: Stats, cycle: nat)
    requires cfg.Valid() && Serving(cfg, c) && c.currentJob.value.IsRead()
    ensures ChoiceMade(cfg, c.sets, c.currentJob.value, Read(cfg, c, stats, cycle), stats)
  {
    ReadQueries(cfg, c, cycle);
    hide SameStates, Upgrades, Scanned, TagInState, TagOf, SetOf, Marked;
  }

  lemma WriteMSIChoice(cfg: Config, c: CacheState, stats: Stats, cycle: nat)
    requires cfg.Valid() && cfg.protocol == MSI && Serving(cfg, c) && c.currentJob.value.IsWrite()
    ensures ChoiceMade(cfg, c.sets, c.currentJob.value, WriteMSI(cfg, c, stats, cycle), stats)
  {
    SelfSame(c.sets);
    hide SameStates, Upgrades, Scanned, FirstInState, TagOf, SetOf, Marked;
    QueryAgain(cfg, c, c, Modified, cycle);
  }

  /** The silent upgrade: a hit that marks every line of the tag. */
  lemma ExclusiveHitChoice(cfg: Config, a: seq<LineSet>, c: CacheState, stats: Stats, cycle: nat)
    requires cfg.Valid() && Serving(cfg, c) && c.currentJob.value.IsWrite()
    requires SameStates(a, c.sets) && ChoiceFor(cfg, a, c.currentJob.value) == MarkingHit
    ensures ChoiceMade(cfg, a, c.currentJob.value, ExclusiveHit(cfg, c, stats, cycle), stats)
  {
    AssignAllMarks(a, c.sets, TagOf(cfg, c.currentJob.value.address), cycle);
    hide SameStates, Upgrades, TagInState, TagOf, SetOf, Marked, AssignAll;
  }

  lemma PlainHitChoice(cfg: Config, a: seq<LineSet>, c: CacheState, stats: Stats, cycle: nat)
    requires cfg.Valid() && Serving(cfg, c) && SameStates(a, c.sets) && ChoiceFor(cfg, a, c.currentJob.value) == PlainHit
    ensures ChoiceMade(cfg, a, c.currentJob.value, Hit(cfg, c, stats, cycle), stats)
  {
    hide SameStates, Upgrades, TagInState, TagOf, SetOf, Marked;
  }

  lemma WriteMissChoice(cfg: Config, a: seq<LineSet>, c: CacheState, stats: Stats)
    requires cfg.Valid() && Serving(cfg, c) && c.currentJob.value.IsWrite()
    requires SameStates(a, c.sets) && ChoiceFor(cfg, a, c.currentJob.value) == OnBus
    ensures ChoiceMade(cfg, a, c.currentJob.value, WriteSharedInvalid(cfg, c, stats), stats)
  {
    hide SameStates, Upgrades, TagInState, TagOf, SetOf, Marked, DirtyEviction, TotalMemoryCost;
  }

  lemma WriteMESIChoice(cfg: Config, c: CacheState, stats: Stats, cycle: nat)
    requires cfg.Valid() && cfg.protocol == MESI && Serving(cfg, c) && c.currentJob.value.IsWrite()
    ensures ChoiceMade(cfg, c.sets, c.currentJob.value, WriteMESI(cfg, c, stats, cycle), stats)
  {
    MESIQueries(cfg, c, cycle);
    hide SameStates, TagInState, TagOf, SetOf, ChoiceMade, Hit, ExclusiveHit, WriteSharedInvalid, Scanned;
    var c1 := Queried(cfg, c, Modified, cycle);
    var c2 := Queried(cfg, c1, Exclusive, cycle);
    if LineInState(cfg, c, Modified) {
      PlainHitChoice(cfg, c.sets, c1, stats, cycle);
    } else if LineInState(cfg, c1, Exclusive) {
      ExclusiveHitChoice(cfg, c.sets, c2, stats, cycle);
    } else {
      WriteMissChoice(cfg, c.sets, c2, stats);
    }
  }

  /** The owned line's upgrade: marked now, with a bus transaction still to come. */
  lemma OwnedUpgradeChoice(cfg: Config, a: seq<LineSet>, c: CacheState, stats: Stats, cycle: nat)
    requires cfg.Valid() && Serving(cfg, c) && c.currentJob.value.IsWrite()
    requires SameStates(a, c.sets) && ChoiceFor(cfg, a, c.currentJob.value) == Upgrading
    ensures ChoiceMade(cfg, a, c.currentJob.value, OwnedUpgrade(cfg, c, stats, cycle), stats)
  {
    AssignAllMarks(a, c.sets, TagOf(cfg, c.currentJob.value.address), cycle);
    hide SameStates, Upgrades, TagInState, TagOf, SetOf, Marked, AssignAll;
  }

  /** One more query, which also sees the states before the first. */
  lemma QuerySees(cfg: Config, c0: CacheState, c: CacheState, st: State, cycle: nat)
    requires cfg.Valid() && c.currentJob.Some? && c0.currentJob == c.currentJob && SameStates(c0.sets, c.sets)
    ensures SameStates(c0.sets, Queried(cfg, c, st, cycle).sets)
    ensures LineInState(cfg, c, st) == TagInState(c0.sets, TagOf(cfg, c.currentJob.value.address), st)
  {
    assert |c0.sets| == |c.sets|;
    hide SameStates, Scanned, FirstInState, TagOf;
    QueryAgain(cfg, c0, c, st, cycle);
    SameStatesSameScan(c0.sets, c.sets, TagOf(cfg, c.currentJob.value.address), st);
  }

  lemma WriteUnsharedChoice(cfg: Config, c: CacheState, c2: CacheState, stats: Stats, cycle: nat)
    requires cfg.Valid() && cfg.protocol == MOESI && Serving(cfg, c2) && c2.currentJob.value.IsWrite()
    requires c.currentJob == c2.currentJob && SameStates(c.sets, c2.sets)
    requires var tag := TagOf(cfg, c.currentJob.value.address);
             !TagInState(c.sets, tag, Invalid) && !TagInState(c.sets, tag, Shared)
    ensures ChoiceMade(cfg, c.sets, c2.currentJob.value, WriteUnshared(cfg, c2, stats, cycle), stats)
  {
    hide SameStates, TagInState, TagOf, SetOf, ChoiceMade, Hit, ExclusiveHit, OwnedUpgrade, WriteSharedInvalid, Scanned, LineInState;
    var c3 := Queried(cfg, c2, Exclusive, cycle);
    QuerySees(cfg, c, c2, Exclusive, cycle);
    if LineInState(cfg, c2, Exclusive) {
      QuerySees(cfg, c, c3, Exclusive, cycle);
      ExclusiveHitChoice(cfg, c.sets, Queried(cfg, c3, Exclusive, cycle), stats, cycle);
    } else {
      var c4 := Queried(cfg, c3, Modified, cycle);
      QuerySees(cfg, c, c3, Modified, cycle);
      if LineInState(cfg, c3, Modified) {
        QuerySees(cfg, c, c4, Modified, cycle);
        PlainHitChoice(cfg, c.sets, Queried(cfg, c4, Modified, cycle), stats, cycle);
      } else {
        var c5 := Queried(cfg, c4, Owned, cycle);
        QuerySees(cfg, c, c4, Owned, cycle);
        if LineInState(cfg, c4, Owned) {
          OwnedUpgradeChoice(cfg, c.sets, c5, stats, cycle);
        } else {
          WriteMissChoice(cfg, c.sets, c5, stats);
        }
      }
    }
  }

  lemma WriteMOESIChoice(cfg: Config, c: CacheState, stats: Stats, cycle: nat)
    requires cfg.Valid() && cfg.protocol == MOESI && Serving(cfg, c) && c.currentJob.value.IsWrite()
    ensures ChoiceMade(cfg, c.sets, c.currentJob.value, WriteMOESI(cfg, c, stats, cycle), stats)
  {
    assert SameStates(c.sets, c.sets) by { SelfSame(c.sets); }
    hide SameStates, TagInState, TagOf, SetOf, ChoiceMade, WriteUnshared, WriteSharedInvalid, Scanned, LineInState;
    var c1 := Queried(cfg, c, Invalid, cycle);
    QuerySees(cfg, c, c, Invalid, cycle);
    if LineInState(cfg, c, Invalid) {
      WriteMissChoice(cfg, c.sets, c1, stats);
    } else {
      var c2 := Queried(cfg, c1, Shared, cycle);
      QuerySees(cfg, c, c1, Shared, cycle);
      if LineInState(cfg, c1, Shared) {
        WriteMissChoice(cfg, c.sets, c2, stats);
      } else {
        WriteUnsharedChoice(cfg, c, c2, stats, cycle);
      }
    }
  }

  lemma HandledChoice(cfg: Config, c: CacheState, job: Job, stats: Stats, cycle: nat)
    requires cfg.Valid() && Shaped(cfg, c)
    requires !c.busy && !c.haveBusRequest && !c.busRequestBeingServiced && c.pendingJobs == [job]
    ensures ChoiceMade(cfg, c.sets, job, HandleRequest(cfg, c, stats, cycle), stats)
  {
    var c1 := c.(currentJob := Some(job), pendingJobs := []);
    assert c.pendingJobs[1..] == [];
    hide SameStates, Write, Read, ChoiceMade;
    if job.IsWrite() {
      WriteChoice(cfg, c1, stats, cycle);
    } else if job.IsRead() {
      ReadChoice(cfg, c1, stats, cycle);
    } else {
      DroppedChoice(cfg, c1, stats);
    }
  }

  lemma RefreshedEffect(cfg: Config, c: CacheState, cycle: nat)
    requires cfg.Valid()
    ensures var c' := Refreshed(cfg, c, cycle);
            c' == c.(sets := c'.sets, busy := false) && SameStates(c.sets, c'.sets)
  {
    SelfSame(c.sets);
    if c.currentJob.Some? {
      TouchAllKeepsStates(c.sets, TagOf(cfg, c.currentJob.value.address), cycle);
    }
  }

  /** How the job's cache decides, told by the line states before the job. */
  lemma TakenChoice(cfg: Config, s: System, job: Job)
    requires cfg.Valid() && Quiescent(cfg, s) && job.threadId < |s.caches|
    ensures ChoiceMade(cfg, s.caches[job.threadId].sets, job, Taken(cfg, s, job), s.stats)
  {
    hide SameStates, HandleRequest, ChoiceMade, Refreshed, SystemShaped;
    var c0 := s.caches[job.threadId];
    var c := Refreshed(cfg, c0, s.cycle + 1).(pendingJobs := [job]);
    assert Idle(cfg, c0, s.cycle);
    RefreshedEffect(cfg, c0, s.cycle + 1);
    HandledChoice(cfg, c, job, s.stats, s.cycle + 1);
    ChoiceTransfers(cfg, c0.sets, c.sets, job, Taken(cfg, s, job), s.stats);
  }

  lemma DroppedChoice(cfg: Config, c: CacheState, stats: Stats)
    requires cfg.Valid() && c.currentJob.Some? && !c.currentJob.value.IsRead() && !c.currentJob.value.IsWrite() && !c.haveBusRequest
    ensures ChoiceMade(cfg, c.sets, c.currentJob.value, Outcome(c, stats), stats)
  {
  }

  lemma WriteChoice(cfg: Config, c: CacheState, stats: Stats, cycle: nat)
    requires cfg.Valid() && Serving(cfg, c) && c.currentJob.value.IsWrite()
    ensures ChoiceMade(cfg, c.sets, c.currentJob.value, Write(cfg, c, stats, cycle), stats)
  {
    hide ChoiceMade, WriteMSI, WriteMESI, WriteMOESI;
    match cfg.protocol
    case MSI => WriteMSIChoice(cfg, c, stats, cycle);
    case MESI => WriteMESIChoice(cfg, c, stats, cycle);
    case MOESI => WriteMOESIChoice(cfg, c, stats, cycle);
  }

  lemma SameScans(a: seq<LineSet>, b: seq<LineSet>, tag: nat)
    requires SameStates(a, b)
    ensures forall st :: TagInState(a, tag, st) == TagInState(b, tag, st)
  {
    forall st {
      SameStatesSameScan(a, b, tag, st);
    }
  }

  lemma MarkedTransfers(a: seq<LineSet>, b: seq<LineSet>, c: seq<LineSet>, tag: nat)
    requires SameStates(a, b) && Marked(b, c, tag)
    ensures Marked(a, c, tag)
  {
  }

  lemma SameChoice(cfg: Config, a: seq<LineSet>, b: seq<LineSet>, job: Job)
    requires cfg.Valid() && SameStates(a, b)
    ensures ChoiceFor(cfg, a, job) == ChoiceFor(cfg, b, job)
  {
    SameScans(a, b, TagOf(cfg, job.address));
    hide SameStates, TagOf, TagInState;
  }

  lemma ChoiceTransfers(cfg: Config, a: seq<LineSet>, b: seq<LineSet>, job: Job, o: Outcome, stats: Stats)
    requires cfg.Valid() && SameStates(a, b) && ChoiceMade(cfg, b, job, o, stats)
    ensures ChoiceMade(cfg, a, job, o, stats)
  {
    hide ChoiceFor, SameStates, Upgrades, Marked, TagOf, SetOf;
    SameChoice(cfg, a, b, job);
    if !ChoiceFor(cfg, b, job).Marks() {
      SameStatesChain(a, b, o.cache.sets);
    } else {
      ScanThenUpgrade(false, a, b, o.cache.sets);
      MarkedTransfers(a, b, o.cache.sets, TagOf(cfg, job.address));
    }
  }

  // ---------------------------------------------------------------------
  // The whole job
  // ---------------------------------------------------------------------

  /** Some other cache's answer raises the bus's shared flag. */
  predicate SharedBy(cfg: Config, s: System, job: Job)
    requires cfg.Valid() && CachesShaped(cfg, s)
  {
    exists j :: 0 <= j < |s.caches| && j != job.threadId
                && Shares(cfg.protocol, SnoopAnswer(cfg.protocol, CommandOf(job), St(s.caches[j], SetOf(cfg, job.address), TagOf(cfg, job.address))))
  }

  /** The job's set can take its line without an eviction. */
  predicate HasRoom(cfg: Config, s: System, job: Job)
    requires cfg.Valid() && CachesShaped(cfg, s) && job.threadId < |s.caches|
  {
    var k0 := SetOf(cfg, job.address);
    Has(s.caches[job.threadId], k0, TagOf(cfg, job.address)) || |s.caches[job.threadId].sets[k0]| < cfg.numLinesInSet
  }

  /** The state one copy of a line moves to, unless it is evicted: first the marking, then the bus. */
  function Moved(cfg: Config, s: System, job: Job, j: nat, k: nat, t: nat): State
    requires cfg.Valid() && CachesShaped(cfg, s) && job.threadId < |s.caches| && j < |s.caches| && k < cfg.NumSets()
  {
    var choice := ChoiceFor(cfg, s.caches[job.threadId].sets, job);
    var own, tag := j == job.threadId, TagOf(cfg, job.address);
    var st := MarkedState(choice, own && t == tag, s.caches[j], k, t);
    if !(choice.UsesBus() && k == SetOf(cfg, job.address) && t == tag) then st
    else if own then DoneState(cfg.protocol, job, SharedBy(cfg, s, job), Invalid)
    else SnoopedState(cfg.protocol, CommandOf(job), st)
  }

  /** A copy once the request is decided. */
  function MarkedState(choice: Choice, ownTag: bool, c: CacheState, k: nat, t: nat): State
    requires k < |c.sets|
  {
    if choice.Marks() && ownTag && Has(c, k, t) then Modified else St(c, k, t)
  }

  predicate HasAfter(cfg: Config, s: System, job: Job, j: nat, k: nat, t: nat)
    requires cfg.Valid() && CachesShaped(cfg, s) && job.threadId < |s.caches| && j < |s.caches| && k < cfg.NumSets()
  {
    Has(s.caches[j], k, t)
    || (ChoiceFor(cfg, s.caches[job.threadId].sets, job).UsesBus() && j == job.threadId
        && k == SetOf(cfg, job.address) && t == TagOf(cfg, job.address))
  }

  /** The set a job's line belongs to, as it stands when the request is decided. */
  function SetAtRequest(cfg: Config, s: System, job: Job): LineSet
    requires cfg.Valid() && Quiescent(cfg, s) && job.threadId < |s.caches|
  {
    TakenDecides(cfg, s, job);
    Taken(cfg, s, job).cache.sets[SetOf(cfg, job.address)]
  }

  /** The tag of the line that the job evicts: the least recently used of a set without room. */
  function VictimOf(cfg: Config, s: System, job: Job): (v: Option<nat>)
    requires cfg.Valid() && Quiescent(cfg, s) && job.threadId < |s.caches|
  {
    var u := SetAtRequest(cfg, s, job);
    if ChoiceFor(cfg, s.caches[job.threadId].sets, job).UsesBus() && !HasRoom(cfg, s, job) && |u| > 0
    then Some(u[Lru(u)].tag) else None
  }

  /** The line that makes room for the job's own. */
  predicate Evicted(cfg: Config, job: Job, j: nat, victim: Option<nat>, k: nat, t: nat)
    requires cfg.Valid()
  {
    j == job.threadId && k == SetOf(cfg, job.address) && victim == Some(t)
  }

  /** The views after a whole job, cache by cache. */
  ghost predicate MovedTo(cfg: Config, s: System, job: Job, j: nat, victim: Option<nat>, c': CacheState)
    requires cfg.Valid() && CachesShaped(cfg, s) && job.threadId < |s.caches| && j < |s.caches|
  {
    && |c'.sets| == cfg.NumSets()
    && (forall k, t {:trigger St(c', k, t)} :: 0 <= k < cfg.NumSets() && 0 <= t ==>
          St(c', k, t) == if Evicted(cfg, job, j, victim, k, t) then Invalid else Moved(cfg, s, job, j, k, t))
    && (forall k, t {:trigger Has(c', k, t)} :: 0 <= k < cfg.NumSets() && 0 <= t ==>
          Has(c', k, t) == (HasAfter(cfg, s, job, j, k, t) && !Evicted(cfg, job, j, victim, k, t)))
  }

  lemma MovedAt(cfg: Config, s: System, job: Job, j: nat, victim: Option<nat>, c': CacheState, k: nat, t: nat)
    requires cfg.Valid() && CachesShaped(cfg, s) && job.threadId < |s.caches| && j < |s.caches| && k < cfg.NumSets()
    requires MovedTo(cfg, s, job, j, victim, c')
    ensures k < |c'.sets| == cfg.NumSets()
    ensures St(c', k, t) == if Evicted(cfg, job, j, victim, k, t) then Invalid else Moved(cfg, s, job, j, k, t)
    ensures Has(c', k, t) == (HasAfter(cfg, s, job, j, k, t) && !Evicted(cfg, job, j, victim, k, t))
  {
    hide Moved, HasAfter, Evicted, Shaped;
  }

  /** The view of the job's cache once the request is decided. */
  ghost predicate DecidedView(choice: Choice, tag: nat, c0: CacheState, c: CacheState) {
    && |c.sets| == |c0.sets|
    && (forall k :: 0 <= k < |c.sets| ==> SameLines(c0.sets[k], c.sets[k]))
    && (forall k, t {:trigger St(c, k, t)} :: 0 <= k < |c.sets| && 0 <= t ==> St(c, k, t) == MarkedState(choice, t == tag, c0, k, t))
    && (forall k, t {:trigger Has(c, k, t)} :: 0 <= k < |c.sets| && 0 <= t ==> Has(c, k, t) == Has(c0, k, t))
  }

  lemma ChoiceView(cfg: Config, c0: CacheState, job: Job, o: Outcome, stats: Stats)
    requires cfg.Valid() && ChoiceMade(cfg, c0.sets, job, o, stats)
    ensures DecidedView(ChoiceFor(cfg, c0.sets, job), TagOf(cfg, job.address), c0, o.cache)
  {
    hide ChoiceFor, TagOf, SetOf, Find, StateIn, SameLines;
    var a, b := c0.sets, o.cache.sets;
    forall k, t | 0 <= k < |a| && 0 <= t
      ensures HasLine(b[k], t) == HasLine(a[k], t)
    {
      assert SameLines(a[k], b[k]) && Find(b[k], t) == Find(a[k], t);
      SameLinesSameSize(a[k], b[k]);
    }
  }

  lemma SameLinesSameSize(a: LineSet, b: LineSet)
    requires SameLines(a, b)
    ensures |a| == |b| && (DistinctTags(a) ==> DistinctTags(b))
  {
  }

  lemma SameStatesSameView(c: CacheState, c': CacheState)
    requires SameStates(c.sets, c'.sets)
    ensures SameView(c, c')
  {
  }

  lemma RefreshedView(cfg: Config, c: CacheState, cycle: nat)
    requires cfg.Valid()
    ensures SameView(c, Refreshed(cfg, c, cycle))
  {
    RefreshedEffect(cfg, c, cycle);
    SameStatesSameView(c, Refreshed(cfg, c, cycle));
  }

  lemma SnoopedView(cfg: Config, c: CacheState, r: Request, cycle: nat)
    requires cfg.Valid() && Shaped(cfg, c) && r.lineSet < cfg.NumSets()
    ensures var c' := Snooped(cfg, c, r, cycle);
            && |c'.sets| == |c.sets|
            && (forall k, t {:trigger St(c', k, t)} :: 0 <= k < |c.sets| && 0 <= t ==>
                  St(c', k, t) == if k == r.lineSet && t == r.lineTag
                                  then SnoopedState(cfg.protocol, r.command, St(c, k, t)) else St(c, k, t))
            && (forall k, t {:trigger Has(c', k, t)} :: 0 <= k < |c.sets| && 0 <= t ==> Has(c', k, t) == Has(c, k, t))
  {
    var s := c.sets[r.lineSet];
    AssignSetsOneState(s, r.lineTag, SnoopedState(cfg.protocol, r.command, StateIn(s, r.lineTag)), cycle);
    assert SnoopedState(cfg.protocol, r.command, Invalid) == Invalid;
  }

  /** Installation in a set at capacity drops one other line, and never more. */
  lemma InstallMoves(cfg: Config, s: LineSet, job: Job) returns (victim: Option<nat>)
    requires cfg.Valid() && DistinctTags(s) && |s| <= cfg.numLinesInSet
    ensures victim == None <==> HasLine(s, TagOf(cfg, job.address)) || |s| < cfg.numLinesInSet
    ensures victim.Some? ==> HasLine(s, victim.value) && victim.value != TagOf(cfg, job.address)
    ensures victim.Some? ==> |s| > 0 && victim.value == s[Lru(s)].tag
    ensures var u, tag := Installed(cfg, s, job), TagOf(cfg, job.address);
            forall t: nat :: && HasLine(u, t) == (t == tag || (HasLine(s, t) && victim != Some(t)))
                             && StateIn(u, t) == if victim == Some(t) then Invalid else StateIn(s, t)
  {
    var tag := TagOf(cfg, job.address);
    InstalledIs(cfg, s, job);
    hide Installed, TagOf, SetOf;
    victim := None;
    if !HasLine(s, tag) {
      var u := s;
      if |s| == cfg.numLinesInSet {
        victim := Some(s[Lru(s)].tag);
        u := Evict(s);
        FindsEveryLine(s, Lru(s));
      }
      hide Evict, Lru;
      forall t: nat
        ensures DistinctTags(u)
        ensures HasLine(u, t) == (HasLine(s, t) && victim != Some(t))
        ensures StateIn(u, t) == if victim == Some(t) then Invalid else StateIn(s, t)
      {
        if |s| == cfg.numLinesInSet {
          EvictDropsOneTag(s, t);
        }
      }
      var line := Line(job.address, SetOf(cfg, job.address), tag, Invalid, 0);
      hide HasLine, StateIn, DistinctTags;
      forall t: nat
        ensures HasLine(u + [line], t) == (t == tag || HasLine(u, t))
        ensures StateIn(u + [line], t) == if t == tag then Invalid else StateIn(u, t)
      {
        AppendAddsOneTag(u, line, t);
      }
      MissingIsInvalid(s, tag);
    }
  }

  lemma FindsEveryLine(s: LineSet, i: nat)
    requires i < |s|
    ensures HasLine(s, s[i].tag)
  {
  }

  lemma MissingIsInvalid(s: LineSet, tag: nat)
    requires !HasLine(s, tag)
    ensures StateIn(s, tag) == Invalid
  {
  }

  /** Completion: the line is there in its final state, the rest as before but for the victim. */
  lemma DoneSetMoves(cfg: Config, s: LineSet, job: Job, isShared: bool, cycle: nat) returns (victim: Option<nat>)
    requires cfg.Valid() && DistinctTags(s) && |s| <= cfg.numLinesInSet
    requires job.IsRead() || job.IsWrite()
    ensures victim == None <==> HasLine(s, TagOf(cfg, job.address)) || |s| < cfg.numLinesInSet
    ensures victim.Some? ==> HasLine(s, victim.value) && victim.value != TagOf(cfg, job.address)
    ensures victim.Some? ==> |s| > 0 && victim.value == s[Lru(s)].tag
    ensures var u, tag := DoneSet(cfg, s, job, isShared, cycle), TagOf(cfg, job.address);
            forall t: nat :: && HasLine(u, t) == (t == tag || (HasLine(s, t) && victim != Some(t)))
                             && StateIn(u, t) == if t == tag then DoneState(cfg.protocol, job, isShared, Invalid)
                                                 else if victim == Some(t) then Invalid else StateIn(s, t)
  {
    victim := InstallMoves(cfg, s, job);
    var tag := TagOf(cfg, job.address);
    var v := Installed(cfg, s, job);
    AssignSetsOneState(v, tag, DoneState(cfg.protocol, job, isShared, StateIn(v, tag)), cycle);
    hide Installed, TagOf, Assign;
  }

  // ---------------------------------------------------------------------
  // From the start of a job to its end
  // ---------------------------------------------------------------------

  lemma BegunShape(cfg: Config, s: System, job: Job)
    requires cfg.Valid() && Quiescent(cfg, s) && job.threadId < |s.caches|
    ensures var b, k := Begun(cfg, s, job), job.threadId;
            && |b.caches| == |s.caches| && b.cycle == s.cycle + 1 && !b.bus.isShared
            && b.caches[k] == Taken(cfg, s, job).cache && b.stats == Taken(cfg, s, job).stats
            && (forall j :: 0 <= j < |b.caches| && j != k ==>
                  b.caches[j] == Refreshed(cfg, s.caches[j], s.cycle + 1) && !b.caches[j].haveBusRequest)
            && FirstRequester(b.caches) == if b.caches[k].haveBusRequest then k else |b.caches|
  {
    hide Taken, Shaped, Refreshed;
    var b := Begun(cfg, s, job);
    forall j | 0 <= j < |b.caches| && j != job.threadId
      ensures !b.caches[j].haveBusRequest
    {
      assert b.caches[j] == Refreshed(cfg, s.caches[j], s.cycle + 1);
      RefreshedEffect(cfg, s.caches[j], s.cycle + 1);
    }
    FirstRequesterIs(b.caches, job.threadId);
  }

  /** A grant from a quiet bus, seen from the other caches, and the shared flag it leaves. */
  lemma GrantSnoops(cfg: Config, b: System, k: nat)
    requires cfg.Valid() && CachesShaped(cfg, b) && k < |b.caches| && b.caches[k].haveBusRequest
    requires FirstRequester(b.caches) == k && !b.bus.isShared
    ensures var g, r := NextTransaction(cfg, b), b.caches[k].busRequest.value;
            && |g.caches| == |b.caches|
            && (forall j :: 0 <= j < |b.caches| && j != k ==> g.caches[j] == Snooped(cfg, b.caches[j], r, b.cycle))
            && (g.bus.isShared <==> exists j :: 0 <= j < |b.caches| && j != k && Shares(cfg.protocol, AnswerOf(cfg, b.caches[j], r)))
  {
    var g := Granted(cfg, b, k);
    BroadcastEffect(cfg, g, |b.caches|);
    hide Broadcast, Snooped, SnoopAnswer, Shares, FirstRequester, Shaped, St;
    assert forall j :: 0 <= j < |b.caches| && j != k ==> g.caches[j] == b.caches[j];
  }

  /** What the grant at the start of a job does to the other caches, and to the shared flag. */
  lemma StartSnoops(cfg: Config, s: System, job: Job)
    requires cfg.Valid() && Quiescent(cfg, s) && job.threadId < |s.caches|
    requires Begun(cfg, s, job).caches[job.threadId].haveBusRequest
    ensures var b, g, k := Begun(cfg, s, job), Started(cfg, s, job), job.threadId;
            var r := b.caches[k].busRequest.value;
            && |g.caches| == |b.caches|
            && (forall j :: 0 <= j < |b.caches| && j != k ==> g.caches[j] == Snooped(cfg, b.caches[j], r, b.cycle))
            && (g.bus.isShared <==> exists j :: 0 <= j < |b.caches| && j != k && Shares(cfg.protocol, AnswerOf(cfg, b.caches[j], r)))
  {
    BegunShape(cfg, s, job);
    hide Begun, Snooped, AnswerOf, Shares, FirstRequester, NextTransaction;
    GrantSnoops(cfg, Begun(cfg, s, job), job.threadId);
  }

  lemma OtherMovedTo(cfg: Config, s: System, job: Job, j: nat, c': CacheState)
    requires cfg.Valid() && CachesShaped(cfg, s) && job.threadId < |s.caches| && j < |s.caches| && j != job.threadId
    requires |c'.sets| == cfg.NumSets()
    requires forall k, t {:trigger St(c', k, t)} :: 0 <= k < cfg.NumSets() && 0 <= t ==>
               St(c', k, t) == if ChoiceFor(cfg, s.caches[job.threadId].sets, job).UsesBus()
                                  && k == SetOf(cfg, job.address) && t == TagOf(cfg, job.address)
                               then SnoopedState(cfg.protocol, CommandOf(job), St(s.caches[j], k, t)) else St(s.caches[j], k, t)
    requires forall k, t {:trigger Has(c', k, t)} :: 0 <= k < cfg.NumSets() && 0 <= t ==> Has(c', k, t) == Has(s.caches[j], k, t)
    ensures MovedTo(cfg, s, job, j, None, c')
  {
    hide ChoiceFor, SetOf, TagOf, St, Has, SnoopedState, SharedBy, DoneState;
  }

  /** The other caches once the job has started: refreshed, then snooped if the bus is used. */
  lemma OtherMoves(cfg: Config, s: System, job: Job, j: nat)
    requires cfg.Valid() && Quiescent(cfg, s) && job.threadId < |s.caches|
    requires j < |s.caches| && j != job.threadId
    ensures MovedTo(cfg, s, job, j, None, Started(cfg, s, job).caches[j])
  {
    var b, g, k := Begun(cfg, s, job), Started(cfg, s, job), job.threadId;
    TakenChoice(cfg, s, job);
    BegunShape(cfg, s, job);
    RefreshedView(cfg, s.caches[j], s.cycle + 1);
    assert b.caches[k].haveBusRequest <==> ChoiceFor(cfg, s.caches[k].sets, job).UsesBus();
    if b.caches[k].haveBusRequest {
      StartSnoops(cfg, s, job);
      SnoopedView(cfg, b.caches[j], b.caches[k].busRequest.value, b.cycle);
    } else {
      assert g.caches[j] == b.caches[j];
    }
    hide *;
    OtherMovedTo(cfg, s, job, j, g.caches[j]);
  }

  lemma RefreshKeepsMoved(cfg: Config, s: System, job: Job, j: nat, c: CacheState, cycle: nat)
    requires cfg.Valid() && CachesShaped(cfg, s) && job.threadId < |s.caches| && j < |s.caches|
    requires MovedTo(cfg, s, job, j, None, c)
    ensures MovedTo(cfg, s, job, j, None, Refreshed(cfg, c, cycle))
  {
    RefreshedView(cfg, c, cycle);
    hide Moved, HasAfter, Refreshed, St, Has;
  }

  /** The view of the job's own cache once it has decided. */
  lemma TakenView(cfg: Config, s: System, job: Job)
    requires cfg.Valid() && Quiescent(cfg, s) && job.threadId < |s.caches|
    ensures var c0 := s.caches[job.threadId];
            && |c0.sets| == cfg.NumSets()
            && DecidedView(ChoiceFor(cfg, c0.sets, job), TagOf(cfg, job.address), c0, Taken(cfg, s, job).cache)
  {
    hide Taken, ChoiceFor, ChoiceMade, DecidedView, TagOf;
    assert Idle(cfg, s.caches[job.threadId], s.cycle);
    TakenChoice(cfg, s, job);
    ChoiceView(cfg, s.caches[job.threadId], job, Taken(cfg, s, job), s.stats);
  }

  /** The job's own cache when the job is no bus transaction. */
  lemma OwnHitMoves(cfg: Config, s: System, job: Job)
    requires cfg.Valid() && Quiescent(cfg, s) && job.threadId < |s.caches|
    requires !ChoiceFor(cfg, s.caches[job.threadId].sets, job).UsesBus()
    ensures MovedTo(cfg, s, job, job.threadId, None, Taken(cfg, s, job).cache)
  {
    hide Taken, SetOf, TagOf, ChoiceFor, St, Has;
    TakenView(cfg, s, job);
  }

  lemma BusIffChosen(cfg: Config, s: System, job: Job)
    requires cfg.Valid() && Quiescent(cfg, s) && job.threadId < |s.caches|
    ensures Taken(cfg, s, job).cache.haveBusRequest <==> ChoiceFor(cfg, s.caches[job.threadId].sets, job).UsesBus()
  {
    hide Taken, ChoiceFor, Quiescent;
    TakenChoice(cfg, s, job);
  }

  /** What another cache answers to the job's request, told by the states before the job. */
  lemma AnswerAtStart(cfg: Config, s: System, job: Job, j: nat)
    requires cfg.Valid() && Quiescent(cfg, s) && job.threadId < |s.caches|
    requires ChoiceFor(cfg, s.caches[job.threadId].sets, job).UsesBus() && j < |s.caches| && j != job.threadId
    ensures Begun(cfg, s, job).caches[job.threadId].haveBusRequest
    ensures var b := Begun(cfg, s, job);
            AnswerOf(cfg, b.caches[j], b.caches[job.threadId].busRequest.value)
            == SnoopAnswer(cfg.protocol, CommandOf(job), St(s.caches[j], SetOf(cfg, job.address), TagOf(cfg, job.address)))
  {
    TakenChoice(cfg, s, job);
    BegunShape(cfg, s, job);
    RefreshedView(cfg, s.caches[j], s.cycle + 1);
    hide Begun, Taken, SnoopAnswer, SetOf, TagOf, ChoiceFor, Refreshed, StateIn, Find, SameLines, SameStates, Upgrades, Marked;
  }

  lemma SharedFlagIs(cfg: Config, s: System, job: Job)
    requires cfg.Valid() && Quiescent(cfg, s) && job.threadId < |s.caches|
    requires ChoiceFor(cfg, s.caches[job.threadId].sets, job).UsesBus()
    ensures Started(cfg, s, job).bus.inUse && Started(cfg, s, job).bus.isShared == SharedBy(cfg, s, job)
  {
    BusIffChosen(cfg, s, job);
    StartedShape(cfg, s, job);
    BegunShape(cfg, s, job);
    hide Begun, Started, Taken, SnoopAnswer, Shares, St, SetOf, TagOf, ChoiceFor, Snooped, AnswerOf, Idle, FirstRequester;
    StartSnoops(cfg, s, job);
    forall j | 0 <= j < |s.caches| && j != job.threadId {
      AnswerAtStart(cfg, s, job, j);
    }
  }

  /** The job's own cache once the bus serves it. */
  lemma StartedView(cfg: Config, s: System, job: Job)
    requires cfg.Valid() && Quiescent(cfg, s) && job.threadId < |s.caches|
    requires ChoiceFor(cfg, s.caches[job.threadId].sets, job).UsesBus()
    ensures var c0, c := s.caches[job.threadId], Started(cfg, s, job).caches[job.threadId];
            && |Started(cfg, s, job).caches| == |s.caches|
            && c.currentJob == Some(job) && Shaped(cfg, c) && (job.IsRead() || job.IsWrite())
            && c.sets[SetOf(cfg, job.address)] == SetAtRequest(cfg, s, job)
            && DecidedView(ChoiceFor(cfg, c0.sets, job), TagOf(cfg, job.address), c0, c)
  {
    hide Taken, Started, SetOf, TagOf, ChoiceFor, St, Has;
    TakenDecides(cfg, s, job);
    BusIffChosen(cfg, s, job);
    StartedShape(cfg, s, job);
    TakenView(cfg, s, job);
    SameSetsSameView(ChoiceFor(cfg, s.caches[job.threadId].sets, job), TagOf(cfg, job.address), s.caches[job.threadId],
                     Taken(cfg, s, job).cache, Started(cfg, s, job).caches[job.threadId]);
  }

  lemma SameSetsSameView(choice: Choice, tag: nat, c0: CacheState, c: CacheState, c': CacheState)
    requires DecidedView(choice, tag, c0, c) && c'.sets == c.sets
    ensures DecidedView(choice, tag, c0, c')
  {
    hide StateIn, HasLine;
    assert forall k, t {:trigger St(c', k, t)} :: 0 <= k < |c.sets| && 0 <= t ==> St(c', k, t) == St(c, k, t);
    assert forall k, t {:trigger Has(c', k, t)} :: 0 <= k < |c.sets| && 0 <= t ==> Has(c', k, t) == Has(c, k, t);
  }

  /** The job's set in its own cache once the bus serves it. */
  lemma StartedSetIsTidy(cfg: Config, addresses: set<nat>, s: System, job: Job)
    requires cfg.Valid() && Quiescent(cfg, s) && job.threadId < |s.caches|
    requires ChoiceFor(cfg, s.caches[job.threadId].sets, job).UsesBus()
    requires GoodCache(cfg, addresses, s.caches[job.threadId])
    ensures |Started(cfg, s, job).caches| == |s.caches|
    ensures var k0, c0, c := SetOf(cfg, job.address), s.caches[job.threadId], Started(cfg, s, job).caches[job.threadId];
            && k0 < |c0.sets| == |c.sets| == cfg.NumSets()
            && DistinctTags(c.sets[k0]) && |c.sets[k0]| == |c0.sets[k0]| <= cfg.numLinesInSet
            && (forall t: nat :: HasLine(c.sets[k0], t) == HasLine(c0.sets[k0], t))
  {
    var k0 := SetOf(cfg, job.address);
    var c0, c := s.caches[job.threadId], Started(cfg, s, job).caches[job.threadId];
    assert LinesFrom(cfg, addresses, k0, c0.sets[k0]);
    hide Started, SetOf, TagOf, Quiescent, GoodCache, StateIn, HasLine, ChoiceFor, SetAtRequest;
    StartedView(cfg, s, job);
    SameLinesSameSize(c0.sets[k0], c.sets[k0]);
    assert forall t: nat :: Has(c, k0, t) == Has(c0, k0, t);
  }

  /** The job's own cache when its transaction completes. */
  lemma OwnBusMoves(cfg: Config, addresses: set<nat>, s: System, job: Job, stats: Stats, cycle: nat) returns (victim: Option<nat>)
    requires cfg.Valid() && Quiescent(cfg, s) && job.threadId < |s.caches|
    requires ChoiceFor(cfg, s.caches[job.threadId].sets, job).UsesBus()
    requires GoodCache(cfg, addresses, s.caches[job.threadId])
    ensures var c := Started(cfg, s, job).caches[job.threadId];
            && |Started(cfg, s, job).caches| == |s.caches|
            && c.currentJob == Some(job) && Shaped(cfg, c)
            && MovedTo(cfg, s, job, job.threadId, victim, BusJobDone(cfg, c, stats, SharedBy(cfg, s, job), cycle).cache)
    ensures victim == None <==> HasRoom(cfg, s, job)
    ensures victim == VictimOf(cfg, s, job)
    ensures victim.Some? ==> Has(s.caches[job.threadId], SetOf(cfg, job.address), victim.value) && victim.value != TagOf(cfg, job.address)
  {
    var k, k0, tag := job.threadId, SetOf(cfg, job.address), TagOf(cfg, job.address);
    var c0, c := s.caches[k], Started(cfg, s, job).caches[k];
    StartedView(cfg, s, job);
    hide Started, SetOf, TagOf, Quiescent, GoodCache, SharedBy, DoneSet, DoneStats, NeedToEvict, DoneState, StateIn, HasLine, ChoiceFor,
         SetAtRequest, DistinctTags, MovedTo, DecidedView;
    StartedSetIsTidy(cfg, addresses, s, job);
    victim := DoneSetMoves(cfg, c.sets[k0], job, SharedBy(cfg, s, job), cycle);
    DoneMovedTo(cfg, s, job, victim, c, BusJobDone(cfg, c, stats, SharedBy(cfg, s, job), cycle).cache);
  }

  lemma DoneMovedTo(cfg: Config, s: System, job: Job, victim: Option<nat>, c: CacheState, c': CacheState)
    requires cfg.Valid() && CachesShaped(cfg, s) && job.threadId < |s.caches|
    requires ChoiceFor(cfg, s.caches[job.threadId].sets, job).UsesBus()
    requires DecidedView(ChoiceFor(cfg, s.caches[job.threadId].sets, job), TagOf(cfg, job.address), s.caches[job.threadId], c)
    requires |c.sets| == cfg.NumSets() && victim != Some(TagOf(cfg, job.address))
    requires |c'.sets| == |c.sets| && forall k :: 0 <= k < |c.sets| && k != SetOf(cfg, job.address) ==> c'.sets[k] == c.sets[k]
    requires var k0, tag := SetOf(cfg, job.address), TagOf(cfg, job.address);
             forall t: nat :: && HasLine(c'.sets[k0], t) == (t == tag || (HasLine(c.sets[k0], t) && victim != Some(t)))
                              && StateIn(c'.sets[k0], t) == if t == tag then DoneState(cfg.protocol, job, SharedBy(cfg, s, job), Invalid)
                                                            else if victim == Some(t) then Invalid else StateIn(c.sets[k0], t)
    ensures MovedTo(cfg, s, job, job.threadId, victim, c')
  {
    hide ChoiceFor, SetOf, TagOf, StateIn, HasLine, SharedBy, DoneState, SnoopedState, MarkedState;
    var c0 := s.caches[job.threadId];
    var choice, tag := ChoiceFor(cfg, c0.sets, job), TagOf(cfg, job.address);
    forall k, t | 0 <= k < cfg.NumSets() && 0 <= t
      ensures St(c', k, t) == if Evicted(cfg, job, job.threadId, victim, k, t) then Invalid else Moved(cfg, s, job, job.threadId, k, t)
      ensures Has(c', k, t) == (HasAfter(cfg, s, job, job.threadId, k, t) && !Evicted(cfg, job, job.threadId, victim, k, t))
    {
      assert St(c, k, t) == MarkedState(choice, t == tag, c0, k, t) && Has(c, k, t) == Has(c0, k, t);
    }
  }

  /** The caches at the end of a job, in terms of those at its start. */
  lemma RunJobCaches(cfg: Config, s: System, job: Job, j: nat)
    requires cfg.Valid() && Quiescent(cfg, s) && job.threadId < |s.caches| && j < |s.caches|
    ensures var g, n, e := Started(cfg, s, job), ServiceCost(cfg, s, job), RunJob(cfg, s, job);
            && |g.caches| == |s.caches| && |e.caches| == |s.caches|
            && (g.bus.inUse <==> Taken(cfg, s, job).cache.haveBusRequest)
            && (g.bus.inUse && j == job.threadId ==>
                  && g.caches[j].currentJob == Some(job) && Shaped(cfg, g.caches[j])
                  && e.caches[j] == BusJobDone(cfg, g.caches[j], g.stats, g.bus.isShared, g.cycle + n).cache)
            && (!g.bus.inUse && j == job.threadId ==> g.caches[j] == Taken(cfg, s, job).cache)
            && (!g.bus.inUse || j != job.threadId ==>
                  e.caches[j] == if n == 0 then g.caches[j] else Refreshed(cfg, g.caches[j], g.cycle + n))
  {
    hide Started, Refreshed, BusJobDone, Taken;
    StartedServes(cfg, s, job);
    TakenDecides(cfg, s, job);
    StartedShape(cfg, s, job);
    BegunShape(cfg, s, job);
  }

  /** Every copy of every line after a whole job.  A bus transaction whose set has no room drops
      one other line of the job's cache. */
  lemma RunJobMoves(cfg: Config, addresses: set<nat>, s: System, job: Job, j: nat) returns (victim: Option<nat>)
    requires cfg.Valid() && Ready(false, cfg, addresses, s)
    requires job.threadId < |s.caches| && j < |s.caches|
    ensures |RunJob(cfg, s, job).caches| == |s.caches|
    ensures MovedTo(cfg, s, job, j, victim, RunJob(cfg, s, job).caches[j])
    ensures Quiescent(cfg, s) && victim == if j == job.threadId then VictimOf(cfg, s, job) else None
    ensures victim == None <==> j != job.threadId || !ChoiceFor(cfg, s.caches[job.threadId].sets, job).UsesBus() || HasRoom(cfg, s, job)
    ensures victim.Some? ==> Has(s.caches[j], SetOf(cfg, job.address), victim.value) && victim.value != TagOf(cfg, job.address)
  {
    hide MovedTo, Started, Refreshed, BusJobDone, Taken, RunJob, ServiceCost, ChoiceFor, HasRoom, Shaped, GoodCache, Quiescent, ChoiceMade;
    var g, k, n := Started(cfg, s, job), job.threadId, ServiceCost(cfg, s, job);
    RunJobCaches(cfg, s, job, j);
    BusIffChosen(cfg, s, job);
    victim := None;
    if j != k {
      OtherMoves(cfg, s, job, j);
      RefreshKeepsMoved(cfg, s, job, j, g.caches[j], g.cycle + n);
    } else if ChoiceFor(cfg, s.caches[k].sets, job).UsesBus() {
      SharedFlagIs(cfg, s, job);
      victim := OwnBusMoves(cfg, addresses, s, job, g.stats, g.cycle + n);
    } else {
      OwnHitMoves(cfg, s, job);
      RefreshKeepsMoved(cfg, s, job, k, g.caches[k], g.cycle + n);
    }
  }
}
