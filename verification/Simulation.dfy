/** MESI simulates MSI: run on the same trace without evictions, the two protocols end in
    the same line states up to the exclusive state, and MESI saves exactly the silent upgrades. */
module Simulation {
  import opened Constants
  import opened LineSets
  import opened CacheModel
  import opened SystemModel
  import opened Coherence
  import opened Safety
  import opened ServiceTime
  import opened JobRunner
  import opened CycleLoop
  import opened JobEffects
  import opened Counts

  function Msi(cfg: Config): Config { cfg.(protocol := MSI) }

  function Mesi(cfg: Config): Config { cfg.(protocol := MESI) }

  /** Exclusive is the state MSI does not have. */
  function Collapse(st: State): State { if st == Exclusive then Shared else st }

  /** Tags that cache `i`'s jobs ever bring to set `k`. */
  function TagsSeen(cfg: Config, trace: seq<Job>, i: nat, k: nat): set<nat>
    requires cfg.Valid()
  {
    set job | job in trace && job.threadId == i && SetOf(cfg, job.address) == k :: TagOf(cfg, job.address)
  }

  /** No set of any cache sees more tags than it has lines. */
  ghost predicate NeverCrowded(cfg: Config, trace: seq<Job>)
    requires cfg.Valid()
  {
    forall i: nat, k: nat {:trigger TagsSeen(cfg, trace, i, k)} :: |TagsSeen(cfg, trace, i, k)| <= cfg.numLinesInSet
  }

  ghost predicate SimilarCaches(cfg: Config, m: CacheState, e: CacheState) {
    && |m.sets| == |e.sets| == cfg.NumSets()
    && (forall k, t {:trigger St(m, k, t)} {:trigger St(e, k, t)} :: 0 <= k < cfg.NumSets() && 0 <= t ==> St(m, k, t) == Collapse(St(e, k, t)))
    && (forall k, t {:trigger Has(m, k, t)} {:trigger Has(e, k, t)} :: 0 <= k < cfg.NumSets() && 0 <= t ==> Has(m, k, t) == Has(e, k, t))
  }

  /** Same lines, same states up to the exclusive one, and the misses MESI avoided are its silent upgrades. */
  ghost predicate Similar(cfg: Config, m: System, e: System) {
    && |m.caches| == |e.caches| == cfg.numProcessors
    && (forall j :: 0 <= j < |m.caches| ==> SimilarCaches(cfg, m.caches[j], e.caches[j]))
    && m.stats.numMiss == e.stats.numMiss + e.stats.numExclusiveToModifiedTransitions
  }

  // ---------------------------------------------------------------------
  // Room for every line
  // ---------------------------------------------------------------------

  lemma {:induction false} DistinctTagsAreFew(s: LineSet, tags: set<nat>)
    requires DistinctTags(s) && forall i :: 0 <= i < |s| ==> s[i].tag in tags
    ensures |s| <= |tags|
  {
    if |s| != 0 {
      var n := |s| - 1;
      DistinctTagsAreFew(s[..n], tags - {s[n].tag});
    }
  }

  /** A set whose lines all come from `tags` has room for one more of them. */
  lemma RoomForOneMore(s: LineSet, tags: set<nat>, tag: nat)
    requires DistinctTags(s) && tag in tags && !HasLine(s, tag)
    requires forall t: nat {:trigger HasLine(s, t)} :: HasLine(s, t) ==> t in tags
    ensures |s| < |tags|
  {
    forall i | 0 <= i < |s|
      ensures s[i].tag in tags - {tag}
    {
      FindsEveryLine(s, i);
    }
    DistinctTagsAreFew(s, tags - {tag});
  }

  /** Every line was brought in by a job of its own cache. */
  ghost predicate OwnLines(cfg: Config, s: System, trace: seq<Job>)
    requires cfg.Valid() && CachesShaped(cfg, s)
  {
    forall j, k, t {:trigger Has(s.caches[j], k, t)} ::
      0 <= j < |s.caches| && 0 <= k < cfg.NumSets() && 0 <= t && Has(s.caches[j], k, t) ==> t in TagsSeen(cfg, trace, j, k)
  }

  lemma OwnLinesHaveRoom(cfg: Config, addresses: set<nat>, s: System, trace: seq<Job>, job: Job)
    requires cfg.Valid() && Ready(false, cfg, addresses, s) && OwnLines(cfg, s, trace) && NeverCrowded(cfg, trace)
    requires job in trace && job.threadId < |s.caches|
    ensures HasRoom(cfg, s, job)
  {
    var i, k, tag := job.threadId, SetOf(cfg, job.address), TagOf(cfg, job.address);
    var set0 := s.caches[i].sets[k];
    assert LinesFrom(cfg, addresses, k, set0) by {
      assert GoodCache(cfg, addresses, s.caches[i]);
    }
    if !HasLine(set0, tag) {
      var tags := TagsSeen(cfg, trace, i, k);
      assert tag in tags;
      forall t: nat | HasLine(set0, t)
        ensures t in tags
      {
        assert Has(s.caches[i], k, t);
      }
      RoomForOneMore(set0, tags, tag);
    }
  }

  // ---------------------------------------------------------------------
  // One job on both machines
  // ---------------------------------------------------------------------

  /** When tags identify sets, scanning every set finds exactly the decoded line. */
  lemma ScanIsLookup(cfg: Config, addresses: set<nat>, c: CacheState, job: Job, st: State)
    requires cfg.Valid() && TagsIdentifySets(cfg, addresses) && GoodCache(cfg, addresses, c)
    requires job.address in addresses
    ensures TagInState(c.sets, TagOf(cfg, job.address), st) ==> St(c, SetOf(cfg, job.address), TagOf(cfg, job.address)) == st
    ensures st != Invalid && St(c, SetOf(cfg, job.address), TagOf(cfg, job.address)) == st ==> TagInState(c.sets, TagOf(cfg, job.address), st)
  {
    var k, tag := SetOf(cfg, job.address), TagOf(cfg, job.address);
    var i := FirstInState(c.sets, tag, st);
    if i < |c.sets| {
      TagIsInItsSet(cfg, addresses, c, job, i);
    }
  }

  lemma TagIsInItsSet(cfg: Config, addresses: set<nat>, c: CacheState, job: Job, i: nat)
    requires cfg.Valid() && TagsIdentifySets(cfg, addresses) && GoodCache(cfg, addresses, c)
    requires job.address in addresses && i < |c.sets| && HasLine(c.sets[i], TagOf(cfg, job.address))
    ensures i == SetOf(cfg, job.address)
  {
    var s := c.sets[i];
    assert LinesFrom(cfg, addresses, i, s);
    assert TagOf(cfg, s[Find(s, TagOf(cfg, job.address))].rawAddress) == TagOf(cfg, job.address);
  }

  /** The decision, read off the decoded line's state. */
  function ChoiceAt(p: Protocol, st: State, job: Job): Choice {
    if job.IsWrite() then
      if st == Modified then PlainHit
      else if p != MSI && st == Exclusive then MarkingHit
      else if p == MOESI && st == Owned then Upgrading
      else OnBus
    else if job.IsRead() then (if st == Invalid then OnBus else PlainHit)
    else Dropped
  }

  lemma ChoiceIsAt(cfg: Config, addresses: set<nat>, c: CacheState, job: Job)
    requires cfg.Valid() && TagsIdentifySets(cfg, addresses) && GoodCache(cfg, addresses, c)
    requires job.address in addresses
    ensures ChoiceFor(cfg, c.sets, job) == ChoiceAt(cfg.protocol, St(c, SetOf(cfg, job.address), TagOf(cfg, job.address)), job)
  {
    hide GoodCache, SetOf, TagOf, St, TagsIdentifySets, TagInState;
    ScanIsLookup(cfg, addresses, c, job, Invalid);
    ScanIsLookup(cfg, addresses, c, job, Modified);
    ScanIsLookup(cfg, addresses, c, job, Shared);
    ScanIsLookup(cfg, addresses, c, job, Exclusive);
    ScanIsLookup(cfg, addresses, c, job, Owned);
  }

  /** How a copy of the job's own line moves. */
  function LineStep(p: Protocol, choice: Choice, own: bool, job: Job, shared: bool, st: State): State {
    match choice
    case Dropped => st
    case PlainHit => st
    case MarkingHit => if own then Modified else st
    case Upgrading => if own then Modified else SnoopedState(p, CommandOf(job), st)
    case OnBus => if own then DoneState(p, job, shared, Invalid) else SnoopedState(p, CommandOf(job), st)
  }

  /** The heart of the simulation: from similar copies both protocols move to similar
      copies, because beside an exclusive line MESI knows there is nothing to invalidate. */
  lemma LineStepsAgree(job: Job, line: State, own: bool, st: State, sharedM: bool, sharedE: bool)
    requires Legal(MESI, line) && Legal(MESI, st)
    requires if own then st == line else Compatible(MESI, line, st)
    ensures LineStep(MSI, ChoiceAt(MSI, Collapse(line), job), own, job, sharedM, Collapse(st))
            == Collapse(LineStep(MESI, ChoiceAt(MESI, line, job), own, job, sharedE, st))
  {
  }

  /** A job's effect on a copy is its line step on its own line, and nothing elsewhere. */
  lemma MovedIsLineStep(cfg: Config, addresses: set<nat>, s: System, job: Job, j: nat, k: nat, t: nat)
    requires cfg.Valid() && TagsIdentifySets(cfg, addresses) && Ready(false, cfg, addresses, s)
    requires job.address in addresses && job.threadId < |s.caches| && j < |s.caches| && k < cfg.NumSets()
    ensures var line := St(s.caches[job.threadId], SetOf(cfg, job.address), TagOf(cfg, job.address));
            Moved(cfg, s, job, j, k, t)
            == if k == SetOf(cfg, job.address) && t == TagOf(cfg, job.address)
               then LineStep(cfg.protocol, ChoiceAt(cfg.protocol, line, job), j == job.threadId, job, SharedBy(cfg, s, job), St(s.caches[j], k, t))
               else St(s.caches[j], k, t)
    ensures var line := St(s.caches[job.threadId], SetOf(cfg, job.address), TagOf(cfg, job.address));
            HasAfter(cfg, s, job, j, k, t)
            == (Has(s.caches[j], k, t) || (k == SetOf(cfg, job.address) && t == TagOf(cfg, job.address) && j == job.threadId
                                           && ChoiceAt(cfg.protocol, line, job) == OnBus))
  {
    var i, k0, tag := job.threadId, SetOf(cfg, job.address), TagOf(cfg, job.address);
    var c := s.caches[i];
    assert GoodCache(cfg, addresses, c);
    ChoiceIsAt(cfg, addresses, c, job);
    assert St(c, k0, tag) != Invalid ==> Has(c, k0, tag);
    if j == i && t == tag && Has(c, k, t) {
      TagIsInItsSet(cfg, addresses, c, job, k);
    }
    hide ChoiceFor, GoodCache, SetOf, TagOf, St, Has, Ready, TagsIdentifySets, SharedBy;
  }

  /** One copy of one line, moved by both protocols. */
  lemma CopiesStaySimilar(cfg: Config, addresses: set<nat>, m: System, e: System, job: Job, j: nat, k: nat, t: nat)
    requires cfg.Valid() && TagsIdentifySets(cfg, addresses) && Similar(cfg, m, e)
    requires Ready(false, Msi(cfg), addresses, m) && Ready(true, Mesi(cfg), addresses, e)
    requires job.address in addresses && job.threadId < cfg.numProcessors && j < cfg.numProcessors && k < cfg.NumSets()
    ensures Moved(Msi(cfg), m, job, j, k, t) == Collapse(Moved(Mesi(cfg), e, job, j, k, t))
    ensures HasAfter(Msi(cfg), m, job, j, k, t) == HasAfter(Mesi(cfg), e, job, j, k, t)
    ensures (ChoiceFor(Mesi(cfg), e.caches[job.threadId].sets, job) == MarkingHit || ChoiceFor(Mesi(cfg), e.caches[job.threadId].sets, job) == OnBus)
            <==> ChoiceFor(Msi(cfg), m.caches[job.threadId].sets, job) == OnBus
  {
    hide *;
    var i, k0, tag := job.threadId, SetOf(cfg, job.address), TagOf(cfg, job.address);
    WidthsAgree(cfg, job);
    ReadyCaches(cfg, addresses, m, e, i);
    ReadyCaches(cfg, addresses, m, e, j);
    var line, st := St(e.caches[i], k0, tag), St(e.caches[j], k, t);
    SameDecoding(cfg, addresses);
    LegalIn(Mesi(cfg), addresses, e.caches[j], k, t);
    LegalIn(Mesi(cfg), addresses, e.caches[i], k0, tag);
    SimilarAt(cfg, m, e, j, k, t);
    SimilarAt(cfg, m, e, i, k0, tag);
    MovedIsLineStep(Msi(cfg), addresses, m, job, j, k, t);
    MovedIsLineStep(Mesi(cfg), addresses, e, job, j, k, t);
    ChoiceIsAt(Msi(cfg), addresses, m.caches[i], job);
    ChoiceIsAt(Mesi(cfg), addresses, e.caches[i], job);
    if k == k0 && t == tag {
      if j != i {
        CompatibleAt(cfg, addresses, e, i, j, k, t);
      }
      LineStepsAgree(job, line, j == i, st, SharedBy(Msi(cfg), m, job), SharedBy(Mesi(cfg), e, job));
    }
    ChoicesAgree(job, line);
    ValidIsThere(e.caches[i], k0, tag);
  }

  lemma WidthsAgree(cfg: Config, job: Job)
    requires cfg.Valid()
    ensures Msi(cfg).Valid() && Mesi(cfg).Valid()
    ensures Msi(cfg).protocol == MSI && Mesi(cfg).protocol == MESI
    ensures Msi(cfg).NumSets() == Mesi(cfg).NumSets() == cfg.NumSets()
    ensures SetOf(Msi(cfg), job.address) == SetOf(Mesi(cfg), job.address) == SetOf(cfg, job.address)
    ensures TagOf(Msi(cfg), job.address) == TagOf(Mesi(cfg), job.address) == TagOf(cfg, job.address)
  {
  }

  lemma ReadyCaches(cfg: Config, addresses: set<nat>, m: System, e: System, i: nat)
    requires cfg.Valid() && Ready(false, Msi(cfg), addresses, m) && Ready(true, Mesi(cfg), addresses, e)
    requires i < cfg.numProcessors
    ensures Ready(false, Mesi(cfg), addresses, e)
    ensures |m.caches| == |e.caches| == cfg.numProcessors
    ensures CachesShaped(Msi(cfg), m) && CachesShaped(Mesi(cfg), e)
    ensures GoodCache(Msi(cfg), addresses, m.caches[i]) && GoodCache(Mesi(cfg), addresses, e.caches[i])
    ensures |m.caches[i].sets| == |e.caches[i].sets| == cfg.NumSets()
  {
    hide LinesFrom, St, RequestFor, Pairwise, OthersAgree, BusServes, Idle;
  }

  lemma CompatibleAt(cfg: Config, addresses: set<nat>, e: System, i: nat, j: nat, k: nat, t: nat)
    requires cfg.Valid() && Ready(true, Mesi(cfg), addresses, e) && k < cfg.NumSets()
    requires i < |e.caches| && j < |e.caches| && i != j
    ensures |e.caches[i].sets| == |e.caches[j].sets| == cfg.NumSets()
    ensures Compatible(MESI, St(e.caches[i], k, t), St(e.caches[j], k, t))
  {
    hide GoodCache, St, Compatible, OthersAgree, BusServes;
  }

  lemma ValidIsThere(c: CacheState, k: nat, t: nat)
    requires k < |c.sets|
    ensures St(c, k, t) != Invalid ==> Has(c, k, t)
  {
  }

  lemma ChoicesAgree(job: Job, line: State)
    requires Legal(MESI, line)
    ensures (ChoiceAt(MESI, line, job) in {MarkingHit, OnBus}) <==> ChoiceAt(MSI, Collapse(line), job) == OnBus
    ensures ChoiceAt(MESI, line, job) == MarkingHit ==> line == Exclusive
  {
  }

  lemma SameDecoding(cfg: Config, addresses: set<nat>)
    requires cfg.Valid() && TagsIdentifySets(cfg, addresses)
    ensures TagsIdentifySets(Msi(cfg), addresses) && TagsIdentifySets(Mesi(cfg), addresses)
  {
    forall a, b | a in addresses && b in addresses && TagOf(Msi(cfg), a) == TagOf(Msi(cfg), b)
      ensures SetOf(Msi(cfg), a) == SetOf(Msi(cfg), b)
    {
      assert TagOf(cfg, a) == TagOf(cfg, b);
    }
    forall a, b | a in addresses && b in addresses && TagOf(Mesi(cfg), a) == TagOf(Mesi(cfg), b)
      ensures SetOf(Mesi(cfg), a) == SetOf(Mesi(cfg), b)
    {
      assert TagOf(cfg, a) == TagOf(cfg, b);
    }
  }

  lemma SimilarAt(cfg: Config, m: System, e: System, j: nat, k: nat, t: nat)
    requires Similar(cfg, m, e) && j < cfg.numProcessors && k < cfg.NumSets()
    ensures |m.caches[j].sets| == |e.caches[j].sets| == cfg.NumSets()
    ensures St(m.caches[j], k, t) == Collapse(St(e.caches[j], k, t)) && Has(m.caches[j], k, t) == Has(e.caches[j], k, t)
    ensures St(m.caches[j], k, t) != Invalid ==> Has(m.caches[j], k, t)
  {
  }

  // ---------------------------------------------------------------------
  // Whole jobs and whole traces
  // ---------------------------------------------------------------------

  /** The counters the simulation compares, after one job. */
  lemma MissesAfterJob(cfg: Config, addresses: set<nat>, s: System, job: Job)
    requires cfg.Valid() && cfg.protocol != MOESI && Ready(false, cfg, addresses, s)
    requires job.address in addresses && job.threadId < |s.caches|
    ensures var choice := ChoiceFor(cfg, s.caches[job.threadId].sets, job);
            var e := RunJob(cfg, s, job).stats;
            && e.numMiss == s.stats.numMiss + One(choice == OnBus)
            && e.numExclusiveToModifiedTransitions == s.stats.numExclusiveToModifiedTransitions + One(choice == MarkingHit)
  {
    hide Ready, Taken, RunJob, ChoiceFor, SetOf, TagOf, NeedToEvict;
    assert Quiescent(cfg, s) by { ReadyIsQuiescent(cfg, addresses, s); }
    TakenChoice(cfg, s, job);
    JobCounts(cfg, addresses, s, job);
    hide Quiescent;
  }

  lemma ReadyIsQuiescent(cfg: Config, addresses: set<nat>, s: System)
    requires cfg.Valid() && Ready(false, cfg, addresses, s)
    ensures Quiescent(cfg, s)
  {
  }

  /** Both machines move every copy in cache `j` the same way. */
  ghost predicate MovesAgree(cfg: Config, m: System, e: System, job: Job, j: nat)
    requires cfg.Valid() && CachesShaped(Msi(cfg), m) && CachesShaped(Mesi(cfg), e)
    requires job.threadId < cfg.numProcessors && j < cfg.numProcessors
  {
    forall k, t {:trigger Moved(Msi(cfg), m, job, j, k, t)} :: 0 <= k < cfg.NumSets() && 0 <= t ==>
      && Moved(Msi(cfg), m, job, j, k, t) == Collapse(Moved(Mesi(cfg), e, job, j, k, t))
      && HasAfter(Msi(cfg), m, job, j, k, t) == HasAfter(Mesi(cfg), e, job, j, k, t)
  }

  lemma MovesDoAgree(cfg: Config, addresses: set<nat>, m: System, e: System, job: Job, j: nat)
    requires cfg.Valid() && TagsIdentifySets(cfg, addresses) && Similar(cfg, m, e)
    requires Ready(false, Msi(cfg), addresses, m) && Ready(true, Mesi(cfg), addresses, e)
    requires CachesShaped(Msi(cfg), m) && CachesShaped(Mesi(cfg), e)
    requires job.address in addresses && job.threadId < cfg.numProcessors && j < cfg.numProcessors
    ensures MovesAgree(cfg, m, e, job, j)
  {
    hide Ready, Similar, TagsIdentifySets, Moved, HasAfter, Shaped;
    forall k, t | 0 <= k < cfg.NumSets() && 0 <= t
      ensures Moved(Msi(cfg), m, job, j, k, t) == Collapse(Moved(Mesi(cfg), e, job, j, k, t))
      ensures HasAfter(Msi(cfg), m, job, j, k, t) == HasAfter(Mesi(cfg), e, job, j, k, t)
    {
      CopiesStaySimilar(cfg, addresses, m, e, job, j, k, t);
    }
  }

  lemma CachesStaySimilar(cfg: Config, m: System, e: System, job: Job, j: nat, victim: Option<nat>, m': CacheState, e': CacheState)
    requires cfg.Valid() && CachesShaped(Msi(cfg), m) && CachesShaped(Mesi(cfg), e)
    requires job.threadId < cfg.numProcessors && j < cfg.numProcessors
    requires MovedTo(Msi(cfg), m, job, j, victim, m') && MovedTo(Mesi(cfg), e, job, j, victim, e')
    requires MovesAgree(cfg, m, e, job, j)
    ensures SimilarCaches(cfg, m', e')
  {
    hide Moved, HasAfter, St, Has;
    forall k, t | 0 <= k < cfg.NumSets() && 0 <= t
      ensures St(m', k, t) == Collapse(St(e', k, t)) && Has(m', k, t) == Has(e', k, t)
    {
      assert Moved(Msi(cfg), m, job, j, k, t) == Collapse(Moved(Mesi(cfg), e, job, j, k, t));
    }
  }

  /** What the simulation keeps between jobs. */
  ghost predicate InStep(cfg: Config, addresses: set<nat>, trace: seq<Job>, m: System, e: System)
    requires cfg.Valid()
  {
    && Ready(false, Msi(cfg), addresses, m) && Ready(true, Mesi(cfg), addresses, e)
    && Similar(cfg, m, e)
    && OwnLines(Msi(cfg), m, trace) && OwnLines(Mesi(cfg), e, trace)
  }

  /** Both machines are between jobs and have room for the next one. */
  lemma InStepHasRoom(cfg: Config, addresses: set<nat>, trace: seq<Job>, m: System, e: System, job: Job)
    requires cfg.Valid() && NeverCrowded(cfg, trace) && InStep(cfg, addresses, trace, m, e)
    requires job in trace && job.threadId < cfg.numProcessors
    ensures Ready(false, Mesi(cfg), addresses, e)
    ensures |m.caches| == |e.caches| == cfg.numProcessors && CachesShaped(Msi(cfg), m) && CachesShaped(Mesi(cfg), e)
    ensures HasRoom(Msi(cfg), m, job) && HasRoom(Mesi(cfg), e, job)
  {
    hide GoodCache, NeverCrowded, HasRoom, SimilarCaches;
    ReadyWithoutCoherence(true, Mesi(cfg), addresses, e);
    SameCrowding(cfg, trace);
    OwnLinesHaveRoom(Msi(cfg), addresses, m, trace, job);
    OwnLinesHaveRoom(Mesi(cfg), addresses, e, trace, job);
  }

  lemma JobShape(strict: bool, cfg: Config, addresses: set<nat>, s: System, job: Job)
    requires cfg.Valid() && cfg.protocol != MOESI && Ready(strict, cfg, addresses, s) && (strict ==> TraceOk(cfg, addresses))
    requires job.threadId < |s.caches| && job.address in addresses
    ensures CachesShaped(cfg, RunJob(cfg, s, job))
  {
    hide RunJob;
    RunJobIsReady(strict, cfg, addresses, s, job);
  }

  lemma InStepParts(cfg: Config, addresses: set<nat>, trace: seq<Job>, m: System, e: System)
    requires cfg.Valid() && InStep(cfg, addresses, trace, m, e)
    ensures Ready(false, Msi(cfg), addresses, m) && Ready(true, Mesi(cfg), addresses, e) && Similar(cfg, m, e)
    ensures CachesShaped(Msi(cfg), m) && CachesShaped(Mesi(cfg), e)
    ensures OwnLines(Msi(cfg), m, trace) && OwnLines(Mesi(cfg), e, trace)
  {
  }

  lemma CacheStaysSimilar(cfg: Config, addresses: set<nat>, trace: seq<Job>, m: System, e: System, job: Job, j: nat)
    requires cfg.Valid() && TagsIdentifySets(cfg, addresses) && NeverCrowded(cfg, trace) && InStep(cfg, addresses, trace, m, e)
    requires job in trace && job.address in addresses && job.threadId < cfg.numProcessors && j < cfg.numProcessors
    ensures var m', e' := RunJob(Msi(cfg), m, job), RunJob(Mesi(cfg), e, job);
            && |m'.caches| == |e'.caches| == cfg.numProcessors
            && SimilarCaches(cfg, m'.caches[j], e'.caches[j])
  {
    SameWidths(cfg);
    ReadyQuiet(cfg, addresses, trace, m, e);
    hide *;
    InStepParts(cfg, addresses, trace, m, e);
    InStepHasRoom(cfg, addresses, trace, m, e, job);
    var vm := RunJobMoves(Msi(cfg), addresses, m, job, j);
    var ve := RunJobMoves(Mesi(cfg), addresses, e, job, j);
    MovesDoAgree(cfg, addresses, m, e, job, j);
    CachesStaySimilar(cfg, m, e, job, j, None, RunJob(Msi(cfg), m, job).caches[j], RunJob(Mesi(cfg), e, job).caches[j]);
  }

  lemma SameWidths(cfg: Config)
    requires cfg.Valid()
    ensures Msi(cfg).Valid() && Mesi(cfg).Valid()
    ensures Msi(cfg).protocol == MSI && Mesi(cfg).protocol == MESI
    ensures Msi(cfg).NumSets() == Mesi(cfg).NumSets() == cfg.NumSets()
    ensures Msi(cfg).numProcessors == Mesi(cfg).numProcessors == cfg.numProcessors
  {
  }

  lemma ReadyQuiet(cfg: Config, addresses: set<nat>, trace: seq<Job>, m: System, e: System)
    requires cfg.Valid() && InStep(cfg, addresses, trace, m, e)
    ensures Quiescent(Msi(cfg), m) && Quiescent(Mesi(cfg), e)
  {
  }

  lemma JobStaysSimilar(cfg: Config, addresses: set<nat>, trace: seq<Job>, m: System, e: System, job: Job)
    requires cfg.Valid() && TagsIdentifySets(cfg, addresses) && NeverCrowded(cfg, trace) && InStep(cfg, addresses, trace, m, e)
    requires job in trace && job.address in addresses && job.threadId < cfg.numProcessors
    ensures var m', e' := RunJob(Msi(cfg), m, job), RunJob(Mesi(cfg), e, job);
            && Similar(cfg, m', e')
            && CachesShaped(Msi(cfg), m') && CachesShaped(Mesi(cfg), e')
            && OwnLines(Msi(cfg), m', trace) && OwnLines(Mesi(cfg), e', trace)
  {
    SameWidths(cfg);
    ReadyQuiet(cfg, addresses, trace, m, e);
    hide *;
    InStepParts(cfg, addresses, trace, m, e);
    InStepHasRoom(cfg, addresses, trace, m, e, job);
    SameDecoding(cfg, addresses);
    JobShape(false, Msi(cfg), addresses, m, job);
    JobShape(true, Mesi(cfg), addresses, e, job);
    OwnLinesAfter(Msi(cfg), addresses, m, trace, job);
    OwnLinesAfter(Mesi(cfg), addresses, e, trace, job);
    forall j | 0 <= j < cfg.numProcessors {
      CacheStaysSimilar(cfg, addresses, trace, m, e, job, j);
    }
    MissesStayInStep(cfg, addresses, m, e, job);
    SimilarFrom(cfg, RunJob(Msi(cfg), m, job), RunJob(Mesi(cfg), e, job));
  }

  lemma SimilarFrom(cfg: Config, m: System, e: System)
    requires |m.caches| == |e.caches| == cfg.numProcessors
    requires forall j :: 0 <= j < |m.caches| ==> SimilarCaches(cfg, m.caches[j], e.caches[j])
    requires m.stats.numMiss == e.stats.numMiss + e.stats.numExclusiveToModifiedTransitions
    ensures Similar(cfg, m, e)
  {
    hide SimilarCaches;
  }

  lemma MissesStayInStep(cfg: Config, addresses: set<nat>, m: System, e: System, job: Job)
    requires cfg.Valid() && TagsIdentifySets(cfg, addresses) && Similar(cfg, m, e)
    requires Ready(false, Msi(cfg), addresses, m) && Ready(true, Mesi(cfg), addresses, e)
    requires job.address in addresses && job.threadId < cfg.numProcessors
    ensures RunJob(Msi(cfg), m, job).stats.numMiss
            == RunJob(Mesi(cfg), e, job).stats.numMiss + RunJob(Mesi(cfg), e, job).stats.numExclusiveToModifiedTransitions
  {
    SameWidths(cfg);
    hide SimilarCaches, ChoiceFor, RunJob, Ready, Quiescent, Pow2;
    ReadyWithoutCoherence(true, Mesi(cfg), addresses, e);
    MissesAfterJob(Msi(cfg), addresses, m, job);
    MissesAfterJob(Mesi(cfg), addresses, e, job);
    CopiesStaySimilar(cfg, addresses, m, e, job, 0, 0, 0);
  }

  lemma SameCrowding(cfg: Config, trace: seq<Job>)
    requires cfg.Valid() && NeverCrowded(cfg, trace)
    ensures NeverCrowded(Msi(cfg), trace) && NeverCrowded(Mesi(cfg), trace)
  {
    forall i: nat, k: nat
      ensures |TagsSeen(Msi(cfg), trace, i, k)| <= cfg.numLinesInSet
      ensures |TagsSeen(Mesi(cfg), trace, i, k)| <= cfg.numLinesInSet
    {
      assert TagsSeen(Msi(cfg), trace, i, k) == TagsSeen(cfg, trace, i, k);
      assert TagsSeen(Mesi(cfg), trace, i, k) == TagsSeen(cfg, trace, i, k);
    }
  }

  lemma OwnLinesAfter(cfg: Config, addresses: set<nat>, s: System, trace: seq<Job>, job: Job)
    requires cfg.Valid() && cfg.protocol != MOESI && Ready(false, cfg, addresses, s) && OwnLines(cfg, s, trace)
    requires job in trace && job.threadId < |s.caches| && HasRoom(cfg, s, job) && CachesShaped(cfg, RunJob(cfg, s, job))
    ensures OwnLines(cfg, RunJob(cfg, s, job), trace)
  {
    var s' := RunJob(cfg, s, job);
    hide RunJob, Coherent, ChoiceFor, HasRoom, SetOf, TagOf, Moved, Has;
    forall j, k, t | 0 <= j < |s'.caches| && 0 <= k < cfg.NumSets() && 0 <= t && Has(s'.caches[j], k, t)
      ensures t in TagsSeen(cfg, trace, j, k)
    {
      var victim := RunJobMoves(cfg, addresses, s, job, j);
      assert HasAfter(cfg, s, job, j, k, t);
    }
  }

  lemma {:induction false} RunsStayInStep(cfg: Config, trace: seq<Job>, n: nat)
    requires cfg.Valid() && JobsInRange(cfg, trace) && n <= |trace|
    requires TagsIdentifySets(cfg, JobAddresses(trace)) && NeverCrowded(cfg, trace)
    ensures InStep(cfg, JobAddresses(trace), trace, RunTrace(Msi(cfg), trace[..n]), RunTrace(Mesi(cfg), trace[..n]))
  {
    var addresses := JobAddresses(trace);
    hide Ready, Similar, OwnLines, RunJob, NeverCrowded, Quiescent, TagsIdentifySets, Init, Pow2;
    PrefixesAreReady(cfg, trace, n);
    if n == 0 {
      InitInStep(cfg, trace);
    } else {
      var job := trace[n - 1];
      assert job in trace && job.address in addresses;
      RunsStayInStep(cfg, trace, n - 1);
      assert trace[..n][..n - 1] == trace[..n - 1];
      JobStaysSimilar(cfg, addresses, trace, RunTrace(Msi(cfg), trace[..n - 1]), RunTrace(Mesi(cfg), trace[..n - 1]), job);
    }
  }

  lemma PrefixesAreReady(cfg: Config, trace: seq<Job>, n: nat)
    requires cfg.Valid() && JobsInRange(cfg, trace) && n <= |trace| && TagsIdentifySets(cfg, JobAddresses(trace))
    ensures Ready(false, Msi(cfg), JobAddresses(trace), RunTrace(Msi(cfg), trace[..n]))
    ensures Ready(true, Mesi(cfg), JobAddresses(trace), RunTrace(Mesi(cfg), trace[..n]))
  {
    hide Ready, RunTrace, TagsIdentifySets, Quiescent, Pow2;
    SameDecoding(cfg, JobAddresses(trace));
    assert JobAddresses(trace[..n]) <= JobAddresses(trace);
    RunTraceIsReady(false, Msi(cfg), JobAddresses(trace), trace[..n]);
    RunTraceIsReady(true, Mesi(cfg), JobAddresses(trace), trace[..n]);
  }

  lemma InitInStep(cfg: Config, trace: seq<Job>)
    requires cfg.Valid()
    ensures CachesShaped(Msi(cfg), Init(Msi(cfg))) && CachesShaped(Mesi(cfg), Init(Mesi(cfg)))
    ensures Similar(cfg, Init(Msi(cfg)), Init(Mesi(cfg)))
    ensures OwnLines(Msi(cfg), Init(Msi(cfg)), trace) && OwnLines(Mesi(cfg), Init(Mesi(cfg)), trace)
  {
    hide TagsSeen;
  }

  /** On every trace whose tags identify sets and that crowds no set, the MSI and MESI loops
      end in the same states up to exclusive, and MESI's misses plus its silent upgrades are
      MSI's misses. */
  lemma MesiSimulatesMsi(cfg: Config, trace: seq<Job>)
    requires cfg.Valid() && JobsInRange(cfg, trace)
    requires TagsIdentifySets(cfg, JobAddresses(trace)) && NeverCrowded(cfg, trace)
    ensures var m, e := RunTrace(Msi(cfg), trace), RunTrace(Mesi(cfg), trace);
            && |m.caches| == |e.caches| == cfg.numProcessors
            && (forall j :: 0 <= j < cfg.numProcessors ==>
                  && |m.caches[j].sets| == |e.caches[j].sets| == cfg.NumSets()
                  && forall k, t {:trigger St(m.caches[j], k, t)} :: 0 <= k < cfg.NumSets() && 0 <= t ==>
                       St(m.caches[j], k, t) == Collapse(St(e.caches[j], k, t)))
            && m.stats.numMiss == e.stats.numMiss + e.stats.numExclusiveToModifiedTransitions
  {
    assert trace[..|trace|] == trace;
    RunsStayInStep(cfg, trace, |trace|);
    hide RunTrace, Ready, OwnLines, St, Has, Quiescent;
  }
}
