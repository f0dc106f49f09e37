/** Where every copy of a line is after a job, state by state; and which lines are dirty, that
    is modified or owned somewhere, after a whole trace. */
module DirtyLines {
  import opened Constants
  import opened LineSets
  import opened CacheModel
  import opened SystemModel
  import opened Coherence
  import opened Safety
  import opened JobRunner
  import opened CycleLoop
  import opened JobEffects
  import opened Ledger
  import opened Simulation

  /** The job is about this line. */
  predicate Concerns(cfg: Config, job: Job, k: nat, tag: nat)
    requires cfg.Valid()
  {
    k == SetOf(cfg, job.address) && tag == TagOf(cfg, job.address)
  }

  /** The copy of another cache, before and after a job that uses the bus for its line. */
  lemma OtherCopyMoves(cfg: Config, addresses: set<nat>, s: System, job: Job, j: nat, k: nat, tag: nat)
    requires cfg.Valid() && Ready(false, cfg, addresses, s)
    requires job.threadId < |s.caches| && j < |s.caches| && j != job.threadId && k < cfg.NumSets()
    ensures CachesShaped(cfg, s) && |RunJob(cfg, s, job).caches| == |s.caches| && |RunJob(cfg, s, job).caches[j].sets| == cfg.NumSets()
    ensures var st, st' := St(s.caches[j], k, tag), St(RunJob(cfg, s, job).caches[j], k, tag);
            if !(ChoiceOf(cfg, s, job).UsesBus() && Concerns(cfg, job, k, tag)) then st' == st
            else if job.IsWrite() then st' == Invalid
            else
              && (st == Modified ==> st' == if cfg.protocol == MOESI then Owned else Shared)
              && (st == Owned ==> st' == Owned)
              && (st == Exclusive ==> st' == Shared)
              && (st == Shared ==> st' == Shared)
              && (st == Invalid ==> st' == Invalid)
  {
    OtherLegal(cfg, addresses, s, j, k, tag);
    hide RunJob, ChoiceFor, SetOf, TagOf, Ready, Has, St, Quiescent, Shaped, HasAfter;
    var victim := RunJobMoves(cfg, addresses, s, job, j);
    var c := RunJob(cfg, s, job).caches[j];
    assert St(c, k, tag) == if Evicted(cfg, job, j, victim, k, tag) then Invalid else Moved(cfg, s, job, j, k, tag);
  }

  lemma OtherLegal(cfg: Config, addresses: set<nat>, s: System, j: nat, k: nat, tag: nat)
    requires cfg.Valid() && Ready(false, cfg, addresses, s) && j < |s.caches| && k < cfg.NumSets()
    ensures Quiescent(cfg, s) && CachesShaped(cfg, s)
    ensures |s.caches[j].sets| == cfg.NumSets() && Legal(cfg.protocol, St(s.caches[j], k, tag))
  {
    hide Idle, BusServes;
    LegalIn(cfg, addresses, s.caches[j], k, tag);
  }

  /** The copy of the job's own cache.  A bus transaction leaves its line modified after a write;
      after a read, exclusive if the protocol has that state and nobody supplied the line, and
      shared otherwise. */
  lemma OwnCopyMoves(cfg: Config, addresses: set<nat>, s: System, job: Job, k: nat, tag: nat)
    requires cfg.Valid() && Ready(false, cfg, addresses, s) && job.threadId < |s.caches| && k < cfg.NumSets()
    ensures Quiescent(cfg, s) && CachesShaped(cfg, s) && |RunJob(cfg, s, job).caches| == |s.caches|
    ensures |RunJob(cfg, s, job).caches[job.threadId].sets| == cfg.NumSets()
    ensures var i, choice := job.threadId, ChoiceOf(cfg, s, job);
            var st, st' := St(s.caches[i], k, tag), St(RunJob(cfg, s, job).caches[i], k, tag);
            if choice.UsesBus() && Concerns(cfg, job, k, tag) then
              st' == if job.IsWrite() then Modified
                     else if cfg.protocol != MSI && !FindsSharer(cfg, s, job) then Exclusive
                     else Shared
            else if VictimOf(cfg, s, job) == Some(tag) && k == SetOf(cfg, job.address) then st' == Invalid
            else if choice.Marks() && tag == TagOf(cfg, job.address) && Has(s.caches[i], k, tag) then st' == Modified
            else st' == st
  {
    OtherLegal(cfg, addresses, s, job.threadId, k, tag);
    hide RunJob, SetOf, TagOf, Ready, Has, St, Quiescent, Shaped, HasAfter, SharedBy, FindsSharer, VictimOf, HasRoom;
    if ChoiceOf(cfg, s, job).UsesBus() {
      SharersAre(cfg, s, job);
      BusIsReadOrWrite(cfg, s, job);
    }
    hide ChoiceFor;
    var i := job.threadId;
    var victim := RunJobMoves(cfg, addresses, s, job, i);
    var c := RunJob(cfg, s, job).caches[i];
    assert St(c, k, tag) == if Evicted(cfg, job, i, victim, k, tag) then Invalid else Moved(cfg, s, job, i, k, tag);
  }

  lemma BusIsReadOrWrite(cfg: Config, s: System, job: Job)
    requires cfg.Valid() && job.threadId < |s.caches| && ChoiceOf(cfg, s, job).UsesBus()
    ensures job.IsRead() || job.IsWrite()
  {
    hide TagInState, TagOf;
  }

  /** The bus's flag rises for the copies from which the protocol shares. */
  lemma SharersAre(cfg: Config, s: System, job: Job)
    requires cfg.Valid() && CachesShaped(cfg, s) && job.threadId < |s.caches| && ChoiceOf(cfg, s, job).UsesBus()
    ensures SharedBy(cfg, s, job) <==> FindsSharer(cfg, s, job)
  {
    hide ChoiceFor, St, SetOf, TagOf, SnoopAnswer, Shares, CanShare;
    forall j | 0 <= j < |s.caches|
      ensures var st := St(s.caches[j], SetOf(cfg, job.address), TagOf(cfg, job.address));
              Shares(cfg.protocol, SnoopAnswer(cfg.protocol, CommandOf(job), st)) <==> CanShare(cfg.protocol, st)
    {
      SharingState(cfg.protocol, CommandOf(job), St(s.caches[j], SetOf(cfg, job.address), TagOf(cfg, job.address)));
    }
  }

  lemma SharingState(p: Protocol, command: Command, st: State)
    ensures Shares(p, SnoopAnswer(p, command, st)) <==> CanShare(p, st)
  {
  }

  // ---------------------------------------------------------------------
  // Dirty lines
  // ---------------------------------------------------------------------

  predicate DirtyIn(c: CacheState, k: nat, tag: nat)
    requires k < |c.sets|
  {
    St(c, k, tag) == Modified || St(c, k, tag) == Owned
  }

  /** Some cache holds the line modified or owned. */
  predicate Dirty(cfg: Config, s: System, k: nat, tag: nat)
    requires CachesShaped(cfg, s) && k < cfg.NumSets()
  {
    exists j :: 0 <= j < |s.caches| && DirtyIn(s.caches[j], k, tag)
  }

  /** The job's cache holds the line dirty and evicts it. */
  predicate EvictsDirty(cfg: Config, s: System, job: Job, k: nat, tag: nat)
    requires cfg.Valid() && Quiescent(cfg, s) && job.threadId < |s.caches| && k < cfg.NumSets()
  {
    DirtyIn(s.caches[job.threadId], k, tag) && k == SetOf(cfg, job.address) && VictimOf(cfg, s, job) == Some(tag)
  }

  /** The job takes the line from a protocol without owners to a cache that does not hold it dirty. */
  predicate FlushesDirty(cfg: Config, s: System, job: Job, k: nat, tag: nat)
    requires cfg.Valid() && Quiescent(cfg, s) && job.threadId < |s.caches| && k < cfg.NumSets()
  {
    cfg.protocol != MOESI && job.IsRead() && Concerns(cfg, job, k, tag) && !DirtyIn(s.caches[job.threadId], k, tag)
  }

  lemma OtherDirty(cfg: Config, addresses: set<nat>, s: System, job: Job, j: nat, k: nat, tag: nat)
    requires cfg.Valid() && Ready(false, cfg, addresses, s)
    requires job.threadId < |s.caches| && j < |s.caches| && j != job.threadId && k < cfg.NumSets()
    ensures CachesShaped(cfg, s) && |RunJob(cfg, s, job).caches| == |s.caches| && |RunJob(cfg, s, job).caches[j].sets| == cfg.NumSets()
    ensures DirtyIn(RunJob(cfg, s, job).caches[j], k, tag)
            <==> && DirtyIn(s.caches[j], k, tag)
                 && !(ChoiceOf(cfg, s, job).UsesBus() && Concerns(cfg, job, k, tag) && (job.IsWrite() || cfg.protocol != MOESI))
  {
    OtherLegal(cfg, addresses, s, j, k, tag);
    hide RunJob, ChoiceOf, Concerns, Ready, St, Quiescent, Shaped;
    OtherCopyMoves(cfg, addresses, s, job, j, k, tag);
  }

  /** No line is evicted for itself. */
  lemma VictimIsOther(cfg: Config, addresses: set<nat>, s: System, job: Job)
    requires cfg.Valid() && Ready(false, cfg, addresses, s) && job.threadId < |s.caches| && Quiescent(cfg, s)
    ensures VictimOf(cfg, s, job) != Some(TagOf(cfg, job.address))
  {
    hide RunJob, ChoiceFor, Ready, Quiescent, VictimOf, TagOf, SetOf, MovedTo, HasRoom;
    var victim := RunJobMoves(cfg, addresses, s, job, job.threadId);
  }

  lemma OwnDirty(cfg: Config, addresses: set<nat>, s: System, job: Job, k: nat, tag: nat)
    requires cfg.Valid() && Ready(false, cfg, addresses, s) && job.threadId < |s.caches| && k < cfg.NumSets()
    requires TagsIdentifySets(cfg, addresses) && job.address in addresses
    ensures Quiescent(cfg, s) && CachesShaped(cfg, s) && |RunJob(cfg, s, job).caches| == |s.caches|
    ensures |RunJob(cfg, s, job).caches[job.threadId].sets| == cfg.NumSets()
    ensures DirtyIn(RunJob(cfg, s, job).caches[job.threadId], k, tag)
            <==> (job.IsWrite() && Concerns(cfg, job, k, tag))
                 || (DirtyIn(s.caches[job.threadId], k, tag) && !EvictsDirty(cfg, s, job, k, tag))
  {
    var c := s.caches[job.threadId];
    OtherLegal(cfg, addresses, s, job.threadId, k, tag);
    assert GoodCache(cfg, addresses, c);
    hide RunJob, ChoiceFor, Ready, St, Quiescent, Shaped, GoodCache, VictimOf, SetOf, TagOf, FindsSharer, TagsIdentifySets, Has;
    OwnCopyMoves(cfg, addresses, s, job, k, tag);
    VictimIsOther(cfg, addresses, s, job);
    ChoiceIsAt(cfg, addresses, c, job);
    MarkedInItsSet(cfg, addresses, c, job, k, tag);
  }

  /** A marked line is the job's own. */
  lemma MarkedInItsSet(cfg: Config, addresses: set<nat>, c: CacheState, job: Job, k: nat, tag: nat)
    requires cfg.Valid() && TagsIdentifySets(cfg, addresses) && GoodCache(cfg, addresses, c) && job.address in addresses && k < |c.sets|
    ensures SetOf(cfg, job.address) < |c.sets|
    ensures Has(c, k, tag) && tag == TagOf(cfg, job.address) ==> k == SetOf(cfg, job.address)
    ensures St(c, k, tag) != Invalid ==> Has(c, k, tag)
  {
    hide GoodCache, SetOf, TagOf, TagsIdentifySets;
    assert |c.sets| == cfg.NumSets() by { GoodIsShaped(cfg, addresses, c); }
    if HasLine(c.sets[k], tag) && tag == TagOf(cfg, job.address) {
      TagIsInItsSet(cfg, addresses, c, job, k);
    }
  }

  lemma GoodIsShaped(cfg: Config, addresses: set<nat>, c: CacheState)
    requires cfg.Valid() && GoodCache(cfg, addresses, c)
    ensures |c.sets| == cfg.NumSets()
  {
  }

  /** Whoever holds a line dirty is the only one, and without owners the only one with a copy. */
  lemma DirtyIsAlone(cfg: Config, addresses: set<nat>, s: System, i: nat, j: nat, k: nat, tag: nat)
    requires cfg.Valid() && Ready(true, cfg, addresses, s) && i < |s.caches| && j < |s.caches| && i != j && k < cfg.NumSets()
    ensures k < |s.caches[i].sets| && k < |s.caches[j].sets|
    ensures DirtyIn(s.caches[i], k, tag) ==> !DirtyIn(s.caches[j], k, tag) && (cfg.protocol != MOESI ==> St(s.caches[j], k, tag) == Invalid)
  {
    hide Ready, St;
    PairwiseAt(cfg, addresses, s, k, tag);
    assert if i < j then Compatible(cfg.protocol, St(s.caches[i], k, tag), St(s.caches[j], k, tag))
           else Compatible(cfg.protocol, St(s.caches[j], k, tag), St(s.caches[i], k, tag));
  }

  /** A read of a line that is dirty elsewhere goes to the bus, if the protocol has no owners. */
  lemma DirtyReadUsesBus(cfg: Config, addresses: set<nat>, s: System, job: Job, j: nat, k: nat, tag: nat)
    requires cfg.Valid() && Ready(true, cfg, addresses, s) && job.threadId < |s.caches| && j < |s.caches| && j != job.threadId
    requires TagsIdentifySets(cfg, addresses) && job.address in addresses && k < cfg.NumSets() && CachesShaped(cfg, s)
    requires cfg.protocol != MOESI && job.IsRead() && Concerns(cfg, job, k, tag) && DirtyIn(s.caches[j], k, tag)
    ensures ChoiceOf(cfg, s, job).UsesBus()
  {
    var c := s.caches[job.threadId];
    assert GoodCache(cfg, addresses, c);
    hide Ready, St, GoodCache, ChoiceFor, SetOf, TagOf, TagsIdentifySets;
    DirtyIsAlone(cfg, addresses, s, j, job.threadId, k, tag);
    ChoiceIsAt(cfg, addresses, c, job);
  }

  /** What a job makes of one cache's dirty copy, given who else holds it. */
  lemma OtherStaysDirty(cfg: Config, addresses: set<nat>, s: System, job: Job, j: nat, k: nat, tag: nat)
    requires cfg.Valid() && Ready(true, cfg, addresses, s) && Ready(false, cfg, addresses, s)
    requires TagsIdentifySets(cfg, addresses) && job.address in addresses
    requires job.threadId < |s.caches| && j < |s.caches| && j != job.threadId && k < cfg.NumSets()
    requires Quiescent(cfg, s) && !(job.IsWrite() && Concerns(cfg, job, k, tag))
    ensures CachesShaped(cfg, s) && |RunJob(cfg, s, job).caches| == |s.caches| && |RunJob(cfg, s, job).caches[j].sets| == cfg.NumSets()
    ensures DirtyIn(RunJob(cfg, s, job).caches[j], k, tag)
            <==> DirtyIn(s.caches[j], k, tag) && !EvictsDirty(cfg, s, job, k, tag) && !FlushesDirty(cfg, s, job, k, tag)
  {
    hide Ready, DirtyIn, RunJob, VictimOf, ChoiceOf, Concerns, Quiescent, Shaped, TagsIdentifySets;
    OtherDirty(cfg, addresses, s, job, j, k, tag);
    DirtyIsAlone(cfg, addresses, s, j, job.threadId, k, tag);
    if ChoiceOf(cfg, s, job).UsesBus() {
      BusIsReadOrWrite(cfg, s, job);
    } else if cfg.protocol != MOESI && job.IsRead() && Concerns(cfg, job, k, tag) && DirtyIn(s.caches[j], k, tag) {
      DirtyReadUsesBus(cfg, addresses, s, job, j, k, tag);
    }
  }

  /** Where tags identify sets a line is dirty after a job if and only if the job wrote it, or it
      was dirty before and the job neither evicted it from its holder nor flushed it. */
  lemma DirtyAfterJob(cfg: Config, addresses: set<nat>, s: System, job: Job, k: nat, tag: nat)
    requires cfg.Valid() && Ready(true, cfg, addresses, s) && job.threadId < |s.caches| && k < cfg.NumSets()
    requires TagsIdentifySets(cfg, addresses) && job.address in addresses
    ensures Quiescent(cfg, s) && CachesShaped(cfg, s) && CachesShaped(cfg, RunJob(cfg, s, job))
    ensures Dirty(cfg, RunJob(cfg, s, job), k, tag)
            <==> (job.IsWrite() && Concerns(cfg, job, k, tag))
                 || (Dirty(cfg, s, k, tag) && !EvictsDirty(cfg, s, job, k, tag) && !FlushesDirty(cfg, s, job, k, tag))
  {
    var e, i := RunJob(cfg, s, job), job.threadId;
    assert Quiescent(cfg, s) && CachesShaped(cfg, s);
    assert CachesShaped(cfg, e) by { EndIsShaped(cfg, addresses, s, job); }
    ReadyWithoutCoherence(true, cfg, addresses, s);
    hide Ready, DirtyIn, RunJob, VictimOf, SetOf, Concerns, Quiescent, TagsIdentifySets, Shaped;
    OwnDirty(cfg, addresses, s, job, k, tag);
    if job.IsWrite() && Concerns(cfg, job, k, tag) {
      assert DirtyIn(e.caches[i], k, tag);
    } else {
      forall j | 0 <= j < |s.caches|
        ensures DirtyIn(e.caches[j], k, tag)
                <==> DirtyIn(s.caches[j], k, tag) && !EvictsDirty(cfg, s, job, k, tag) && !FlushesDirty(cfg, s, job, k, tag)
      {
        if j != i {
          OtherStaysDirty(cfg, addresses, s, job, j, k, tag);
        }
      }
    }
  }

  lemma EndIsShaped(cfg: Config, addresses: set<nat>, s: System, job: Job)
    requires cfg.Valid() && Ready(true, cfg, addresses, s) && job.threadId < |s.caches| && job.address in addresses
    requires TagsIdentifySets(cfg, addresses)
    ensures Quiescent(cfg, s) && Quiescent(cfg, RunJob(cfg, s, job)) && CachesShaped(cfg, RunJob(cfg, s, job))
  {
    hide RunJob, Coherent;
    RunJobIsReady(true, cfg, addresses, s, job);
  }

  // ---------------------------------------------------------------------
  // Whole traces
  // ---------------------------------------------------------------------

  /** The line was written, and since then neither evicted by the cache that held it dirty nor,
      where the protocol has no owners, read by another cache. */
  predicate WrittenSince(cfg: Config, trace: seq<Job>, k: nat, tag: nat)
    requires cfg.Valid() && JobsInRange(cfg, trace) && k < cfg.NumSets()
  {
    |trace| > 0
    && var n := |trace| - 1;
       var s, job := RunTrace(cfg, trace[..n]), trace[n];
       || (job.IsWrite() && Concerns(cfg, job, k, tag))
       || (WrittenSince(cfg, trace[..n], k, tag) && !EvictsDirty(cfg, s, job, k, tag) && !FlushesDirty(cfg, s, job, k, tag))
  }

  lemma PrefixIsCoherent(cfg: Config, trace: seq<Job>, n: nat)
    requires cfg.Valid() && JobsInRange(cfg, trace) && n <= |trace| && TraceOk(cfg, JobAddresses(trace))
    ensures Ready(true, cfg, JobAddresses(trace), RunTrace(cfg, trace[..n]))
  {
    assert forall j :: j in trace[..n] ==> j in trace;
    RunTraceIsReady(true, cfg, JobAddresses(trace), trace[..n]);
  }

  /** Memory is stale exactly where it should be: where tags identify sets, at the end of every
      trace a line is modified or owned in some cache if and only if it has been written and
      since then neither evicted by its holder nor flushed by another cache's read. */
  lemma {:induction false} DirtyIffWritten(cfg: Config, addresses: set<nat>, trace: seq<Job>, k: nat, tag: nat)
    requires cfg.Valid() && JobsInRange(cfg, trace) && k < cfg.NumSets()
    requires TagsIdentifySets(cfg, addresses) && JobAddresses(trace) <= addresses
    ensures CachesShaped(cfg, RunTrace(cfg, trace))
    ensures Dirty(cfg, RunTrace(cfg, trace), k, tag) <==> WrittenSince(cfg, trace, k, tag)
  {
    if |trace| == 0 {
      NothingDirty(cfg, k, tag);
    } else {
      var n := |trace| - 1;
      assert forall j :: j in trace[..n] ==> j in trace;
      assert trace[n].address in JobAddresses(trace);
      LastJob(cfg, trace);
      hide RunTrace, RunJob, Dirty, EvictsDirty, FlushesDirty, Ready, Quiescent, TagsIdentifySets;
      DirtyIffWritten(cfg, addresses, trace[..n], k, tag);
      RunTraceIsReady(true, cfg, addresses, trace[..n]);
      DirtyAfterJob(cfg, addresses, RunTrace(cfg, trace[..n]), trace[n], k, tag);
    }
  }

  lemma NothingDirty(cfg: Config, k: nat, tag: nat)
    requires cfg.Valid() && k < cfg.NumSets()
    ensures CachesShaped(cfg, Init(cfg)) && !Dirty(cfg, Init(cfg), k, tag)
  {
  }

  // ---------------------------------------------------------------------
  // MOESI, on any addresses
  // ---------------------------------------------------------------------

  lemma HeldStateIsFound(sets: seq<LineSet>, k: nat, tag: nat)
    requires k < |sets| && StateIn(sets[k], tag) != Invalid
    ensures TagInState(sets, tag, StateIn(sets[k], tag))
  {
  }

  lemma DirtyReadHits(cfg: Config, s: System, job: Job, k: nat, tag: nat)
    requires cfg.Valid() && CachesShaped(cfg, s) && job.threadId < |s.caches| && k < cfg.NumSets()
    requires job.IsRead() && Concerns(cfg, job, k, tag) && DirtyIn(s.caches[job.threadId], k, tag)
    ensures !ChoiceOf(cfg, s, job).UsesBus()
  {
    HeldStateIsFound(s.caches[job.threadId].sets, k, tag);
    hide TagInState, StateIn, TagOf, SetOf;
  }

  /** A dirty line stays dirty through a MOESI job that does not evict it from its holder. */
  lemma DirtyIsKept(cfg: Config, addresses: set<nat>, s: System, job: Job, k: nat, tag: nat)
    requires cfg.Valid() && cfg.protocol == MOESI && Ready(true, cfg, addresses, s)
    requires job.threadId < |s.caches| && job.address in addresses && k < cfg.NumSets()
    requires Quiescent(cfg, s) && CachesShaped(cfg, s) && Dirty(cfg, s, k, tag) && !EvictsDirty(cfg, s, job, k, tag)
    ensures CachesShaped(cfg, RunJob(cfg, s, job)) && Dirty(cfg, RunJob(cfg, s, job), k, tag)
  {
    var e, i := RunJob(cfg, s, job), job.threadId;
    assert CachesShaped(cfg, e) by { MoesiEndIsShaped(cfg, addresses, s, job); }
    ReadyWithoutCoherence(true, cfg, addresses, s);
    hide Ready, RunJob, VictimOf, SetOf, Quiescent, Shaped, ChoiceFor, FindsSharer, St, Has;
    var j :| 0 <= j < |s.caches| && DirtyIn(s.caches[j], k, tag);
    OwnCopyMoves(cfg, addresses, s, job, k, tag);
    if j != i {
      OtherDirty(cfg, addresses, s, job, j, k, tag);
      assert DirtyIn(e.caches[j], k, tag) || DirtyIn(e.caches[i], k, tag);
    } else {
      if ChoiceOf(cfg, s, job).UsesBus() && Concerns(cfg, job, k, tag) {
        BusIsReadOrWrite(cfg, s, job);
        if job.IsRead() {
          DirtyReadHits(cfg, s, job, k, tag);
        }
      }
      assert DirtyIn(e.caches[i], k, tag);
    }
  }

  lemma MoesiEndIsShaped(cfg: Config, addresses: set<nat>, s: System, job: Job)
    requires cfg.Valid() && cfg.protocol == MOESI && Ready(true, cfg, addresses, s) && job.threadId < |s.caches| && job.address in addresses
    ensures Quiescent(cfg, s) && CachesShaped(cfg, RunJob(cfg, s, job))
  {
    hide RunJob, Coherent;
    RunJobIsReady(true, cfg, addresses, s, job);
  }

  lemma NextJob(cfg: Config, trace: seq<Job>, m: nat)
    requires cfg.Valid() && JobsInRange(cfg, trace) && m < |trace|
    ensures RunTrace(cfg, trace[..m + 1]) == RunJob(cfg, RunTrace(cfg, trace[..m]), trace[m])
    ensures trace[m].address in JobAddresses(trace)
  {
    hide RunTrace, RunJob, Quiescent;
    assert trace[..m + 1][..m] == trace[..m];
    LastJob(cfg, trace[..m + 1]);
  }

  /** The line is dirty after the first `m` jobs. */
  predicate DirtyAfter(cfg: Config, trace: seq<Job>, m: nat, k: nat, tag: nat)
    requires cfg.Valid() && JobsInRange(cfg, trace) && m <= |trace| && k < cfg.NumSets()
  {
    QuietIsShaped(cfg, RunTrace(cfg, trace[..m]));
    Dirty(cfg, RunTrace(cfg, trace[..m]), k, tag)
  }

  /** The next job evicts the line from the cache that holds it dirty. */
  predicate EvictedNext(cfg: Config, trace: seq<Job>, m: nat, k: nat, tag: nat)
    requires cfg.Valid() && JobsInRange(cfg, trace) && m < |trace| && k < cfg.NumSets()
  {
    EvictsDirty(cfg, RunTrace(cfg, trace[..m]), trace[m], k, tag)
  }

  lemma DirtyAfterNext(cfg: Config, trace: seq<Job>, m: nat, k: nat, tag: nat)
    requires cfg.Valid() && cfg.protocol == MOESI && JobsInRange(cfg, trace) && m < |trace| && k < cfg.NumSets()
    requires DirtyAfter(cfg, trace, m, k, tag) && !EvictedNext(cfg, trace, m, k, tag)
    ensures DirtyAfter(cfg, trace, m + 1, k, tag)
  {
    var s := RunTrace(cfg, trace[..m]);
    hide RunTrace, RunJob, Dirty, EvictsDirty, Ready, Quiescent, JobAddresses, CachesShaped;
    QuietIsShaped(cfg, s);
    NextJob(cfg, trace, m);
    PrefixIsCoherent(cfg, trace, m);
    DirtyIsKept(cfg, JobAddresses(trace), s, trace[m], k, tag);
  }

  /** So under MOESI, on any addresses, a line that is dirty after `n` jobs of a trace has a
      modified or owned copy ever after, up to a job that evicts it from its holder. */
  lemma {:induction false} DirtyUntilEvicted(cfg: Config, trace: seq<Job>, n: nat, m: nat, k: nat, tag: nat)
    requires cfg.Valid() && cfg.protocol == MOESI && JobsInRange(cfg, trace) && n <= m <= |trace| && k < cfg.NumSets()
    requires DirtyAfter(cfg, trace, n, k, tag) && forall i :: n <= i < m ==> !EvictedNext(cfg, trace, i, k, tag)
    ensures DirtyAfter(cfg, trace, m, k, tag)
    decreases m
  {
    hide DirtyAfter, EvictedNext;
    if n < m {
      DirtyUntilEvicted(cfg, trace, n, m - 1, k, tag);
      DirtyAfterNext(cfg, trace, m - 1, k, tag);
    }
  }
}
