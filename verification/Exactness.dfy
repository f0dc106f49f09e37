/** MESI keeps a single writer on every trace over a set of addresses exactly when tags
    identify sets among them: the store that makes an exclusive line modified scans every
    set for the tag, and revives an invalidated line of another set. */
module Exactness {
  import opened Constants
  import opened LineSets
  import opened CacheModel
  import opened SystemModel
  import opened Coherence
  import opened Safety
  import opened ServiceTime
  import opened JobRunner
  import opened CycleLoop
  import opened JobEffects
  import opened Simulation

  /** A modified or exclusive copy is the only valid one. */
  ghost predicate SingleWriter(cfg: Config, s: System)
    requires CachesShaped(cfg, s)
  {
    forall i, j, k, t {:trigger St(s.caches[i], k, t), St(s.caches[j], k, t)} ::
      (0 <= i < |s.caches| && 0 <= j < |s.caches| && i != j && 0 <= k < cfg.NumSets() && 0 <= t
       && St(s.caches[i], k, t) in {Modified, Exclusive}) ==> St(s.caches[j], k, t) == Invalid
  }

  /** The machine holds at most three lines, all of one tag: caches 0 and 1's in set `ka`,
      and cache 0's in set `kb`. */
  ghost predicate Picture(cfg: Config, s: System, ka: nat, kb: nat, tag: nat, a0: Option<State>, b0: Option<State>, a1: Option<State>)
    requires CachesShaped(cfg, s)
  {
    forall j, k, t :: 0 <= j < |s.caches| && 0 <= k < cfg.NumSets() && 0 <= t ==>
      var there := if t != tag then None else if j == 0 && k == ka then a0 else if j == 0 && k == kb then b0
                   else if j == 1 && k == ka then a1 else None;
      && (Has(s.caches[j], k, t) <==> there.Some?)
      && St(s.caches[j], k, t) == if there.Some? then there.value else Invalid
  }

  lemma ScanFinds(c: CacheState, tag: nat, st: State)
    ensures TagInState(c.sets, tag, st) <==> exists k :: 0 <= k < |c.sets| && Has(c, k, tag) && St(c, k, tag) == st
  {
    var i := FirstInState(c.sets, tag, st);
    if i < |c.sets| {
      assert Has(c, i, tag) && St(c, i, tag) == st;
    }
  }

  lemma EmptySetHasRoom(cfg: Config, s: System, job: Job)
    requires cfg.Valid() && CachesShaped(cfg, s) && job.threadId < |s.caches|
    requires forall t :: 0 <= t ==> !Has(s.caches[job.threadId], SetOf(cfg, job.address), t)
    ensures HasRoom(cfg, s, job)
  {
    var set0 := s.caches[job.threadId].sets[SetOf(cfg, job.address)];
    if |set0| > 0 {
      FindsEveryLine(set0, 0);
      assert Has(s.caches[job.threadId], SetOf(cfg, job.address), set0[0].tag);
    }
  }

  /** The three jobs that set the collision up, and the pictures before and after each:
      cache 0 reads set `ka`, cache 1 writes set `ka`, cache 0 reads set `kb`. */
  predicate Scene(cfg: Config, job: Job, ka: nat, kb: nat, a0: Option<State>, b0: Option<State>, a1: Option<State>,
                  a0': Option<State>, b0': Option<State>, a1': Option<State>)
  {
    || (job.IsRead() && !job.IsWrite() && job.threadId == 0 && SetOf(cfg, job.address) == ka
        && a0 == None && b0 == None && a1 == None && a0' == Some(Exclusive) && b0' == None && a1' == None)
    || (job.IsWrite() && job.threadId == 1 && SetOf(cfg, job.address) == ka
        && a0 == Some(Exclusive) && b0 == None && a1 == None && a0' == Some(Invalid) && b0' == None && a1' == Some(Modified))
    || (job.IsRead() && !job.IsWrite() && job.threadId == 0 && SetOf(cfg, job.address) == kb
        && a0 == Some(Invalid) && b0 == None && a1 == Some(Modified) && a0' == a0 && b0' == Some(Exclusive) && a1' == a1)
  }

  /** Each of them misses, has room, and finds nobody to share with. */
  lemma SceneGoesToBus(cfg: Config, s: System, job: Job, ka: nat, kb: nat, tag: nat,
                       a0: Option<State>, b0: Option<State>, a1: Option<State>, a0': Option<State>, b0': Option<State>, a1': Option<State>)
    requires cfg.Valid() && cfg.protocol == MESI && CachesShaped(cfg, s)
    requires job.threadId < 2 <= |s.caches| && TagOf(cfg, job.address) == tag
    requires ka < cfg.NumSets() && kb < cfg.NumSets() && ka != kb
    requires Picture(cfg, s, ka, kb, tag, a0, b0, a1) && Scene(cfg, job, ka, kb, a0, b0, a1, a0', b0', a1')
    ensures ChoiceFor(cfg, s.caches[job.threadId].sets, job) == OnBus && HasRoom(cfg, s, job)
    ensures job.IsRead() ==> !SharedBy(cfg, s, job)
  {
    hide FirstInState, St, Has, SetOf, TagOf, HasRoom;
    var c := s.caches[job.threadId];
    ScanFinds(c, tag, Modified);
    ScanFinds(c, tag, Shared);
    ScanFinds(c, tag, Exclusive);
    ScanFinds(c, tag, Owned);
    EmptySetHasRoom(cfg, s, job);
  }

  lemma SceneMoves(cfg: Config, s: System, job: Job, ka: nat, kb: nat, tag: nat,
                   a0: Option<State>, b0: Option<State>, a1: Option<State>, a0': Option<State>, b0': Option<State>, a1': Option<State>,
                   j: nat, k: nat, t: nat)
    requires cfg.Valid() && cfg.protocol == MESI && CachesShaped(cfg, s)
    requires job.threadId < 2 <= |s.caches| && TagOf(cfg, job.address) == tag
    requires ka < cfg.NumSets() && kb < cfg.NumSets() && ka != kb
    requires Picture(cfg, s, ka, kb, tag, a0, b0, a1) && Scene(cfg, job, ka, kb, a0, b0, a1, a0', b0', a1')
    requires ChoiceFor(cfg, s.caches[job.threadId].sets, job) == OnBus
    requires job.IsRead() ==> !SharedBy(cfg, s, job)
    requires j < |s.caches| && k < cfg.NumSets()
    ensures var there := if t != tag then None else if j == 0 && k == ka then a0' else if j == 0 && k == kb then b0'
                         else if j == 1 && k == ka then a1' else None;
            && (HasAfter(cfg, s, job, j, k, t) <==> there.Some?)
            && Moved(cfg, s, job, j, k, t) == if there.Some? then there.value else Invalid
  {
    hide St, Has, SetOf, TagOf, ChoiceFor, SharedBy, Shaped;
  }

  lemma SceneStep(cfg: Config, addresses: set<nat>, s: System, job: Job, ka: nat, kb: nat, tag: nat,
                  a0: Option<State>, b0: Option<State>, a1: Option<State>, a0': Option<State>, b0': Option<State>, a1': Option<State>)
    requires cfg.Valid() && cfg.protocol == MESI && Ready(false, cfg, addresses, s)
    requires job.address in addresses && job.threadId < 2 <= |s.caches| && TagOf(cfg, job.address) == tag
    requires ka < cfg.NumSets() && kb < cfg.NumSets() && ka != kb
    requires CachesShaped(cfg, s) && Picture(cfg, s, ka, kb, tag, a0, b0, a1) && Scene(cfg, job, ka, kb, a0, b0, a1, a0', b0', a1')
    ensures CachesShaped(cfg, RunJob(cfg, s, job)) && Picture(cfg, RunJob(cfg, s, job), ka, kb, tag, a0', b0', a1')
  {
    hide ChoiceFor, RunJob, Ready, St, Has, SetOf, TagOf, Quiescent, HasRoom, Moved, HasAfter, Scene;
    ReadyIsQuiescent(cfg, addresses, s);
    var s' := RunJob(cfg, s, job);
    SceneGoesToBus(cfg, s, job, ka, kb, tag, a0, b0, a1, a0', b0', a1');
    RunJobIsReady(false, cfg, addresses, s, job);
    ReadyIsShaped(cfg, addresses, s');
    forall j, k, t | 0 <= j < |s'.caches| && 0 <= k < cfg.NumSets() && 0 <= t
      ensures St(s'.caches[j], k, t) == Moved(cfg, s, job, j, k, t)
      ensures Has(s'.caches[j], k, t) == HasAfter(cfg, s, job, j, k, t)
      ensures var there := if t != tag then None else if j == 0 && k == ka then a0' else if j == 0 && k == kb then b0'
                           else if j == 1 && k == ka then a1' else None;
              && (HasAfter(cfg, s, job, j, k, t) <==> there.Some?)
              && Moved(cfg, s, job, j, k, t) == if there.Some? then there.value else Invalid
    {
      var victim := RunJobMoves(cfg, addresses, s, job, j);
      SceneMoves(cfg, s, job, ka, kb, tag, a0, b0, a1, a0', b0', a1', j, k, t);
    }
  }

  lemma ReadyIsShaped(cfg: Config, addresses: set<nat>, s: System)
    requires cfg.Valid() && Ready(false, cfg, addresses, s)
    ensures CachesShaped(cfg, s)
  {
  }

  lemma RevivingStoreHits(cfg: Config, s: System, job: Job, ka: nat, kb: nat, tag: nat)
    requires cfg.Valid() && cfg.protocol == MESI && CachesShaped(cfg, s) && 2 <= |s.caches|
    requires job.threadId == 0 && TagOf(cfg, job.address) == tag && job.IsWrite()
    requires ka < cfg.NumSets() && kb < cfg.NumSets() && ka != kb
    requires Picture(cfg, s, ka, kb, tag, Some(Invalid), Some(Exclusive), Some(Modified))
    ensures ChoiceFor(cfg, s.caches[0].sets, job) == MarkingHit
    ensures Moved(cfg, s, job, 0, ka, tag) == Modified && Moved(cfg, s, job, 1, ka, tag) == Modified
  {
    var c := s.caches[0];
    ScanFinds(c, tag, Modified);
    ScanFinds(c, tag, Exclusive);
    hide FirstInState, St, Has, SetOf, TagOf;
    assert Has(c, kb, tag) && St(c, kb, tag) == Exclusive;
    assert Has(c, ka, tag);
  }

  /** The store to the exclusive line of set `kb` also makes the invalid line of set `ka` modified. */
  lemma RevivingStep(cfg: Config, addresses: set<nat>, s: System, job: Job, ka: nat, kb: nat, tag: nat)
    requires cfg.Valid() && cfg.protocol == MESI && Ready(false, cfg, addresses, s)
    requires job.address in addresses && job.threadId == 0 && 2 <= |s.caches| && TagOf(cfg, job.address) == tag && job.IsWrite()
    requires ka < cfg.NumSets() && kb < cfg.NumSets() && ka != kb
    requires Picture(cfg, s, ka, kb, tag, Some(Invalid), Some(Exclusive), Some(Modified))
    ensures CachesShaped(cfg, RunJob(cfg, s, job)) && !SingleWriter(cfg, RunJob(cfg, s, job))
  {
    var s' := RunJob(cfg, s, job);
    RevivingStoreHits(cfg, s, job, ka, kb, tag);
    RunJobIsReady(false, cfg, addresses, s, job);
    ReadyIsShaped(cfg, addresses, s');
    hide ChoiceFor, RunJob, Ready, St, Has, SetOf, TagOf, Quiescent, Moved, HasAfter, Picture;
    var v0 := RunJobMoves(cfg, addresses, s, job, 0);
    var v1 := RunJobMoves(cfg, addresses, s, job, 1);
    assert St(s'.caches[0], ka, tag) == Modified && St(s'.caches[1], ka, tag) == Modified;
  }

  /** Two addresses with one tag in two sets: the four-job trace on which MESI fails. */
  function CollidingTrace(a: nat, b: nat): seq<Job> {
    [Job('R', a, 0), Job('W', a, 1), Job('R', b, 0), Job('W', b, 0)]
  }

  /** The interpreter, one job further. */
  lemma OneMoreJob(cfg: Config, trace: seq<Job>, job: Job, addresses: set<nat>)
    requires cfg.Valid() && JobsInRange(cfg, trace) && job.threadId < cfg.numProcessors
    requires JobAddresses(trace) <= addresses && job.address in addresses
    ensures JobsInRange(cfg, trace + [job]) && JobAddresses(trace + [job]) <= addresses
    ensures Ready(false, cfg, addresses, RunTrace(cfg, trace))
    ensures RunTrace(cfg, trace + [job]) == RunJob(cfg, RunTrace(cfg, trace), job)
  {
    hide RunJob, Ready, Quiescent;
    assert (trace + [job])[..|trace|] == trace;
    RunTraceIsReady(NeedsCoherence(cfg), cfg, addresses, trace);
    ReadyWithoutCoherence(NeedsCoherence(cfg), cfg, addresses, RunTrace(cfg, trace));
  }

  /** The picture the machine shows after a trace. */
  ghost predicate Shows(cfg: Config, addresses: set<nat>, trace: seq<Job>, ka: nat, kb: nat, tag: nat,
                        a0: Option<State>, b0: Option<State>, a1: Option<State>) {
    && cfg.Valid() && JobsInRange(cfg, trace) && JobAddresses(trace) <= addresses
    && CachesShaped(cfg, RunTrace(cfg, trace))
    && Picture(cfg, RunTrace(cfg, trace), ka, kb, tag, a0, b0, a1)
  }

  /** One scene further along the interpreter's run. */
  lemma NextScene(cfg: Config, addresses: set<nat>, trace: seq<Job>, job: Job, ka: nat, kb: nat, tag: nat,
                  a0: Option<State>, b0: Option<State>, a1: Option<State>, a0': Option<State>, b0': Option<State>, a1': Option<State>)
    requires Shows(cfg, addresses, trace, ka, kb, tag, a0, b0, a1) && cfg.protocol == MESI
    requires job.address in addresses && job.threadId < 2 <= cfg.numProcessors && TagOf(cfg, job.address) == tag
    requires ka < cfg.NumSets() && kb < cfg.NumSets() && ka != kb
    requires Scene(cfg, job, ka, kb, a0, b0, a1, a0', b0', a1')
    ensures Shows(cfg, addresses, trace + [job], ka, kb, tag, a0', b0', a1')
  {
    hide RunJob, Ready, Picture, Scene, Quiescent, RunTrace, Shaped, TagOf, JobsInRange, JobAddresses;
    OneMoreJob(cfg, trace, job, addresses);
    SceneStep(cfg, addresses, RunTrace(cfg, trace), job, ka, kb, tag, a0, b0, a1, a0', b0', a1');
  }

  lemma SetUpCollision(cfg: Config, a: nat, b: nat, tag: nat)
    requires cfg.Valid() && cfg.protocol == MESI && 2 <= cfg.numProcessors
    requires TagOf(cfg, a) == TagOf(cfg, b) == tag && SetOf(cfg, a) != SetOf(cfg, b)
    ensures Shows(cfg, {a, b}, CollidingTrace(a, b)[..3], SetOf(cfg, a), SetOf(cfg, b), tag, Some(Invalid), Some(Exclusive), Some(Modified))
  {
    hide SetOf, TagOf, Shows, Pow2;
    var ka, kb, trace := SetOf(cfg, a), SetOf(cfg, b), CollidingTrace(a, b);
    NothingShown(cfg, {a, b}, ka, kb, tag);
    NextScene(cfg, {a, b}, [], trace[0], ka, kb, tag, None, None, None, Some(Exclusive), None, None);
    assert [] + [trace[0]] == trace[..1];
    NextScene(cfg, {a, b}, trace[..1], trace[1], ka, kb, tag, Some(Exclusive), None, None, Some(Invalid), None, Some(Modified));
    assert trace[..1] + [trace[1]] == trace[..2];
    NextScene(cfg, {a, b}, trace[..2], trace[2], ka, kb, tag, Some(Invalid), None, Some(Modified), Some(Invalid), Some(Exclusive), Some(Modified));
    assert trace[..2] + [trace[2]] == trace[..3];
  }

  lemma NothingShown(cfg: Config, addresses: set<nat>, ka: nat, kb: nat, tag: nat)
    requires cfg.Valid()
    ensures Shows(cfg, addresses, [], ka, kb, tag, None, None, None)
  {
    EmptyPicture(cfg, ka, kb, tag);
  }

  lemma CollisionBreaksMesi(cfg: Config, a: nat, b: nat)
    requires cfg.Valid() && cfg.protocol == MESI && 2 <= cfg.numProcessors
    requires TagOf(cfg, a) == TagOf(cfg, b) && SetOf(cfg, a) != SetOf(cfg, b)
    ensures JobsInRange(cfg, CollidingTrace(a, b))
    ensures !SingleWriter(cfg, RunTrace(cfg, CollidingTrace(a, b)))
  {
    hide SetOf, TagOf, RunJob, Ready, SingleWriter, Picture, Quiescent, RunTrace, JobAddresses, CachesShaped;
    var tag := TagOf(cfg, a);
    var t3, j4 := CollidingTrace(a, b)[..3], CollidingTrace(a, b)[3];
    SetUpCollision(cfg, a, b, tag);
    OneMoreJob(cfg, t3, j4, {a, b});
    RevivingStep(cfg, {a, b}, RunTrace(cfg, t3), j4, SetOf(cfg, a), SetOf(cfg, b), tag);
    assert t3 + [j4] == CollidingTrace(a, b);
  }

  lemma EmptyPicture(cfg: Config, ka: nat, kb: nat, tag: nat)
    requires cfg.Valid()
    ensures CachesShaped(cfg, RunTrace(cfg, [])) && Picture(cfg, RunTrace(cfg, []), ka, kb, tag, None, None, None)
  {
  }

  /** A single writer after every trace over these addresses. */
  ghost predicate AlwaysSingleWriter(cfg: Config, addresses: set<nat>)
    requires cfg.Valid()
  {
    forall trace :: JobsInRange(cfg, trace) && JobAddresses(trace) <= addresses ==> SingleWriter(cfg, RunTrace(cfg, trace))
  }

  lemma TraceIsSingleWriter(cfg: Config, addresses: set<nat>, trace: seq<Job>)
    requires cfg.Valid() && cfg.protocol == MESI && TagsIdentifySets(cfg, addresses)
    requires JobsInRange(cfg, trace) && JobAddresses(trace) <= addresses
    ensures SingleWriter(cfg, RunTrace(cfg, trace))
  {
    RunTraceIsReady(true, cfg, addresses, trace);
    hide RunTrace, SingleWriter, GoodCache, OthersAgree, BusServes, Quiescent, TagsIdentifySets, JobAddresses, JobsInRange;
    PairwiseIsSingleWriter(cfg, RunTrace(cfg, trace));
  }

  lemma TagsSuffice(cfg: Config, addresses: set<nat>)
    requires cfg.Valid() && cfg.protocol == MESI && TagsIdentifySets(cfg, addresses)
    ensures AlwaysSingleWriter(cfg, addresses)
  {
    hide RunTrace, SingleWriter, TagsIdentifySets, JobAddresses, JobsInRange;
    forall trace | JobsInRange(cfg, trace) && JobAddresses(trace) <= addresses
      ensures SingleWriter(cfg, RunTrace(cfg, trace))
    {
      TraceIsSingleWriter(cfg, addresses, trace);
    }
  }

  lemma CollidingAddresses(a: nat, b: nat, addresses: set<nat>)
    requires a in addresses && b in addresses
    ensures JobAddresses(CollidingTrace(a, b)) <= addresses
  {
  }

  lemma TagsAreNeeded(cfg: Config, addresses: set<nat>)
    requires cfg.Valid() && cfg.protocol == MESI && 2 <= cfg.numProcessors && AlwaysSingleWriter(cfg, addresses)
    ensures TagsIdentifySets(cfg, addresses)
  {
    hide RunTrace, SingleWriter, JobAddresses, JobsInRange, TagOf, SetOf, CollidingTrace;
    forall a, b | a in addresses && b in addresses && TagOf(cfg, a) == TagOf(cfg, b)
      ensures SetOf(cfg, a) == SetOf(cfg, b)
    {
      if SetOf(cfg, a) != SetOf(cfg, b) {
        CollisionBreaksMesi(cfg, a, b);
        CollidingAddresses(a, b, addresses);
        assert false;
      }
    }
  }

  lemma OneCacheIsSingleWriter(cfg: Config, addresses: set<nat>)
    requires cfg.Valid() && cfg.numProcessors == 1
    ensures AlwaysSingleWriter(cfg, addresses)
  {
    hide RunTrace, St, JobAddresses, JobsInRange;
  }

  /** The exact condition: MESI is single-writer on every trace over these addresses if and
      only if there is one cache or tags identify sets among the addresses. */
  lemma MesiSingleWriterIff(cfg: Config, addresses: set<nat>)
    requires cfg.Valid() && cfg.protocol == MESI
    ensures AlwaysSingleWriter(cfg, addresses) <==> cfg.numProcessors == 1 || TagsIdentifySets(cfg, addresses)
  {
    hide AlwaysSingleWriter, TagsIdentifySets;
    if cfg.numProcessors == 1 {
      OneCacheIsSingleWriter(cfg, addresses);
    } else {
      if TagsIdentifySets(cfg, addresses) {
        TagsSuffice(cfg, addresses);
      }
      if AlwaysSingleWriter(cfg, addresses) {
        TagsAreNeeded(cfg, addresses);
      }
    }
  }

  lemma PairwiseIsSingleWriter(cfg: Config, s: System)
    requires cfg.Valid() && cfg.protocol == MESI && CachesShaped(cfg, s) && Pairwise(cfg, s)
    ensures SingleWriter(cfg, s)
  {
    hide St;
    forall i, j, k, t | 0 <= i < |s.caches| && 0 <= j < |s.caches| && i != j && 0 <= k < cfg.NumSets() && 0 <= t
                        && St(s.caches[i], k, t) in {Modified, Exclusive}
      ensures St(s.caches[j], k, t) == Invalid
    {
      assert Compatible(cfg.protocol, St(s.caches[i], k, t), St(s.caches[j], k, t));
    }
  }
}
