/** When MOESI keeps a single writer.  Its bus counts only owners as sharers, so a reader
    that finds nothing but shared copies takes its own as exclusive: harmless while the two
    caches of a machine always share in pairs, and wrong as soon as a third cache, a
    colliding tag or an eviction leaves a shared copy on its own. */
module MoesiExactness {
  import opened Constants
  import opened LineSets
  import opened CacheModel
  import opened SystemModel
  import opened Coherence
  import opened Safety
  import opened ServiceTime
  import opened JobRunner
  import opened CycleLoop
  import opened JobEffects
  import opened Simulation
  import opened Exactness

  // ---------------------------------------------------------------------
  // A machine that holds one line
  // ---------------------------------------------------------------------

  function Copy(c: CacheState, k: nat, t: nat): Option<State>
    requires k < |c.sets|
  {
    if Has(c, k, t) then Some(St(c, k, t)) else None
  }

  /** The caches hold these copies of line `t` of set `k`, and no other line. */
  ghost predicate Holds(cfg: Config, s: System, k0: nat, t0: nat, copies: seq<Option<State>>) {
    && |copies| == |s.caches| == cfg.numProcessors
    && (forall j :: 0 <= j < |s.caches| ==> |s.caches[j].sets| == cfg.NumSets())
    && (forall j, k, t {:trigger Copy(s.caches[j], k, t)} :: 0 <= j < |s.caches| && 0 <= k < cfg.NumSets() && 0 <= t ==>
          Copy(s.caches[j], k, t) == if k == k0 && t == t0 then copies[j] else None)
  }

  predicate SharedAmong(copies: seq<Option<State>>, job: Job) {
    exists j :: 0 <= j < |copies| && j != job.threadId && copies[j].Some?
                && Shares(MOESI, SnoopAnswer(MOESI, CommandOf(job), copies[j].value))
  }

  /** The copies after a job of a cache that has none. */
  function AfterAccess(copies: seq<Option<State>>, job: Job): (r: seq<Option<State>>)
    ensures |r| == |copies|
  {
    seq(|copies|, j requires 0 <= j < |copies| =>
      if j == job.threadId then Some(DoneState(MOESI, job, SharedAmong(copies, job), Invalid))
      else if copies[j].Some? then Some(SnoopedState(MOESI, CommandOf(job), copies[j].value)) else None)
  }

  lemma AbsentMisses(cfg: Config, s: System, job: Job)
    requires cfg.Valid() && CachesShaped(cfg, s) && job.threadId < |s.caches| && (job.IsRead() || job.IsWrite())
    requires var c := s.caches[job.threadId]; forall k :: 0 <= k < |c.sets| ==> !Has(c, k, TagOf(cfg, job.address))
    ensures ChoiceFor(cfg, s.caches[job.threadId].sets, job) == OnBus
  {
    hide FirstInState, St, Has, TagOf;
    var c, tag := s.caches[job.threadId], TagOf(cfg, job.address);
    ScanFinds(c, tag, Invalid);
    ScanFinds(c, tag, Shared);
    ScanFinds(c, tag, Modified);
    ScanFinds(c, tag, Exclusive);
    ScanFinds(c, tag, Owned);
  }

  lemma SharedIsAmong(cfg: Config, s: System, job: Job, copies: seq<Option<State>>)
    requires cfg.Valid() && cfg.protocol == MOESI && CachesShaped(cfg, s)
    requires Holds(cfg, s, SetOf(cfg, job.address), TagOf(cfg, job.address), copies)
    ensures SharedBy(cfg, s, job) == SharedAmong(copies, job)
  {
    hide SetOf, TagOf, Shaped, CommandOf;
    var k, tag := SetOf(cfg, job.address), TagOf(cfg, job.address);
    forall j | 0 <= j < |s.caches|
      ensures St(s.caches[j], k, tag) == if copies[j].Some? then copies[j].value else Invalid
    {
      assert Copy(s.caches[j], k, tag) == copies[j];
    }
    assert !Shares(MOESI, SnoopAnswer(MOESI, CommandOf(job), Invalid));
    hide Holds, St, SnoopAnswer, Shares;
  }

  lemma AccessMoves(cfg: Config, s: System, job: Job, copies: seq<Option<State>>, j: nat, k: nat, t: nat)
    requires cfg.Valid() && cfg.protocol == MOESI && CachesShaped(cfg, s) && job.threadId < |s.caches|
    requires Holds(cfg, s, SetOf(cfg, job.address), TagOf(cfg, job.address), copies)
    requires ChoiceFor(cfg, s.caches[job.threadId].sets, job) == OnBus && SharedBy(cfg, s, job) == SharedAmong(copies, job)
    requires j < |s.caches| && k < cfg.NumSets()
    ensures (if HasAfter(cfg, s, job, j, k, t) then Some(Moved(cfg, s, job, j, k, t)) else None)
            == if k == SetOf(cfg, job.address) && t == TagOf(cfg, job.address) then AfterAccess(copies, job)[j] else None
  {
    hide ChoiceFor, SetOf, TagOf, SharedBy, SharedAmong, St, Has, SnoopedState, DoneState, Shaped;
    assert Copy(s.caches[j], k, t) == if k == SetOf(cfg, job.address) && t == TagOf(cfg, job.address) then copies[j] else None;
  }

  lemma AccessCopies(cfg: Config, s: System, job: Job, copies: seq<Option<State>>, j: nat, c': CacheState)
    requires cfg.Valid() && cfg.protocol == MOESI && CachesShaped(cfg, s) && job.threadId < |s.caches| && j < |s.caches|
    requires |copies| == |s.caches| && Holds(cfg, s, SetOf(cfg, job.address), TagOf(cfg, job.address), copies)
    requires ChoiceFor(cfg, s.caches[job.threadId].sets, job) == OnBus && SharedBy(cfg, s, job) == SharedAmong(copies, job)
    requires MovedTo(cfg, s, job, j, None, c')
    ensures |c'.sets| == cfg.NumSets()
    ensures forall k, t {:trigger Copy(c', k, t)} :: 0 <= k < cfg.NumSets() && 0 <= t ==>
              Copy(c', k, t) == if k == SetOf(cfg, job.address) && t == TagOf(cfg, job.address) then AfterAccess(copies, job)[j] else None
  {
    hide Holds, ChoiceFor, SetOf, TagOf, SharedBy, St, Has, Moved, HasAfter, AfterAccess, Shaped;
    forall k, t | 0 <= k < cfg.NumSets() && 0 <= t
      ensures Copy(c', k, t) == if k == SetOf(cfg, job.address) && t == TagOf(cfg, job.address) then AfterAccess(copies, job)[j] else None
    {
      AccessMoves(cfg, s, job, copies, j, k, t);
    }
  }

  lemma HoldsNothing(cfg: Config, s: System, k0: nat, t0: nat, copies: seq<Option<State>>, j: nat)
    requires Holds(cfg, s, k0, t0, copies) && j < |copies| && copies[j] == None
    ensures |s.caches| == |copies| && |s.caches[j].sets| == cfg.NumSets()
    ensures forall k, t :: 0 <= k < cfg.NumSets() && 0 <= t ==> !Has(s.caches[j], k, t)
  {
    hide Has;
    forall k, t | 0 <= k < cfg.NumSets() && 0 <= t
      ensures !Has(s.caches[j], k, t)
    {
      assert Copy(s.caches[j], k, t) == None;
    }
  }

  lemma LonelyAccess(cfg: Config, addresses: set<nat>, s: System, job: Job, copies: seq<Option<State>>)
    requires cfg.Valid() && cfg.protocol == MOESI && Ready(false, cfg, addresses, s) && CachesShaped(cfg, s)
    requires job.threadId < |s.caches| && (job.IsRead() || job.IsWrite())
    requires Holds(cfg, s, SetOf(cfg, job.address), TagOf(cfg, job.address), copies)
    requires |copies| == |s.caches| && copies[job.threadId] == None
    ensures Holds(cfg, RunJob(cfg, s, job), SetOf(cfg, job.address), TagOf(cfg, job.address), AfterAccess(copies, job))
  {
    var k0, t0, s' := SetOf(cfg, job.address), TagOf(cfg, job.address), RunJob(cfg, s, job);
    assert cfg.numProcessors == |s.caches|;
    assert |s.caches[job.threadId].sets| == cfg.NumSets() && k0 < cfg.NumSets();
    hide *;
    HoldsNothing(cfg, s, k0, t0, copies, job.threadId);
    AbsentMisses(cfg, s, job);
    SharedIsAmong(cfg, s, job, copies);
    EmptySetHasRoom(cfg, s, job);
    var v0 := RunJobMoves(cfg, addresses, s, job, job.threadId);
    forall j | 0 <= j < |s.caches|
      ensures |s'.caches[j].sets| == cfg.NumSets()
      ensures forall k, t {:trigger Copy(s'.caches[j], k, t)} :: 0 <= k < cfg.NumSets() && 0 <= t ==>
                Copy(s'.caches[j], k, t) == if k == k0 && t == t0 then AfterAccess(copies, job)[j] else None
    {
      var victim := RunJobMoves(cfg, addresses, s, job, j);
      AccessCopies(cfg, s, job, copies, j, s'.caches[j]);
    }
    HoldsAfter(cfg, s', k0, t0, AfterAccess(copies, job));
  }

  lemma HoldsAfter(cfg: Config, s: System, k0: nat, t0: nat, copies: seq<Option<State>>)
    requires |copies| == |s.caches| == cfg.numProcessors
    requires forall j :: 0 <= j < |s.caches| ==> |s.caches[j].sets| == cfg.NumSets()
    requires forall j :: 0 <= j < |s.caches| ==>
               forall k, t {:trigger Copy(s.caches[j], k, t)} :: 0 <= k < cfg.NumSets() && 0 <= t ==>
                 Copy(s.caches[j], k, t) == if k == k0 && t == t0 then copies[j] else None
    ensures Holds(cfg, s, k0, t0, copies)
  {
    hide Copy;
  }

  /** What the machine holds after a trace. */
  ghost predicate Shows(cfg: Config, trace: seq<Job>, k0: nat, t0: nat, copies: seq<Option<State>>) {
    cfg.Valid() && JobsInRange(cfg, trace) && Holds(cfg, RunTrace(cfg, trace), k0, t0, copies)
  }

  lemma ShowsNothing(cfg: Config, k0: nat, t0: nat)
    requires cfg.Valid()
    ensures Shows(cfg, [], k0, t0, seq(cfg.numProcessors, _ => None))
  {
  }

  /** One access to address `a`, by a cache that has no copy of it. */
  lemma NextAccess(cfg: Config, a: nat, trace: seq<Job>, job: Job, copies: seq<Option<State>>)
    requires cfg.Valid() && cfg.protocol == MOESI && Shows(cfg, trace, SetOf(cfg, a), TagOf(cfg, a), copies) && JobAddresses(trace) <= {a}
    requires job.address == a && job.threadId < |copies| == cfg.numProcessors && copies[job.threadId] == None
    requires job.IsRead() || job.IsWrite()
    ensures Shows(cfg, trace + [job], SetOf(cfg, a), TagOf(cfg, a), AfterAccess(copies, job))
    ensures JobAddresses(trace + [job]) <= {a}
  {
    var s := RunTrace(cfg, trace);
    assert CachesShaped(cfg, s) && |s.caches| == cfg.numProcessors;
    hide *;
    OneMoreJob(cfg, trace, job, {a});
    LonelyAccess(cfg, {a}, s, job, copies);
  }

  /** Three caches read one address. */
  function ThreeReads(a: nat): seq<Job> {
    [Job('R', a, 0), Job('R', a, 1), Job('R', a, 2)]
  }

  lemma FirstReadCopies(copies: seq<Option<State>>, job: Job)
    requires 3 <= |copies| && job.threadId == 0 && job.IsRead() && forall j :: 0 <= j < |copies| ==> copies[j] == None
    ensures AfterAccess(copies, job)[0] == Some(Exclusive) && forall j :: 0 < j < |copies| ==> AfterAccess(copies, job)[j] == None
  {
    assert !SharedAmong(copies, job);
    assert DoneState(MOESI, job, false, Invalid) == Exclusive;
    var r := AfterAccess(copies, job);
    assert r[0] == Some(Exclusive) && forall j :: 0 < j < |copies| ==> r[j] == None;
  }

  lemma SecondReadCopies(copies: seq<Option<State>>, job: Job)
    requires 3 <= |copies| && job.threadId == 1 && job.IsRead()
    requires copies[0] == Some(Exclusive) && forall j :: 0 < j < |copies| ==> copies[j] == None
    ensures var r := AfterAccess(copies, job);
            r[0] == Some(Shared) && r[1] == Some(Shared) && forall j :: 1 < j < |copies| ==> r[j] == None
  {
    assert Shares(MOESI, SnoopAnswer(MOESI, CommandOf(job), copies[0].value));
    assert SharedAmong(copies, job);
    assert DoneState(MOESI, job, true, Invalid) == Shared;
    var r := AfterAccess(copies, job);
    assert r[0] == Some(Shared) && r[1] == Some(Shared) && forall j :: 1 < j < |copies| ==> r[j] == None;
  }

  lemma ThirdReadCopies(copies: seq<Option<State>>, job: Job)
    requires 3 <= |copies| && job.threadId == 2 && job.IsRead()
    requires copies[0] == Some(Shared) && copies[1] == Some(Shared) && forall j :: 1 < j < |copies| ==> copies[j] == None
    ensures var r := AfterAccess(copies, job);
            r[0] == Some(Shared) && r[1] == Some(Shared) && r[2] == Some(Exclusive)
  {
    assert !SharedAmong(copies, job);
    assert DoneState(MOESI, job, false, Invalid) == Exclusive;
    var r := AfterAccess(copies, job);
    assert r[0] == Some(Shared) && r[1] == Some(Shared) && r[2] == Some(Exclusive);
  }

  lemma HoldsCopy(cfg: Config, s: System, k0: nat, t0: nat, copies: seq<Option<State>>, j: nat)
    requires Holds(cfg, s, k0, t0, copies) && k0 < cfg.NumSets() && j < |copies| && copies[j].Some?
    ensures |s.caches| == |copies| && |s.caches[j].sets| == cfg.NumSets() && St(s.caches[j], k0, t0) == copies[j].value
  {
    assert Copy(s.caches[j], k0, t0) == copies[j];
  }

  lemma ThreeReadsShow(cfg: Config, a: nat) returns (copies: seq<Option<State>>)
    requires cfg.Valid() && cfg.protocol == MOESI && 3 <= cfg.numProcessors
    ensures Shows(cfg, ThreeReads(a), SetOf(cfg, a), TagOf(cfg, a), copies)
    ensures |copies| == cfg.numProcessors && copies[0] == Some(Shared) && copies[1] == Some(Shared) && copies[2] == Some(Exclusive)
  {
    var trace := ThreeReads(a);
    var start: seq<Option<State>> := seq(cfg.numProcessors, _ => None);
    assert [] + [trace[0]] == trace[..1] && trace[..1] + [trace[1]] == trace[..2] && trace[..2] + [trace[2]] == trace;
    ShowsNothing(cfg, SetOf(cfg, a), TagOf(cfg, a));
    assert JobAddresses([]) <= {a};
    hide SetOf, TagOf, Shows, AfterAccess, JobAddresses;
    var c1 := AfterAccess(start, trace[0]);
    FirstReadCopies(start, trace[0]);
    NextAccess(cfg, a, [], trace[0], start);
    var c2 := AfterAccess(c1, trace[1]);
    SecondReadCopies(c1, trace[1]);
    NextAccess(cfg, a, trace[..1], trace[1], c1);
    copies := AfterAccess(c2, trace[2]);
    ThirdReadCopies(c2, trace[2]);
    NextAccess(cfg, a, trace[..2], trace[2], c2);
  }

  /** With three caches, two shared copies end up beside an exclusive one. */
  lemma ThirdReaderIsExclusive(cfg: Config, a: nat)
    requires cfg.Valid() && cfg.protocol == MOESI && 3 <= cfg.numProcessors
    ensures JobsInRange(cfg, ThreeReads(a))
    ensures var s, k, t := RunTrace(cfg, ThreeReads(a)), SetOf(cfg, a), TagOf(cfg, a);
            St(s.caches[0], k, t) == Shared && St(s.caches[1], k, t) == Shared && St(s.caches[2], k, t) == Exclusive
    ensures !SingleWriter(cfg, RunTrace(cfg, ThreeReads(a)))
  {
    var copies := ThreeReadsShow(cfg, a);
    hide SetOf, TagOf, RunTrace, Holds, Shaped;
    var k, t, s := SetOf(cfg, a), TagOf(cfg, a), RunTrace(cfg, ThreeReads(a));
    HoldsCopy(cfg, s, k, t, copies, 0);
    HoldsCopy(cfg, s, k, t, copies, 1);
    HoldsCopy(cfg, s, k, t, copies, 2);
  }

  // ---------------------------------------------------------------------
  // An owned line beside a shared one, and a write to its tag
  // ---------------------------------------------------------------------

  /** Cache 0 writes an address and cache 1 reads it. */
  function WriteThenRead(a: nat): seq<Job> {
    [Job('W', a, 0), Job('R', a, 1)]
  }

  lemma FirstWriteCopies(copies: seq<Option<State>>, job: Job)
    requires 2 <= |copies| && job.threadId == 0 && job.IsWrite() && forall j :: 0 <= j < |copies| ==> copies[j] == None
    ensures AfterAccess(copies, job)[0] == Some(Modified) && forall j :: 0 < j < |copies| ==> AfterAccess(copies, job)[j] == None
  {
    assert DoneState(MOESI, job, SharedAmong(copies, job), Invalid) == Modified;
    var r := AfterAccess(copies, job);
    assert r[0] == Some(Modified) && forall j :: 0 < j < |copies| ==> r[j] == None;
  }

  lemma ReadOfModifiedCopies(copies: seq<Option<State>>, job: Job)
    requires 2 <= |copies| && job.threadId == 1 && job.IsRead()
    requires copies[0] == Some(Modified) && forall j :: 0 < j < |copies| ==> copies[j] == None
    ensures var r := AfterAccess(copies, job);
            r[0] == Some(Owned) && r[1] == Some(Shared) && forall j :: 1 < j < |copies| ==> r[j] == None
  {
    assert Shares(MOESI, SnoopAnswer(MOESI, CommandOf(job), copies[0].value));
    assert SharedAmong(copies, job);
    assert DoneState(MOESI, job, true, Invalid) == Shared;
    var r := AfterAccess(copies, job);
    assert r[0] == Some(Owned) && r[1] == Some(Shared) && forall j :: 1 < j < |copies| ==> r[j] == None;
  }

  lemma WriteThenReadOwns(cfg: Config, a: nat) returns (copies: seq<Option<State>>)
    requires cfg.Valid() && cfg.protocol == MOESI && 2 <= cfg.numProcessors
    ensures Shows(cfg, WriteThenRead(a), SetOf(cfg, a), TagOf(cfg, a), copies) && JobAddresses(WriteThenRead(a)) <= {a}
    ensures |copies| == cfg.numProcessors && copies[0] == Some(Owned) && copies[1] == Some(Shared)
  {
    var k, t, trace := SetOf(cfg, a), TagOf(cfg, a), WriteThenRead(a);
    var start: seq<Option<State>> := seq(cfg.numProcessors, _ => None);
    assert [] + [trace[0]] == trace[..1] && trace[..1] + [trace[1]] == trace;
    ShowsNothing(cfg, k, t);
    assert JobAddresses([]) <= {a};
    hide SetOf, TagOf, Shows, AfterAccess, JobAddresses;
    var c1 := AfterAccess(start, trace[0]);
    FirstWriteCopies(start, trace[0]);
    ReadOfModifiedCopies(c1, trace[1]);
    NextAccess(cfg, a, [], trace[0], start);
    NextAccess(cfg, a, trace[..1], trace[1], c1);
    copies := AfterAccess(c1, trace[1]);
  }

  /** A write to the tag of an owned line upgrades it, whichever set the write is for. */
  lemma OwnedTagUpgrades(cfg: Config, s: System, job: Job, k0: nat, copies: seq<Option<State>>)
    requires cfg.Valid() && cfg.protocol == MOESI && CachesShaped(cfg, s) && Holds(cfg, s, k0, TagOf(cfg, job.address), copies)
    requires k0 < cfg.NumSets() && job.threadId < |copies| && copies[job.threadId] == Some(Owned) && job.IsWrite()
    ensures ChoiceFor(cfg, s.caches[job.threadId].sets, job) == Upgrading
  {
    var c, tag := s.caches[job.threadId], TagOf(cfg, job.address);
    forall k | 0 <= k < |c.sets|
      ensures Has(c, k, tag) <==> k == k0
      ensures k == k0 ==> St(c, k, tag) == Owned
    {
      assert Copy(c, k, tag) == if k == k0 then Some(Owned) else None;
    }
    assert Has(c, k0, tag) && St(c, k0, tag) == Owned;
    hide FirstInState, St, Has, TagOf, Holds;
    ScanFinds(c, tag, Invalid);
    ScanFinds(c, tag, Shared);
    ScanFinds(c, tag, Modified);
    ScanFinds(c, tag, Exclusive);
    ScanFinds(c, tag, Owned);
  }

  /** The write to address `x` that marks address `y`'s owned line modified, although the
      bus will only invalidate other copies of `x`. */
  lemma UpgradeMarksOtherSet(cfg: Config, s: System, job: Job, k0: nat, copies: seq<Option<State>>)
    requires cfg.Valid() && cfg.protocol == MOESI && CachesShaped(cfg, s) && 2 <= |s.caches| && Holds(cfg, s, k0, TagOf(cfg, job.address), copies)
    requires k0 < cfg.NumSets() && k0 != SetOf(cfg, job.address) && job.threadId == 0 && job.IsWrite()
    requires copies[0] == Some(Owned) && copies[1] == Some(Shared)
    ensures Moved(cfg, s, job, 0, k0, TagOf(cfg, job.address)) == Modified
    ensures Moved(cfg, s, job, 1, k0, TagOf(cfg, job.address)) == Shared
  {
    var tag := TagOf(cfg, job.address);
    OwnedTagUpgrades(cfg, s, job, k0, copies);
    assert Copy(s.caches[0], k0, tag) == Some(Owned) && Copy(s.caches[1], k0, tag) == Some(Shared);
    hide ChoiceFor, St, Has, TagOf, SetOf, Holds;
  }

  /** Two addresses with one tag in two sets: the three-job trace on which MOESI fails. */
  function MarkingTrace(x: nat, y: nat): seq<Job> {
    WriteThenRead(y) + [Job('W', x, 0)]
  }

  lemma CollisionBreaksMoesi(cfg: Config, x: nat, y: nat)
    requires cfg.Valid() && cfg.protocol == MOESI && 2 <= cfg.numProcessors
    requires TagOf(cfg, x) == TagOf(cfg, y) && SetOf(cfg, x) != SetOf(cfg, y)
    ensures JobsInRange(cfg, MarkingTrace(x, y))
    ensures !SingleWriter(cfg, RunTrace(cfg, MarkingTrace(x, y)))
  {
    var k, t, trace, job := SetOf(cfg, y), TagOf(cfg, y), WriteThenRead(y), Job('W', x, 0);
    var copies := WriteThenReadOwns(cfg, y);
    var s := RunTrace(cfg, trace);
    assert CachesShaped(cfg, s) && JobAddresses(trace) <= {x, y};
    hide SetOf, TagOf, RunTrace, Holds, JobAddresses, RunJob, Moved, Ready;
    OneMoreJob(cfg, trace, job, {x, y});
    UpgradeMarksOtherSet(cfg, s, job, k, copies);
    hide SingleWriter;
    SharedBesideModified(cfg, {x, y}, s, job, k, t, RunTrace(cfg, MarkingTrace(x, y)));
  }

  lemma SharedBesideModified(cfg: Config, addresses: set<nat>, s: System, job: Job, k: nat, t: nat, s': System)
    requires cfg.Valid() && Ready(false, cfg, addresses, s) && CachesShaped(cfg, s) && CachesShaped(cfg, s') && 2 <= |s.caches|
    requires job.threadId < |s.caches| && k < cfg.NumSets() && k != SetOf(cfg, job.address) && s' == RunJob(cfg, s, job)
    requires Moved(cfg, s, job, 0, k, t) == Modified && Moved(cfg, s, job, 1, k, t) == Shared
    ensures !SingleWriter(cfg, s')
  {
    hide SetOf, RunJob, Moved, Ready, HasAfter, St, Shaped;
    var v0 := RunJobMoves(cfg, addresses, s, job, 0);
    var v1 := RunJobMoves(cfg, addresses, s, job, 1);
    assert St(s'.caches[0], k, t) == Modified && St(s'.caches[1], k, t) == Shared;
  }

  // ---------------------------------------------------------------------
  // An upgrade that takes no time
  // ---------------------------------------------------------------------

  lemma GrantedRequest(cfg: Config, b: System, k: nat)
    requires cfg.Valid() && CachesShaped(cfg, b) && k < |b.caches| && b.caches[k].haveBusRequest && FirstRequester(b.caches) == k
    ensures var g := NextTransaction(cfg, b);
            g.bus.inUse && g.bus.currentRequest == b.caches[k].busRequest
  {
    BroadcastEffect(cfg, Granted(cfg, b, k), |b.caches|);
    hide Broadcast, Snooped, AnswerOf, Shares, FirstRequester;
  }

  /** The bus serves an upgrade for the hit cost. */
  lemma UpgradeIsTimed(cfg: Config, addresses: set<nat>, s: System, job: Job)
    requires cfg.Valid() && cfg.protocol == MOESI && Ready(true, cfg, addresses, s) && job.address in addresses
    requires job.threadId < |s.caches| && ChoiceFor(cfg, s.caches[job.threadId].sets, job) == Upgrading
    ensures Quiescent(cfg, s)
    ensures var g := Started(cfg, s, job);
            && g.bus.inUse && g.bus.currentRequest.Some? && g.bus.currentRequest.value.cycleCost == cfg.cacheHitCycleCost
            && g.bus.endCycle == g.bus.startCycle + cfg.cacheHitCycleCost
  {
    var b := Begun(cfg, s, job);
    TakenChoice(cfg, s, job);
    BegunShape(cfg, s, job);
    BegunIsCoherent(true, cfg, addresses, s, job);
    GrantIsTimed(true, cfg, addresses, b);
    hide ChoiceFor, Taken, Begun, Coherent, NextTransaction, FirstRequester, TagOf, SetOf, SameStates, Marked, Upgrades;
    GrantedRequest(cfg, b, job.threadId);
  }

  lemma FirstOfJob(cfg: Config, s: System, job: Job)
    requires cfg.Valid() && Quiescent(cfg, s) && job.threadId < |s.caches|
    ensures MidJob(cfg, s, job, 1) == Started(cfg, s, job)
  {
    hide Started, EndOf, ServiceCost, Quiescent;
  }

  lemma LoopBeforeLast(cfg: Config, first: seq<Job>, job: Job)
    requires cfg.Valid() && JobsInRange(cfg, first + [job]) && JobsInRange(cfg, first)
    ensures Iterate(cfg, Controller(Init(cfg), first + [job]), TraceCost(cfg, first)) == Controller(RunTrace(cfg, first), [job])
  {
    hide Init, RunTrace, Quiescent, Iterate, TraceCost, StillRunning, SystemShaped, JobsInRange, RunningUntil;
    LoopReachesPrefix(cfg, first + [job], first, [job]);
  }

  lemma NoneInRange(cfg: Config)
    ensures JobsInRange(cfg, [])
  {
  }

  /** The loop's state in which the last job of a trace has started. */
  lemma LastJobStarts(cfg: Config, first: seq<Job>, job: Job)
    requires cfg.Valid() && JobsInRange(cfg, first + [job]) && job.threadId < cfg.numProcessors && JobsInRange(cfg, first)
    ensures Iterate(cfg, Controller(Init(cfg), first + [job]), TraceCost(cfg, first) + 1).sys
            == Started(cfg, RunTrace(cfg, first), job)
  {
    hide *;
    var trace, s, none := first + [job], RunTrace(cfg, first), [];
    NoneInRange(cfg);
    assert [job] + none == [job];
    LoopBeforeLast(cfg, first, job);
    JobIterations(cfg, Controller(Init(cfg), trace), TraceCost(cfg, first), s, job, none, 1);
    FirstOfJob(cfg, s, job);
  }

  lemma UpgradeOfOwned(cfg: Config, a: nat)
    requires cfg.Valid() && cfg.protocol == MOESI && 2 <= cfg.numProcessors
    ensures var s := RunTrace(cfg, WriteThenRead(a));
            && Ready(true, cfg, {a}, s)
            && ChoiceFor(cfg, s.caches[0].sets, Job('W', a, 0)) == Upgrading
  {
    var copies := WriteThenReadOwns(cfg, a);
    var trace, job := WriteThenRead(a), Job('W', a, 0);
    TraceIsShaped(cfg, trace);
    hide SetOf, TagOf, RunTrace, Holds, JobAddresses, Ready, ChoiceFor, CachesShaped;
    RunTraceIsReady(true, cfg, {a}, trace);
    OwnedTagUpgrades(cfg, RunTrace(cfg, trace), job, SetOf(cfg, a), copies);
  }

  lemma RewriteTrace(cfg: Config, a: nat)
    requires 2 <= cfg.numProcessors
    ensures var first, job := WriteThenRead(a), Job('W', a, 0);
            JobsInRange(cfg, first) && JobsInRange(cfg, first + [job]) && JobAddresses(first + [job]) <= {a}
  {
  }

  /** The one case in which a transaction ends when it starts: with hits for free, a cache
      writes a line again that another cache has read in the meantime. */
  lemma FreeUpgradeExample(cfg: Config, a: nat) returns (es: seq<Event>)
    requires cfg.Valid() && cfg.protocol == MOESI && 2 <= cfg.numProcessors && cfg.cacheHitCycleCost == 0
    ensures ValidEvents(cfg, es) && AddressesOf(es) <= {a}
    ensures Run(cfg, es).bus.inUse && Run(cfg, es).bus.startCycle == Run(cfg, es).bus.endCycle
  {
    hide *;
    var first, job := WriteThenRead(a), Job('W', a, 0);
    RewriteTrace(cfg, a);
    UpgradeOfOwned(cfg, a);
    UpgradeIsTimed(cfg, {a}, RunTrace(cfg, first), job);
    LastJobStarts(cfg, first, job);
    es := LoopIsInterleaving(cfg, first + [job], TraceCost(cfg, first) + 1);
  }

  // ---------------------------------------------------------------------
  // Two caches and a crowded set
  // ---------------------------------------------------------------------

  /** Two caches hold lines of set `k0` only, with tags `have[0]` and `have[1]`: all of them
      shared, except that `lone` is exclusive in cache 0. */
  function PicturedCopy(k0: nat, have: seq<set<nat>>, lone: Option<nat>, j: nat, k: nat, t: nat): Option<State>
    requires j < |have|
  {
    if k != k0 || t !in have[j] then None
    else Some(if j == 0 && lone == Some(t) then Exclusive else Shared)
  }

  ghost predicate Pictures(cfg: Config, s: System, k0: nat, have: seq<set<nat>>, lone: Option<nat>) {
    && |s.caches| == |have| == cfg.numProcessors == 2
    && (forall j :: 0 <= j < 2 ==> |s.caches[j].sets| == cfg.NumSets())
    && (forall j, k, t {:trigger Copy(s.caches[j], k, t)} :: 0 <= j < 2 && 0 <= k < cfg.NumSets() && 0 <= t ==>
          Copy(s.caches[j], k, t) == PicturedCopy(k0, have, lone, j, k, t))
  }

  lemma FewTagsHaveRoom(cfg: Config, addresses: set<nat>, s: System, job: Job, have: set<nat>)
    requires cfg.Valid() && Ready(false, cfg, addresses, s) && CachesShaped(cfg, s) && job.threadId < |s.caches|
    requires forall t: nat :: Has(s.caches[job.threadId], SetOf(cfg, job.address), t) ==> t in have
    requires TagOf(cfg, job.address) !in have && |have| < cfg.numLinesInSet
    ensures HasRoom(cfg, s, job)
  {
    var k, tag := SetOf(cfg, job.address), TagOf(cfg, job.address);
    var set0 := s.caches[job.threadId].sets[k];
    assert LinesFrom(cfg, addresses, k, set0) by {
      assert GoodCache(cfg, addresses, s.caches[job.threadId]);
    }
    forall t: nat | HasLine(set0, t)
      ensures t in have + {tag}
    {
      assert Has(s.caches[job.threadId], k, t);
    }
    hide SetOf, TagOf, Ready, HasLine;
    if !HasLine(set0, tag) {
      RoomForOneMore(set0, have + {tag}, tag);
    }
  }

  /** The two jobs that add one shared line to both caches: cache 0 reads it, then cache 1. */
  predicate Adds(cfg: Config, job: Job, k0: nat, have: seq<set<nat>>, lone: Option<nat>, have': seq<set<nat>>, lone': Option<nat>)
    requires cfg.Valid()
  {
    var tag := TagOf(cfg, job.address);
    && job.IsRead() && SetOf(cfg, job.address) == k0 && |have| == 2 && job.threadId < 2 && tag !in have[job.threadId]
    && have' == have[job.threadId := have[job.threadId] + {tag}]
    && (if job.threadId == 0 then lone == None && tag !in have[1] && lone' == Some(tag)
        else lone == Some(tag) && tag in have[0] && lone' == None)
  }

  lemma AddingMisses(cfg: Config, s: System, job: Job, k0: nat, have: seq<set<nat>>, lone: Option<nat>, have': seq<set<nat>>, lone': Option<nat>)
    requires cfg.Valid() && cfg.protocol == MOESI && CachesShaped(cfg, s) && Pictures(cfg, s, k0, have, lone)
    requires Adds(cfg, job, k0, have, lone, have', lone')
    ensures ChoiceFor(cfg, s.caches[job.threadId].sets, job) == OnBus
    ensures SharedBy(cfg, s, job) <==> job.threadId == 1
    ensures forall t: nat :: Has(s.caches[job.threadId], k0, t) ==> t in have[job.threadId]
  {
    var tag, other := TagOf(cfg, job.address), 1 - job.threadId;
    assert Copy(s.caches[other], k0, tag) == PicturedCopy(k0, have, lone, other, k0, tag);
    assert St(s.caches[other], k0, tag) == if other == 0 then Exclusive else Invalid;
    var c := s.caches[job.threadId];
    forall k, t: nat | 0 <= k < |c.sets| && Has(c, k, t)
      ensures k == k0 && t in have[job.threadId]
    {
      assert Copy(c, k, t) == PicturedCopy(k0, have, lone, job.threadId, k, t);
    }
    hide SetOf, TagOf, St, Has, Pictures, Shaped, ChoiceFor;
    AbsentMisses(cfg, s, job);
    AddingIsShared(cfg, s, job, other);
  }

  lemma AddingIsShared(cfg: Config, s: System, job: Job, other: nat)
    requires cfg.Valid() && cfg.protocol == MOESI && CachesShaped(cfg, s) && |s.caches| == 2 && job.IsRead()
    requires job.threadId < 2 && other == 1 - job.threadId
    requires St(s.caches[other], SetOf(cfg, job.address), TagOf(cfg, job.address)) == if other == 0 then Exclusive else Invalid
    ensures SharedBy(cfg, s, job) <==> job.threadId == 1
  {
    hide SetOf, TagOf, St, Shaped;
    assert CommandOf(job) == BusRd;
    assert Shares(MOESI, SnoopAnswer(MOESI, BusRd, Exclusive)) && !Shares(MOESI, SnoopAnswer(MOESI, BusRd, Invalid));
  }

  lemma AddingMoves(cfg: Config, s: System, job: Job, k0: nat, have: seq<set<nat>>, lone: Option<nat>, have': seq<set<nat>>, lone': Option<nat>,
                    j: nat, k: nat, t: nat)
    requires cfg.Valid() && cfg.protocol == MOESI && CachesShaped(cfg, s) && Pictures(cfg, s, k0, have, lone)
    requires Adds(cfg, job, k0, have, lone, have', lone') && j < 2 && k < cfg.NumSets()
    requires ChoiceFor(cfg, s.caches[job.threadId].sets, job) == OnBus && (SharedBy(cfg, s, job) <==> job.threadId == 1)
    ensures (if HasAfter(cfg, s, job, j, k, t) then Some(Moved(cfg, s, job, j, k, t)) else None) == PicturedCopy(k0, have', lone', j, k, t)
  {
    assert Copy(s.caches[j], k, t) == PicturedCopy(k0, have, lone, j, k, t);
    assert CommandOf(job) == BusRd;
    hide SetOf, TagOf, St, Has, Pictures, Shaped, ChoiceFor, SharedBy;
  }

  lemma AddingCopies(cfg: Config, s: System, job: Job, k0: nat, have: seq<set<nat>>, lone: Option<nat>, have': seq<set<nat>>, lone': Option<nat>,
                     j: nat, c': CacheState)
    requires cfg.Valid() && cfg.protocol == MOESI && CachesShaped(cfg, s) && Pictures(cfg, s, k0, have, lone) && |s.caches| == 2
    requires Adds(cfg, job, k0, have, lone, have', lone') && j < 2 && |have'| == 2
    requires ChoiceFor(cfg, s.caches[job.threadId].sets, job) == OnBus && (SharedBy(cfg, s, job) <==> job.threadId == 1)
    requires job.threadId < 2 && MovedTo(cfg, s, job, j, None, c')
    ensures |c'.sets| == cfg.NumSets()
    ensures forall k, t {:trigger Copy(c', k, t)} :: 0 <= k < cfg.NumSets() && 0 <= t ==> Copy(c', k, t) == PicturedCopy(k0, have', lone', j, k, t)
  {
    hide Pictures, Adds, ChoiceFor, SharedBy, St, Has, Moved, HasAfter, PicturedCopy, Shaped;
    forall k, t | 0 <= k < cfg.NumSets() && 0 <= t
      ensures Copy(c', k, t) == PicturedCopy(k0, have', lone', j, k, t)
    {
      AddingMoves(cfg, s, job, k0, have, lone, have', lone', j, k, t);
    }
  }

  lemma PicturesAfter(cfg: Config, s: System, k0: nat, have: seq<set<nat>>, lone: Option<nat>)
    requires |s.caches| == |have| == cfg.numProcessors == 2
    requires forall j :: 0 <= j < 2 ==> |s.caches[j].sets| == cfg.NumSets()
    requires forall j :: 0 <= j < 2 ==>
               forall k, t {:trigger Copy(s.caches[j], k, t)} :: 0 <= k < cfg.NumSets() && 0 <= t ==>
                 Copy(s.caches[j], k, t) == PicturedCopy(k0, have, lone, j, k, t)
    ensures Pictures(cfg, s, k0, have, lone)
  {
    hide Copy, PicturedCopy;
  }

  lemma AddingStep(cfg: Config, addresses: set<nat>, s: System, job: Job, k0: nat, have: seq<set<nat>>, lone: Option<nat>,
                   have': seq<set<nat>>, lone': Option<nat>)
    requires cfg.Valid() && cfg.protocol == MOESI && Ready(false, cfg, addresses, s) && CachesShaped(cfg, s)
    requires Pictures(cfg, s, k0, have, lone) && Adds(cfg, job, k0, have, lone, have', lone')
    requires |have[job.threadId]| < cfg.numLinesInSet
    ensures Pictures(cfg, RunJob(cfg, s, job), k0, have', lone')
  {
    var s' := RunJob(cfg, s, job);
    assert |s.caches| == 2 == cfg.numProcessors && |have| == |have'| == 2 && job.threadId < 2;
    assert SetOf(cfg, job.address) == k0 && TagOf(cfg, job.address) !in have[job.threadId];
    hide *;
    AddingMisses(cfg, s, job, k0, have, lone, have', lone');
    FewTagsHaveRoom(cfg, addresses, s, job, have[job.threadId]);
    var v := RunJobMoves(cfg, addresses, s, job, 0);
    forall j | 0 <= j < 2
      ensures |s'.caches[j].sets| == cfg.NumSets()
      ensures forall k, t {:trigger Copy(s'.caches[j], k, t)} :: 0 <= k < cfg.NumSets() && 0 <= t ==>
                Copy(s'.caches[j], k, t) == PicturedCopy(k0, have', lone', j, k, t)
    {
      var victim := RunJobMoves(cfg, addresses, s, job, j);
      AddingCopies(cfg, s, job, k0, have, lone, have', lone', j, s'.caches[j]);
    }
    PicturesAfter(cfg, s', k0, have', lone');
  }

  /** What the two caches hold after a trace over `addresses`. */
  ghost predicate Draws(cfg: Config, addresses: set<nat>, trace: seq<Job>, k0: nat, have: seq<set<nat>>, lone: Option<nat>) {
    && cfg.Valid() && JobsInRange(cfg, trace) && JobAddresses(trace) <= addresses
    && Pictures(cfg, RunTrace(cfg, trace), k0, have, lone)
  }

  lemma DrawsNothing(cfg: Config, addresses: set<nat>, k0: nat)
    requires cfg.Valid() && cfg.numProcessors == 2
    ensures Draws(cfg, addresses, [], k0, [{}, {}], None)
  {
  }

  lemma DrawsMore(cfg: Config, addresses: set<nat>, trace: seq<Job>, job: Job, k0: nat, have: seq<set<nat>>, lone: Option<nat>,
                  have': seq<set<nat>>, lone': Option<nat>)
    requires cfg.Valid() && cfg.protocol == MOESI && Draws(cfg, addresses, trace, k0, have, lone) && job.address in addresses
    requires Adds(cfg, job, k0, have, lone, have', lone') && |have[job.threadId]| < cfg.numLinesInSet
    ensures Draws(cfg, addresses, trace + [job], k0, have', lone')
  {
    var s := RunTrace(cfg, trace);
    assert CachesShaped(cfg, s) && cfg.numProcessors == 2 && job.threadId < 2;
    hide Pictures, RunTrace, Adds, RunJob, JobAddresses, JobsInRange, Ready, CachesShaped;
    OneMoreJob(cfg, trace, job, addresses);
    AddingStep(cfg, addresses, s, job, k0, have, lone, have', lone');
  }

  /** The tags that `addresses` have in set `k`. */
  function TagsAt(cfg: Config, addresses: set<nat>, k: nat): set<nat>
    requires cfg.Valid()
  {
    set a | a in addresses && SetOf(cfg, a) == k :: TagOf(cfg, a)
  }

  /** Both caches read `n` lines of one set. */
  lemma {:induction false} ReadLines(cfg: Config, addresses: set<nat>, k0: nat, n: nat) returns (trace: seq<Job>, tags: set<nat>)
    requires cfg.Valid() && cfg.protocol == MOESI && cfg.numProcessors == 2
    requires n <= |TagsAt(cfg, addresses, k0)| && n <= cfg.numLinesInSet
    ensures Draws(cfg, addresses, trace, k0, [tags, tags], None)
    ensures tags <= TagsAt(cfg, addresses, k0) && |tags| == n
  {
    if n == 0 {
      trace, tags := [], {};
      DrawsNothing(cfg, addresses, k0);
    } else {
      var before, few := ReadLines(cfg, addresses, k0, n - 1);
      var t := MissingTag(few, TagsAt(cfg, addresses, k0));
      var a :| a in addresses && SetOf(cfg, a) == k0 && TagOf(cfg, a) == t;
      trace, tags := ReadLine(cfg, addresses, k0, before, few, a);
    }
  }

  lemma MissingTag(few: set<nat>, many: set<nat>) returns (t: nat)
    requires few <= many && |few| < |many|
    ensures t in many && t !in few
  {
    assert few != many;
    t :| t in many && t !in few;
  }

  lemma ReadLine(cfg: Config, addresses: set<nat>, k0: nat, before: seq<Job>, few: set<nat>, a: nat) returns (trace: seq<Job>, tags: set<nat>)
    requires cfg.Valid() && cfg.protocol == MOESI && cfg.numProcessors == 2 && Draws(cfg, addresses, before, k0, [few, few], None)
    requires a in addresses && SetOf(cfg, a) == k0 && TagOf(cfg, a) !in few && |few| < cfg.numLinesInSet
    ensures Draws(cfg, addresses, trace, k0, [tags, tags], None) && tags == few + {TagOf(cfg, a)}
  {
    var t := TagOf(cfg, a);
    tags := few + {t};
    assert Adds(cfg, Job('R', a, 0), k0, [few, few], None, [tags, few], Some(t));
    assert Adds(cfg, Job('R', a, 1), k0, [tags, few], Some(t), [tags, tags], None);
    hide Draws, Adds, SetOf, TagOf;
    DrawsMore(cfg, addresses, before, Job('R', a, 0), k0, [few, few], None, [tags, few], Some(t));
    var mid := before + [Job('R', a, 0)];
    DrawsMore(cfg, addresses, mid, Job('R', a, 1), k0, [tags, few], Some(t), [tags, tags], None);
    trace := mid + [Job('R', a, 1)];
  }

  /** Distinct tags need a line each. */
  lemma {:induction false} TagsNeedLines(s: LineSet, tags: set<nat>)
    requires forall t :: t in tags ==> HasLine(s, t)
    ensures |tags| <= |s|
  {
    if |s| == 0 {
      assert tags == {};
    } else {
      var n := |s| - 1;
      var fewer := tags - {s[n].tag};
      forall t | t in fewer
        ensures HasLine(s[..n], t)
      {
        var i := Find(s, t);
        assert s[..n][i].tag == t;
      }
      TagsNeedLines(s[..n], fewer);
    }
  }

  /** Full sets: reading one more line into cache 0 drops some line that cache 1 keeps shared. */
  ghost predicate Parted(cfg: Config, s: System, k0: nat, v: nat) {
    && |s.caches| == cfg.numProcessors == 2 && k0 < cfg.NumSets()
    && (forall j :: 0 <= j < 2 ==> |s.caches[j].sets| == cfg.NumSets())
    && (forall k :: 0 <= k < cfg.NumSets() ==> !Has(s.caches[0], k, v))
    && St(s.caches[1], k0, v) == Shared
  }

  lemma FullSetHasNoRoom(cfg: Config, s: System, job: Job, have: set<nat>)
    requires cfg.Valid() && CachesShaped(cfg, s) && job.threadId < |s.caches|
    requires forall t :: t in have ==> Has(s.caches[job.threadId], SetOf(cfg, job.address), t)
    requires !Has(s.caches[job.threadId], SetOf(cfg, job.address), TagOf(cfg, job.address)) && |have| == cfg.numLinesInSet
    ensures !HasRoom(cfg, s, job)
  {
    hide SetOf, TagOf;
    TagsNeedLines(s.caches[job.threadId].sets[SetOf(cfg, job.address)], have);
  }

  /** What full sets look like to the next read of cache 0. */
  lemma FullPicture(cfg: Config, s: System, job: Job, tags: set<nat>)
    requires cfg.Valid() && CachesShaped(cfg, s) && Pictures(cfg, s, SetOf(cfg, job.address), [tags, tags], None)
    requires job.threadId == 0 && TagOf(cfg, job.address) !in tags
    ensures |s.caches| == 2
    ensures forall j, k, t: nat :: 0 <= j < 2 && 0 <= k < cfg.NumSets() ==>
              && (Has(s.caches[j], k, t) <==> k == SetOf(cfg, job.address) && t in tags)
              && (Has(s.caches[j], k, t) ==> St(s.caches[j], k, t) == Shared)
  {
    hide Has, St, SetOf, TagOf;
    forall j, k, t: nat | 0 <= j < 2 && 0 <= k < cfg.NumSets()
      ensures Has(s.caches[j], k, t) <==> k == SetOf(cfg, job.address) && t in tags
      ensures Has(s.caches[j], k, t) ==> St(s.caches[j], k, t) == Shared
    {
      assert Copy(s.caches[j], k, t) == PicturedCopy(SetOf(cfg, job.address), [tags, tags], None, j, k, t);
    }
  }

  /** A job's effects on single copies, when it is a read that goes to the bus. */
  lemma VictimIsGone(cfg: Config, s: System, job: Job, v: nat, c': CacheState)
    requires cfg.Valid() && CachesShaped(cfg, s) && job.threadId < |s.caches|
    requires MovedTo(cfg, s, job, job.threadId, Some(v), c') && v != TagOf(cfg, job.address)
    requires forall k :: 0 <= k < cfg.NumSets() && Has(s.caches[job.threadId], k, v) ==> k == SetOf(cfg, job.address)
    ensures |c'.sets| == cfg.NumSets() && forall k :: 0 <= k < cfg.NumSets() ==> !Has(c', k, v)
  {
    hide SetOf, TagOf, St, Has, Moved, ChoiceFor, Shaped;
  }

  lemma OtherLineStays(cfg: Config, s: System, job: Job, j: nat, k: nat, t: nat, c': CacheState)
    requires cfg.Valid() && CachesShaped(cfg, s) && job.threadId < |s.caches| && j < |s.caches| && j != job.threadId
    requires MovedTo(cfg, s, job, j, None, c') && k < cfg.NumSets() && t != TagOf(cfg, job.address)
    ensures |c'.sets| == cfg.NumSets() && St(c', k, t) == St(s.caches[j], k, t)
  {
    hide SetOf, TagOf, St, Has, ChoiceFor, Shaped, SharedBy;
  }

  lemma OwnReadEnds(cfg: Config, s: System, job: Job, victim: Option<nat>, c': CacheState)
    requires cfg.Valid() && cfg.protocol == MOESI && CachesShaped(cfg, s) && job.threadId < |s.caches| && job.IsRead()
    requires MovedTo(cfg, s, job, job.threadId, victim, c') && victim != Some(TagOf(cfg, job.address))
    requires ChoiceFor(cfg, s.caches[job.threadId].sets, job) == OnBus
    ensures |c'.sets| == cfg.NumSets()
    ensures St(c', SetOf(cfg, job.address), TagOf(cfg, job.address)) == if SharedBy(cfg, s, job) then Shared else Exclusive
  {
    hide SetOf, TagOf, St, Has, ChoiceFor, Shaped, SharedBy;
  }

  lemma SharedStaysShared(cfg: Config, s: System, job: Job, j: nat, c': CacheState)
    requires cfg.Valid() && cfg.protocol == MOESI && CachesShaped(cfg, s) && job.threadId < |s.caches| && job.IsRead()
    requires j < |s.caches| && j != job.threadId && MovedTo(cfg, s, job, j, None, c')
    requires ChoiceFor(cfg, s.caches[job.threadId].sets, job) == OnBus
    requires St(s.caches[j], SetOf(cfg, job.address), TagOf(cfg, job.address)) == Shared
    ensures |c'.sets| == cfg.NumSets() && St(c', SetOf(cfg, job.address), TagOf(cfg, job.address)) == Shared
  {
    hide SetOf, TagOf, St, Has, ChoiceFor, Shaped, SharedBy;
    assert CommandOf(job) == BusRd;
  }

  lemma OverflowDrops(cfg: Config, addresses: set<nat>, s: System, job: Job, tags: set<nat>) returns (v: nat)
    requires cfg.Valid() && cfg.protocol == MOESI && Ready(false, cfg, addresses, s) && CachesShaped(cfg, s)
    requires Pictures(cfg, s, SetOf(cfg, job.address), [tags, tags], None)
    requires job.IsRead() && job.threadId == 0 && TagOf(cfg, job.address) !in tags && |tags| == cfg.numLinesInSet
    ensures v in tags && Parted(cfg, RunJob(cfg, s, job), SetOf(cfg, job.address), v)
  {
    var k0, tag, s' := SetOf(cfg, job.address), TagOf(cfg, job.address), RunJob(cfg, s, job);
    assert cfg.numProcessors == 2 && |s.caches| == 2 && k0 < cfg.NumSets();
    assert |s.caches[0].sets| == |s.caches[1].sets| == cfg.NumSets();
    hide *;
    FullPicture(cfg, s, job, tags);
    AbsentMisses(cfg, s, job);
    FullSetHasNoRoom(cfg, s, job, tags);
    var victim := RunJobMoves(cfg, addresses, s, job, 0);
    var none := RunJobMoves(cfg, addresses, s, job, 1);
    assert OnBus.UsesBus() by { BusChoice(); }
    v := victim.value;
    VictimIsGone(cfg, s, job, v, s'.caches[0]);
    OtherLineStays(cfg, s, job, 1, k0, v, s'.caches[1]);
    assert Parted(cfg, s', k0, v) by { PartedIs(cfg, s', k0, v); }
  }

  lemma BusChoice()
    ensures OnBus.UsesBus()
  {
  }

  lemma PartedIs(cfg: Config, s: System, k0: nat, v: nat)
    requires |s.caches| == cfg.numProcessors == 2 && k0 < cfg.NumSets()
    requires |s.caches[0].sets| == |s.caches[1].sets| == cfg.NumSets()
    requires (forall k :: 0 <= k < cfg.NumSets() ==> !Has(s.caches[0], k, v)) && St(s.caches[1], k0, v) == Shared
    ensures Parted(cfg, s, k0, v)
  {
    hide Has, St;
  }

  /** Only an owner's answer counts, and there is none. */
  lemma NobodyOwns(cfg: Config, s: System, job: Job)
    requires cfg.Valid() && cfg.protocol == MOESI && CachesShaped(cfg, s) && |s.caches| == 2 && job.IsRead() && job.threadId == 0
    requires St(s.caches[1], SetOf(cfg, job.address), TagOf(cfg, job.address)) == Shared
    ensures !SharedBy(cfg, s, job)
  {
    hide SetOf, TagOf, St, Shaped;
    assert CommandOf(job) == BusRd;
  }

  /** Reading the dropped line again makes it exclusive beside the shared copy. */
  lemma PartedReadIsExclusive(cfg: Config, addresses: set<nat>, s: System, job: Job)
    requires cfg.Valid() && cfg.protocol == MOESI && Ready(false, cfg, addresses, s) && CachesShaped(cfg, s)
    requires job.IsRead() && job.threadId == 0 && Parted(cfg, s, SetOf(cfg, job.address), TagOf(cfg, job.address))
    ensures CachesShaped(cfg, RunJob(cfg, s, job)) ==> !SingleWriter(cfg, RunJob(cfg, s, job))
  {
    var k0, tag, s' := SetOf(cfg, job.address), TagOf(cfg, job.address), RunJob(cfg, s, job);
    assert |s.caches| == 2 && k0 < cfg.NumSets();
    assert |s.caches[0].sets| == cfg.NumSets() && forall k :: 0 <= k < cfg.NumSets() ==> !Has(s.caches[0], k, tag);
    assert St(s.caches[1], k0, tag) == Shared;
    hide *;
    AbsentMisses(cfg, s, job);
    NobodyOwns(cfg, s, job);
    var victim := RunJobMoves(cfg, addresses, s, job, 0);
    var none := RunJobMoves(cfg, addresses, s, job, 1);
    OwnReadEnds(cfg, s, job, victim, s'.caches[0]);
    SharedStaysShared(cfg, s, job, 1, s'.caches[1]);
    if CachesShaped(cfg, s') {
      NotSingleWriter(cfg, s', k0, tag);
    }
  }

  lemma NotSingleWriter(cfg: Config, s: System, k: nat, t: nat)
    requires CachesShaped(cfg, s) && 2 <= |s.caches| && k < cfg.NumSets()
    requires St(s.caches[0], k, t) in {Modified, Exclusive} && St(s.caches[1], k, t) != Invalid
    ensures !SingleWriter(cfg, s)
  {
    hide St, Shaped;
  }

  /** No set is short of lines for these addresses. */
  ghost predicate SetsSuffice(cfg: Config, addresses: set<nat>)
    requires cfg.Valid()
  {
    forall k: nat {:trigger TagsAt(cfg, addresses, k)} :: |TagsAt(cfg, addresses, k)| <= cfg.numLinesInSet
  }

  lemma CrowdingBreaksMoesi(cfg: Config, addresses: set<nat>, k0: nat) returns (trace: seq<Job>)
    requires cfg.Valid() && cfg.protocol == MOESI && cfg.numProcessors == 2
    requires cfg.numLinesInSet < |TagsAt(cfg, addresses, k0)|
    ensures JobsInRange(cfg, trace) && JobAddresses(trace) <= addresses && !SingleWriter(cfg, RunTrace(cfg, trace))
  {
    var before, tags := ReadLines(cfg, addresses, k0, cfg.numLinesInSet);
    var t := MissingTag(tags, TagsAt(cfg, addresses, k0));
    var a :| a in addresses && SetOf(cfg, a) == k0 && TagOf(cfg, a) == t;
    var job := Job('R', a, 0);
    var s := RunTrace(cfg, before);
    assert CachesShaped(cfg, s);
    hide RunTrace, RunJob, Pictures, SingleWriter, SetOf, TagOf, JobAddresses, JobsInRange, Ready, Parted, CachesShaped;
    OneMoreJob(cfg, before, job, addresses);
    var v := OverflowDrops(cfg, addresses, s, job, tags);
    var again :| again in addresses && SetOf(cfg, again) == k0 && TagOf(cfg, again) == v;
    var next, mid := Job('R', again, 0), before + [job];
    TraceIsShaped(cfg, mid);
    OneMoreJob(cfg, mid, next, addresses);
    PartedReadIsExclusive(cfg, addresses, RunTrace(cfg, mid), next);
    trace := mid + [next];
    TraceIsShaped(cfg, trace);
  }

  lemma TraceIsShaped(cfg: Config, trace: seq<Job>)
    requires cfg.Valid() && JobsInRange(cfg, trace)
    ensures CachesShaped(cfg, RunTrace(cfg, trace))
  {
    hide Shaped;
  }

  // ---------------------------------------------------------------------
  // Two caches, with tags that identify sets and room for every line
  // ---------------------------------------------------------------------

  /** Two copies of one line: either one of them is alone, or they share in a pair. */
  predicate GoodPair(x: State, y: State) {
    || (x == Invalid && y in {Invalid, Modified, Exclusive})
    || (y == Invalid && x in {Invalid, Modified, Exclusive})
    || (x == Shared && y in {Shared, Owned})
    || (y == Shared && x in {Shared, Owned})
  }

  ghost predicate Paired(cfg: Config, s: System) {
    && |s.caches| == 2 && |s.caches[0].sets| == |s.caches[1].sets| == cfg.NumSets()
    && forall k, t {:trigger St(s.caches[0], k, t)} {:trigger St(s.caches[1], k, t)} :: 0 <= k < cfg.NumSets() && 0 <= t ==>
         GoodPair(St(s.caches[0], k, t), St(s.caches[1], k, t))
  }

  /** The table: a job of the cache whose copy is `x` moves a good pair to a good pair. */
  lemma PairStep(job: Job, x: State, y: State)
    requires GoodPair(x, y)
    ensures var choice, shared := ChoiceAt(MOESI, x, job), Shares(MOESI, SnoopAnswer(MOESI, CommandOf(job), y));
            GoodPair(LineStep(MOESI, choice, true, job, shared, x), LineStep(MOESI, choice, false, job, shared, y))
  {
  }

  lemma OnlyOtherShares(cfg: Config, s: System, job: Job, other: nat)
    requires cfg.Valid() && cfg.protocol == MOESI && CachesShaped(cfg, s) && |s.caches| == 2 && job.threadId < 2 && other == 1 - job.threadId
    ensures SharedBy(cfg, s, job)
            == Shares(MOESI, SnoopAnswer(MOESI, CommandOf(job), St(s.caches[other], SetOf(cfg, job.address), TagOf(cfg, job.address))))
  {
    hide SetOf, TagOf, St, Shaped, SnoopAnswer, Shares, CommandOf;
  }

  lemma LinesAreAtHand(cfg: Config, addresses: set<nat>, s: System, job: Job)
    requires cfg.Valid() && Ready(false, cfg, addresses, s) && CachesShaped(cfg, s) && job.threadId < |s.caches|
    ensures var k := SetOf(cfg, job.address);
            forall t: nat :: Has(s.caches[job.threadId], k, t) ==> t in TagsAt(cfg, addresses, k)
  {
    var k := SetOf(cfg, job.address);
    var set0 := s.caches[job.threadId].sets[k];
    assert GoodCache(cfg, addresses, s.caches[job.threadId]);
    assert LinesFrom(cfg, addresses, k, set0);
    forall t: nat | Has(s.caches[job.threadId], k, t)
      ensures t in TagsAt(cfg, addresses, k)
    {
      assert set0[Find(set0, t)].rawAddress in addresses;
    }
  }

  lemma AlwaysRoom(cfg: Config, addresses: set<nat>, s: System, job: Job)
    requires cfg.Valid() && Ready(false, cfg, addresses, s) && CachesShaped(cfg, s) && job.threadId < |s.caches|
    requires SetsSuffice(cfg, addresses) && job.address in addresses
    ensures HasRoom(cfg, s, job)
  {
    var k, tag := SetOf(cfg, job.address), TagOf(cfg, job.address);
    var tags := TagsAt(cfg, addresses, k);
    assert tag in tags && |tags| <= cfg.numLinesInSet;
    LinesAreAtHand(cfg, addresses, s, job);
    hide SetOf, TagOf, TagsAt, Ready, Has, SetsSuffice;
    if !Has(s.caches[job.threadId], k, tag) {
      FewTagsHaveRoom(cfg, addresses, s, job, tags - {tag});
    }
  }

  /** One line of both caches after a job. */
  lemma PairAfterJob(cfg: Config, addresses: set<nat>, s: System, job: Job, k: nat, t: nat)
    requires cfg.Valid() && cfg.protocol == MOESI && TagsIdentifySets(cfg, addresses) && Ready(false, cfg, addresses, s)
    requires CachesShaped(cfg, s) && Paired(cfg, s) && job.address in addresses && job.threadId < 2 && k < cfg.NumSets()
    ensures GoodPair(Moved(cfg, s, job, 0, k, t), Moved(cfg, s, job, 1, k, t))
  {
    var own, other := job.threadId, 1 - job.threadId;
    assert GoodPair(St(s.caches[0], k, t), St(s.caches[1], k, t));
    var x, y := St(s.caches[own], k, t), St(s.caches[other], k, t);
    assert GoodPair(x, y);
    hide *;
    MovedIsLineStep(cfg, addresses, s, job, own, k, t);
    MovedIsLineStep(cfg, addresses, s, job, other, k, t);
    OnlyOtherShares(cfg, s, job, other);
    PairStep(job, x, y);
    if own == 1 {
      PairsAreSymmetric(Moved(cfg, s, job, own, k, t), Moved(cfg, s, job, other, k, t));
    }
  }

  lemma PairsAreSymmetric(x: State, y: State)
    ensures GoodPair(x, y) == GoodPair(y, x)
  {
  }

  lemma JobKeepsPaired(cfg: Config, addresses: set<nat>, s: System, job: Job)
    requires cfg.Valid() && cfg.protocol == MOESI && TagsIdentifySets(cfg, addresses) && SetsSuffice(cfg, addresses)
    requires Ready(false, cfg, addresses, s) && CachesShaped(cfg, s) && Paired(cfg, s) && job.address in addresses && job.threadId < 2
    ensures Paired(cfg, RunJob(cfg, s, job))
  {
    var s' := RunJob(cfg, s, job);
    assert |s.caches| == 2;
    hide TagsIdentifySets, SetsSuffice, Ready, Shaped, RunJob, Moved, HasAfter, GoodPair, St, Has, HasRoom, ChoiceFor;
    AlwaysRoom(cfg, addresses, s, job);
    var v0 := RunJobMoves(cfg, addresses, s, job, 0);
    var v1 := RunJobMoves(cfg, addresses, s, job, 1);
    forall k, t | 0 <= k < cfg.NumSets() && 0 <= t
      ensures GoodPair(St(s'.caches[0], k, t), St(s'.caches[1], k, t))
    {
      PairAfterJob(cfg, addresses, s, job, k, t);
    }
  }

  lemma {:induction false} TraceIsPaired(cfg: Config, addresses: set<nat>, trace: seq<Job>)
    requires cfg.Valid() && cfg.protocol == MOESI && cfg.numProcessors == 2
    requires TagsIdentifySets(cfg, addresses) && SetsSuffice(cfg, addresses)
    requires JobsInRange(cfg, trace) && JobAddresses(trace) <= addresses
    ensures Paired(cfg, RunTrace(cfg, trace))
  {
    if |trace| == 0 {
      assert forall k, t :: 0 <= k < cfg.NumSets() && 0 <= t ==> St(Init(cfg).caches[0], k, t) == St(Init(cfg).caches[1], k, t) == Invalid;
    } else {
      var n := |trace| - 1;
      var first, job := trace[..n], trace[n];
      assert first + [job] == trace;
      assert job.address in JobAddresses(trace) && JobAddresses(first) <= JobAddresses(trace);
      TraceIsPaired(cfg, addresses, first);
      TraceIsShaped(cfg, first);
      hide Paired, RunTrace, RunJob, Ready, TagsIdentifySets, SetsSuffice, JobAddresses, CachesShaped;
      OneMoreJob(cfg, first, job, addresses);
      JobKeepsPaired(cfg, addresses, RunTrace(cfg, first), job);
    }
  }

  lemma PairedIsSingleWriter(cfg: Config, s: System)
    requires CachesShaped(cfg, s) && Paired(cfg, s)
    ensures SingleWriter(cfg, s)
  {
    hide St, Shaped;
  }

  // ---------------------------------------------------------------------
  // The exact condition
  // ---------------------------------------------------------------------

  lemma NoAddressIsSingleWriter(cfg: Config)
    requires cfg.Valid()
    ensures AlwaysSingleWriter(cfg, {})
  {
    forall trace: seq<Job> | JobsInRange(cfg, trace) && JobAddresses(trace) <= {}
      ensures SingleWriter(cfg, RunTrace(cfg, trace))
    {
      assert |trace| > 0 ==> trace[0].address in JobAddresses(trace);
    }
  }

  lemma PairsAreSingleWriter(cfg: Config, addresses: set<nat>)
    requires cfg.Valid() && cfg.protocol == MOESI && cfg.numProcessors == 2
    requires TagsIdentifySets(cfg, addresses) && SetsSuffice(cfg, addresses)
    ensures AlwaysSingleWriter(cfg, addresses)
  {
    hide RunTrace, SingleWriter, Paired, TagsIdentifySets, SetsSuffice, JobAddresses, JobsInRange;
    forall trace | JobsInRange(cfg, trace) && JobAddresses(trace) <= addresses
      ensures SingleWriter(cfg, RunTrace(cfg, trace))
    {
      TraceIsPaired(cfg, addresses, trace);
      TraceIsShaped(cfg, trace);
      PairedIsSingleWriter(cfg, RunTrace(cfg, trace));
    }
  }

  lemma FewProcessors(cfg: Config, addresses: set<nat>, a: nat)
    requires cfg.Valid() && cfg.protocol == MOESI && a in addresses && AlwaysSingleWriter(cfg, addresses)
    ensures cfg.numProcessors <= 2
  {
    if 3 <= cfg.numProcessors {
      assert JobAddresses(ThreeReads(a)) <= addresses;
      hide RunTrace, SingleWriter, JobAddresses, JobsInRange;
      ThirdReaderIsExclusive(cfg, a);
    }
  }

  lemma TagsMustIdentifySets(cfg: Config, addresses: set<nat>)
    requires cfg.Valid() && cfg.protocol == MOESI && 2 <= cfg.numProcessors && AlwaysSingleWriter(cfg, addresses)
    ensures TagsIdentifySets(cfg, addresses)
  {
    forall a, b | a in addresses && b in addresses && TagOf(cfg, a) == TagOf(cfg, b)
      ensures SetOf(cfg, a) == SetOf(cfg, b)
    {
      if SetOf(cfg, a) != SetOf(cfg, b) {
        assert JobAddresses(MarkingTrace(a, b)) <= addresses;
        hide RunTrace, SingleWriter, JobAddresses, JobsInRange;
        CollisionBreaksMoesi(cfg, a, b);
        assert false;
      }
    }
  }

  lemma SetsMustSuffice(cfg: Config, addresses: set<nat>)
    requires cfg.Valid() && cfg.protocol == MOESI && cfg.numProcessors == 2 && AlwaysSingleWriter(cfg, addresses)
    ensures SetsSuffice(cfg, addresses)
  {
    hide RunTrace, SingleWriter, JobAddresses, JobsInRange, TagsAt;
    forall k: nat
      ensures |TagsAt(cfg, addresses, k)| <= cfg.numLinesInSet
    {
      if cfg.numLinesInSet < |TagsAt(cfg, addresses, k)| {
        var trace := CrowdingBreaksMoesi(cfg, addresses, k);
        assert false;
      }
    }
  }

  /** The exact condition: MOESI is single-writer on every trace over these addresses if and
      only if there is nothing to share, or there are just two caches, tags identify sets
      and no set is short of lines. */
  lemma MoesiSingleWriterIff(cfg: Config, addresses: set<nat>)
    requires cfg.Valid() && cfg.protocol == MOESI
    ensures AlwaysSingleWriter(cfg, addresses)
            <==> || cfg.numProcessors == 1
                 || addresses == {}
                 || (cfg.numProcessors == 2 && TagsIdentifySets(cfg, addresses) && SetsSuffice(cfg, addresses))
  {
    hide AlwaysSingleWriter, TagsIdentifySets, SetsSuffice;
    if cfg.numProcessors == 1 {
      OneCacheIsSingleWriter(cfg, addresses);
    } else if addresses == {} {
      NoAddressIsSingleWriter(cfg);
    } else {
      if cfg.numProcessors == 2 && TagsIdentifySets(cfg, addresses) && SetsSuffice(cfg, addresses) {
        PairsAreSingleWriter(cfg, addresses);
      }
      if AlwaysSingleWriter(cfg, addresses) {
        var a :| a in addresses;
        FewProcessors(cfg, addresses, a);
        TagsMustIdentifySets(cfg, addresses);
        SetsMustSuffice(cfg, addresses);
      }
    }
  }
}
