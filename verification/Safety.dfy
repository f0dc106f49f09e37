/** Every step of the machine keeps coherence, hence the safety theorems over all runs. */
module Safety {
  import opened Constants
  import opened LineSets
  import opened CacheModel
  import opened SystemModel
  import opened Coherence

  // ---------------------------------------------------------------------
  // The broadcast, without any assumption on states
  // ---------------------------------------------------------------------

  /** The answers that make the bus's shared flag true. */
  predicate Shares(p: Protocol, a: SnoopResult) {
    match p
    case MSI => false
    case MESI => a == SHARED || a == FLUSH_MODIFIED_TO_SHARED || a == FLUSH_MODIFIED_TO_INVALID
    case MOESI => a == MODIFIED || a == EXCLUSIVE || a == OWNED
  }

  function AnswerOf(cfg: Config, c: CacheState, r: Request): SnoopResult
    requires r.lineSet < |c.sets|
  {
    SnoopAnswer(cfg.protocol, r.command, St(c, r.lineSet, r.lineTag))
  }

  /** After `n` iterations the first `n` other caches have snooped, the requester
      changed in its cost only, and the flag says whether somebody shared. */
  ghost predicate SnoopedUpTo(cfg: Config, s: System, b: System, n: nat)
    requires cfg.Valid() && InTransaction(cfg, s) && n <= |s.caches|
  {
    var cc, r := s.bus.currentCache, s.bus.currentRequest.value;
    && |b.caches| == |s.caches|
    && b.cycle == s.cycle
    && b.bus == s.bus.(endCycle := b.bus.endCycle, isShared := b.bus.isShared)
    && b.caches[cc] == s.caches[cc].(jobCycleCost := b.caches[cc].jobCycleCost)
    && (forall j :: 0 <= j < |s.caches| && j != cc ==>
          b.caches[j] == if j < n then Snooped(cfg, s.caches[j], r, s.cycle) else s.caches[j])
    && (b.bus.isShared <==> s.bus.isShared || exists j :: 0 <= j < n && j != cc && Shares(cfg.protocol, AnswerOf(cfg, s.caches[j], r)))
  }

  /** What one answer may change. */
  lemma AnsweredEffect(cfg: Config, round: Round, a: SnoopResult)
    requires cfg.Valid() && InTransaction(cfg, round.sys)
    ensures var s, b := round.sys, Answered(cfg, round, a).sys;
            var cc := s.bus.currentCache;
            && |b.caches| == |s.caches|
            && b.cycle == s.cycle
            && b.bus == s.bus.(endCycle := b.bus.endCycle, isShared := s.bus.isShared || Shares(cfg.protocol, a))
            && (forall j :: 0 <= j < |s.caches| ==>
                  b.caches[j] == if j == cc then s.caches[j].(jobCycleCost := b.caches[cc].jobCycleCost) else s.caches[j])
  {
  }

  lemma SnoopOneEffect(cfg: Config, s: System, round: Round, i: nat)
    requires cfg.Valid() && InTransaction(cfg, s) && InTransaction(cfg, round.sys) && i < |s.caches|
    requires SnoopedUpTo(cfg, s, round.sys, i)
    ensures SnoopedUpTo(cfg, s, SnoopOne(cfg, round, i).sys, i + 1)
  {
    var cc, r, b := s.bus.currentCache, s.bus.currentRequest.value, round.sys;
    if i != cc {
      var o := Snoop(cfg, b.caches[i], b.stats, r, b.cycle);
      var round' := round.(sys := b.(caches := b.caches[i := o.cache], stats := o.stats));
      assert o.cache == Snooped(cfg, s.caches[i], r, s.cycle);
      assert o.result == AnswerOf(cfg, s.caches[i], r);
      AnsweredEffect(cfg, round', o.result);
      hide Answered, Snooped, Snoop, AnswerOf, Shares;
      var b' := SnoopOne(cfg, round, i).sys;
      assert b' == Answered(cfg, round', o.result).sys;
      if exists j :: 0 <= j < i && j != cc && Shares(cfg.protocol, AnswerOf(cfg, s.caches[j], r)) {
        var j :| 0 <= j < i && j != cc && Shares(cfg.protocol, AnswerOf(cfg, s.caches[j], r));
        assert 0 <= j < i + 1;
      }
    }
  }

  lemma {:induction false} BroadcastEffect(cfg: Config, s: System, n: nat)
    requires cfg.Valid() && InTransaction(cfg, s) && n <= |s.caches|
    ensures SnoopedUpTo(cfg, s, Broadcast(cfg, s, n).sys, n)
  {
    hide SnoopedUpTo, SnoopOne, SystemShaped;
    if n > 0 {
      BroadcastEffect(cfg, s, n - 1);
      SnoopOneEffect(cfg, s, Broadcast(cfg, s, n - 1), n - 1);
    } else {
      NothingSnooped(cfg, s);
    }
  }

  lemma NothingSnooped(cfg: Config, s: System)
    requires cfg.Valid() && InTransaction(cfg, s)
    ensures SnoopedUpTo(cfg, s, s, 0)
  {
  }

  // ---------------------------------------------------------------------
  // Protocol tables: compatibility survives every move
  // ---------------------------------------------------------------------

  lemma SnoopKeepsCompatible(p: Protocol, command: Command, a: State, b: State)
    requires Legal(p, a) && Legal(p, b) && Compatible(p, a, b)
    ensures Compatible(p, a, SnoopedState(p, command, b))
    ensures Compatible(p, SnoopedState(p, command, a), b)
    ensures Compatible(p, SnoopedState(p, command, a), SnoopedState(p, command, b))
  {
  }

  /** A snooped copy agrees with the outcome the requester was promised. */
  lemma SnoopedAgrees(p: Protocol, command: Command, isShared: bool, st: State)
    requires Legal(p, st) && (Shares(p, SnoopAnswer(p, command, st)) ==> isShared)
    ensures InFlightState(p, command, isShared, SnoopedState(p, command, st))
    ensures p == MESI && command == BusRd && Shares(p, SnoopAnswer(p, command, st)) ==> SnoopedState(p, command, st) == Shared
  {
  }

  lemma UpgradeKeepsCompatible(p: Protocol, a: State, a': State, b: State)
    requires a' == a || (a' == Modified && IsOwner(a))
    ensures Compatible(p, a, b) ==> Compatible(p, a', b)
    ensures Compatible(p, b, a) ==> Compatible(p, b, a')
    ensures forall command, isShared :: Legal(p, a) && InFlightState(p, command, isShared, a) ==> InFlightState(p, command, isShared, a')
  {
  }

  /** The state a finished job settles on is compatible with every copy that agreed. */
  lemma DoneIsCompatible(p: Protocol, command: Command, job: Job, isShared: bool, b: State)
    requires InFlightState(p, command, isShared, b) && Legal(p, b)
    requires job.IsRead() || job.IsWrite()
    requires command == BusRdX <==> job.IsWrite()
    ensures Compatible(p, DoneState(p, job, isShared, Invalid), b)
    ensures Compatible(p, b, DoneState(p, job, isShared, Invalid))
  {
  }

  // ---------------------------------------------------------------------
  // Granting the bus
  // ---------------------------------------------------------------------

  /** The states after the broadcast: the requester's are untouched, the others' lines have moved. */
  lemma StatesAfterBroadcast(cfg: Config, addresses: set<nat>, g: System, b: System, j: nat)
    requires cfg.Valid() && InTransaction(cfg, g) && g.caches[g.bus.currentCache].busRequestBeingServiced
    requires SnoopedUpTo(cfg, g, b, |g.caches|) && j < |g.caches|
    requires forall i :: 0 <= i < |g.caches| ==> GoodCache(cfg, addresses, g.caches[i])
    ensures GoodCache(cfg, addresses, b.caches[j])
    ensures b.caches[j].busRequestBeingServiced == g.caches[j].busRequestBeingServiced
    ensures forall k, t {:trigger St(b.caches[j], k, t)} :: 0 <= k < cfg.NumSets() && 0 <= t ==>
              var r := g.bus.currentRequest.value;
              St(b.caches[j], k, t) == if j != g.bus.currentCache && k == r.lineSet && t == r.lineTag
                                       then SnoopedState(cfg.protocol, r.command, St(g.caches[j], k, t))
                                       else St(g.caches[j], k, t)
  {
    hide LinesFrom, RequestFor, Snooped, SnoopedState, AnswerOf, Shares;
    if j != g.bus.currentCache {
      SnoopEffect(cfg, addresses, g.caches[j], g.bus.currentRequest.value, g.cycle);
    } else {
      var c, c' := g.caches[j], b.caches[j];
      assert forall k, t :: 0 <= k < |c.sets| && 0 <= t ==> St(c', k, t) == St(c, k, t);
    }
  }

  lemma BroadcastKeepsPairwise(cfg: Config, addresses: set<nat>, g: System, b: System)
    requires cfg.Valid() && InTransaction(cfg, g) && g.caches[g.bus.currentCache].busRequestBeingServiced
    requires SnoopedUpTo(cfg, g, b, |g.caches|) && SystemShaped(cfg, b)
    requires forall i :: 0 <= i < |g.caches| ==> GoodCache(cfg, addresses, g.caches[i])
    requires Pairwise(cfg, g)
    ensures Pairwise(cfg, b)
  {
    hide GoodCache, SnoopedState, Compatible, SnoopedUpTo, Legal, SnoopAnswer;
    var r := g.bus.currentRequest.value;
    forall i, j, k, t | 0 <= i < |b.caches| && 0 <= j < |b.caches| && i != j && 0 <= k < cfg.NumSets() && 0 <= t
      ensures Compatible(cfg.protocol, St(b.caches[i], k, t), St(b.caches[j], k, t))
    {
      StatesAfterBroadcast(cfg, addresses, g, b, i);
      StatesAfterBroadcast(cfg, addresses, g, b, j);
      var x, y := St(g.caches[i], k, t), St(g.caches[j], k, t);
      LegalIn(cfg, addresses, g.caches[i], k, t);
      LegalIn(cfg, addresses, g.caches[j], k, t);
      SnoopKeepsCompatible(cfg.protocol, r.command, x, y);
    }
  }

  lemma LegalIn(cfg: Config, addresses: set<nat>, c: CacheState, k: nat, t: nat)
    requires cfg.Valid() && GoodCache(cfg, addresses, c) && k < |c.sets|
    ensures Legal(cfg.protocol, St(c, k, t))
  {
  }

  lemma BroadcastMakesBusAgree(cfg: Config, addresses: set<nat>, g: System, b: System)
    requires cfg.Valid() && InTransaction(cfg, g) && SnoopedUpTo(cfg, g, b, |g.caches|) && SystemShaped(cfg, b)
    requires forall i :: 0 <= i < |g.caches| ==> GoodCache(cfg, addresses, g.caches[i])
    requires forall i :: 0 <= i < |g.caches| ==> (g.caches[i].busRequestBeingServiced <==> i == g.bus.currentCache)
    requires !g.bus.isShared && g.caches[g.bus.currentCache].busRequest == g.bus.currentRequest
    ensures BusServes(cfg, b) && OthersAgree(cfg, b)
  {
    hide GoodCache, SnoopedState, Legal, SnoopAnswer, Shares, InFlightState, Snooped;
    var cc, r := g.bus.currentCache, g.bus.currentRequest.value;
    forall j | 0 <= j < |b.caches| && j != cc
      ensures InFlightState(cfg.protocol, r.command, b.bus.isShared, St(b.caches[j], r.lineSet, r.lineTag))
      ensures cfg.protocol == MESI && r.command == BusRd && Shares(cfg.protocol, AnswerOf(cfg, g.caches[j], r))
              ==> St(b.caches[j], r.lineSet, r.lineTag) == Shared
    {
      StatesAfterBroadcast(cfg, addresses, g, b, j);
      LegalIn(cfg, addresses, g.caches[j], r.lineSet, r.lineTag);
      SnoopedAgrees(cfg.protocol, r.command, b.bus.isShared, St(g.caches[j], r.lineSet, r.lineTag));
    }
    forall i | 0 <= i < |b.caches|
      ensures b.caches[i].busRequestBeingServiced == g.caches[i].busRequestBeingServiced
    {
      StatesAfterBroadcast(cfg, addresses, g, b, i);
    }
  }

  /** Stats are only counted, never consulted. */
  lemma StatsDoNotMatter(strict: bool, cfg: Config, addresses: set<nat>, s: System, stats: Stats)
    requires cfg.Valid() && Coherent(strict, cfg, addresses, s)
    ensures Coherent(strict, cfg, addresses, s.(stats := stats))
  {
    hide GoodCache, Compatible, InFlightState, St;
  }

  lemma GrantKeepsCoherent(strict: bool, cfg: Config, addresses: set<nat>, s: System)
    requires cfg.Valid() && Coherent(strict, cfg, addresses, s) && !s.bus.inUse
    ensures Coherent(strict, cfg, addresses, NextTransaction(cfg, s))
  {
    var k := FirstRequester(s.caches);
    if k < |s.caches| {
      var g := Granted(cfg, s, k);
      var b := Broadcast(cfg, g, |s.caches|).sys;
      BroadcastEffect(cfg, g, |s.caches|);
      GrantedIsGood(strict, cfg, addresses, s, k);
      hide GoodCache, Pairwise, OthersAgree, SnoopedUpTo, Broadcast, Granted, FirstRequester;
      forall i | 0 <= i < |b.caches|
        ensures GoodCache(cfg, addresses, b.caches[i])
      {
        StatesAfterBroadcast(cfg, addresses, g, b, i);
      }
      if strict {
        BroadcastKeepsPairwise(cfg, addresses, g, b);
      }
      BroadcastMakesBusAgree(cfg, addresses, g, b);
      StatsDoNotMatter(strict, cfg, addresses, b, NextTransaction(cfg, s).stats);
    } else {
      hide GoodCache, Compatible, InFlightState, St;
    }
  }

  lemma GrantedIsGood(strict: bool, cfg: Config, addresses: set<nat>, s: System, k: nat)
    requires cfg.Valid() && Coherent(strict, cfg, addresses, s) && !s.bus.inUse
    requires k < |s.caches| && s.caches[k].haveBusRequest
    ensures var g := Granted(cfg, s, k);
            && (forall i :: 0 <= i < |g.caches| ==> GoodCache(cfg, addresses, g.caches[i]))
            && (forall i :: 0 <= i < |g.caches| ==> (g.caches[i].busRequestBeingServiced <==> i == g.bus.currentCache))
            && (strict ==> Pairwise(cfg, g))
            && !g.bus.isShared && g.caches[g.bus.currentCache].busRequest == g.bus.currentRequest
            && g.caches[g.bus.currentCache].busRequestBeingServiced
  {
    hide LinesFrom, RequestFor, Compatible, InFlightState;
    var g := Granted(cfg, s, k);
    forall i | 0 <= i < |g.caches|
      ensures GoodCache(cfg, addresses, g.caches[i])
      ensures forall kk, t {:trigger St(g.caches[i], kk, t)} :: 0 <= kk < cfg.NumSets() && 0 <= t ==> St(g.caches[i], kk, t) == St(s.caches[i], kk, t)
    {
      assert g.caches[i].sets == s.caches[i].sets;
      assert forall kk, t :: 0 <= kk < cfg.NumSets() && 0 <= t ==> St(g.caches[i], kk, t) == St(s.caches[i], kk, t);
    }
  }

  // ---------------------------------------------------------------------
  // Completing a transaction
  // ---------------------------------------------------------------------

  /** The finishing cache against any other copy of any line. */
  lemma DoneAgainstOther(cfg: Config, addresses: set<nat>, s: System, c': CacheState, j: nat, k: nat, t: nat)
    requires cfg.Valid() && Coherent(true, cfg, addresses, s) && s.bus.inUse
    requires j < |s.caches| && j != s.bus.currentCache && k < cfg.NumSets() && |c'.sets| == cfg.NumSets()
    requires DoneTo(cfg, s.caches[s.bus.currentCache], c', s.bus.isShared)
    ensures Compatible(cfg.protocol, St(c', k, t), St(s.caches[j], k, t))
    ensures Compatible(cfg.protocol, St(s.caches[j], k, t), St(c', k, t))
  {
    var cc := s.bus.currentCache;
    var c, r := s.caches[cc], s.bus.currentRequest.value;
    var job := c.currentJob.value;
    LegalIn(cfg, addresses, s.caches[j], k, t);
    assert Compatible(cfg.protocol, St(c, k, t), St(s.caches[j], k, t));
    assert RequestFor(cfg, job, r);
    if k == SetOf(cfg, job.address) && t == TagOf(cfg, job.address) && (job.IsRead() || job.IsWrite()) {
      DoneIsCompatible(cfg.protocol, r.command, job, s.bus.isShared, St(s.caches[j], k, t));
    }
  }

  lemma CompleteKeepsCoherent(strict: bool, cfg: Config, addresses: set<nat>, s: System)
    requires cfg.Valid() && Coherent(strict, cfg, addresses, s) && s.bus.inUse
    ensures Coherent(strict, cfg, addresses, Completed(cfg, s))
  {
    hide GoodCache, Compatible, InFlightState, BusJobDone, LinesFrom, Legal, RequestFor, DoneTo;
    var cc := s.bus.currentCache;
    var c' := BusJobDone(cfg, s.caches[cc], s.stats, s.bus.isShared, s.cycle).cache;
    DoneEffect(cfg, addresses, s.caches[cc], s.stats, s.bus.isShared, s.cycle);
    DoneFlags(cfg, s.caches[cc], c', s.bus.isShared);
    var s' := Completed(cfg, s);
    forall i, j, k, t | strict && 0 <= i < |s'.caches| && 0 <= j < |s'.caches| && i != j && 0 <= k < cfg.NumSets() && 0 <= t
      ensures Compatible(cfg.protocol, St(s'.caches[i], k, t), St(s'.caches[j], k, t))
    {
      if i == cc {
        DoneAgainstOther(cfg, addresses, s, c', j, k, t);
      } else if j == cc {
        DoneAgainstOther(cfg, addresses, s, c', i, k, t);
      }
    }
  }

  lemma DoneFlags(cfg: Config, c: CacheState, c': CacheState, isShared: bool)
    requires cfg.Valid() && c.currentJob.Some? && DoneTo(cfg, c, c', isShared)
    ensures !c'.busRequestBeingServiced && |c'.sets| == |c.sets|
  {
  }

  lemma BusTickKeepsCoherent(strict: bool, cfg: Config, addresses: set<nat>, s: System)
    requires cfg.Valid() && Coherent(strict, cfg, addresses, s)
    ensures Coherent(strict, cfg, addresses, BusTick(cfg, s))
  {
    hide Coherent, NextTransaction, Completed;
    assert SystemShaped(cfg, s) by { CoherentIsShaped(strict, cfg, addresses, s); }
    if !s.bus.inUse {
      GrantKeepsCoherent(strict, cfg, addresses, s);
    } else if s.bus.endCycle <= s.cycle {
      CompleteKeepsCoherent(strict, cfg, addresses, s);
      GrantKeepsCoherent(strict, cfg, addresses, Completed(cfg, s));
    }
  }

  lemma CoherentIsShaped(strict: bool, cfg: Config, addresses: set<nat>, s: System)
    requires cfg.Valid() && Coherent(strict, cfg, addresses, s)
    ensures SystemShaped(cfg, s)
  {
  }

  // ---------------------------------------------------------------------
  // Cache ticks, the clock, arriving jobs
  // ---------------------------------------------------------------------

  lemma TickCacheKeepsCoherent(strict: bool, cfg: Config, addresses: set<nat>, s: System, i: nat)
    requires cfg.Valid() && (strict ==> TraceOk(cfg, addresses)) && Coherent(strict, cfg, addresses, s) && i < |s.caches|
    ensures Coherent(strict, cfg, addresses, TickCache(cfg, s, i))
  {
    hide GoodCache, Compatible, InFlightState, Tick, LinesFrom, Legal, RequestFor, IsOwner;
    var s' := TickCache(cfg, s, i);
    var c, c' := s.caches[i], s'.caches[i];
    TickEffect(strict, cfg, addresses, c, s.stats, s.cycle);
    assert forall j :: 0 <= j < |s.caches| && j != i ==> s'.caches[j] == s.caches[j];
    assert forall k, t {:trigger St(c', k, t)} :: 0 <= k < cfg.NumSets() && 0 <= t ==>
        St(c', k, t) == St(c, k, t) || (St(c', k, t) == Modified && (strict ==> IsOwner(St(c, k, t))));
    if strict {
      forall a, b, k, t | 0 <= a < |s'.caches| && 0 <= b < |s'.caches| && a != b && 0 <= k < cfg.NumSets() && 0 <= t
        ensures Compatible(cfg.protocol, St(s'.caches[a], k, t), St(s'.caches[b], k, t))
      {
        assert Compatible(cfg.protocol, St(s.caches[a], k, t), St(s.caches[b], k, t));
        if a == i {
          UpgradeKeepsCompatible(cfg.protocol, St(c, k, t), St(c', k, t), St(s.caches[b], k, t));
        } else if b == i {
          UpgradeKeepsCompatible(cfg.protocol, St(c, k, t), St(c', k, t), St(s.caches[a], k, t));
        }
      }
      if s.bus.inUse && i != s.bus.currentCache {
        TickKeepsOthersAgreeing(cfg, addresses, s, i, c');
      }
    }
  }

  lemma TickKeepsOthersAgreeing(cfg: Config, addresses: set<nat>, s: System, i: nat, c': CacheState)
    requires cfg.Valid() && Coherent(true, cfg, addresses, s) && i < |s.caches| && s.bus.inUse && i != s.bus.currentCache
    requires |c'.sets| == cfg.NumSets()
    requires forall k, t {:trigger St(c', k, t)} :: 0 <= k < cfg.NumSets() && 0 <= t ==>
               St(c', k, t) == St(s.caches[i], k, t) || (St(c', k, t) == Modified && IsOwner(St(s.caches[i], k, t)))
    ensures var r := s.bus.currentRequest.value;
            && InFlightState(cfg.protocol, r.command, s.bus.isShared, St(c', r.lineSet, r.lineTag))
            && (St(s.caches[i], r.lineSet, r.lineTag) == Shared ==> St(c', r.lineSet, r.lineTag) == Shared)
  {
    var r := s.bus.currentRequest.value;
    var st := St(s.caches[i], r.lineSet, r.lineTag);
    LegalIn(cfg, addresses, s.caches[i], r.lineSet, r.lineTag);
    UpgradeKeepsCompatible(cfg.protocol, st, St(c', r.lineSet, r.lineTag), Invalid);
  }

  lemma EnqueueKeepsCoherent(strict: bool, cfg: Config, addresses: set<nat>, s: System, i: nat, job: Job)
    requires cfg.Valid() && Coherent(strict, cfg, addresses, s) && i < |s.caches| && job.address in addresses
    ensures Coherent(strict, cfg, addresses, Enqueued(s, i, job))
  {
    hide LinesFrom, RequestFor, Compatible, InFlightState, StateIn, Legal;
    var s' := Enqueued(s, i, job);
    forall j | 0 <= j < |s'.caches|
      ensures GoodCache(cfg, addresses, s'.caches[j])
      ensures forall k, t {:trigger St(s'.caches[j], k, t)} :: 0 <= k < cfg.NumSets() && 0 <= t ==> St(s'.caches[j], k, t) == St(s.caches[j], k, t)
    {
      assert s'.caches[j].sets == s.caches[j].sets;
      assert forall k, t :: 0 <= k < cfg.NumSets() && 0 <= t ==> St(s'.caches[j], k, t) == St(s.caches[j], k, t);
    }
  }

  lemma ClockKeepsCoherent(strict: bool, cfg: Config, addresses: set<nat>, s: System)
    requires cfg.Valid() && Coherent(strict, cfg, addresses, s)
    ensures Coherent(strict, cfg, addresses, s.(cycle := s.cycle + 1))
  {
    hide GoodCache, Compatible, InFlightState, St;
  }

  lemma InitIsCoherent(strict: bool, cfg: Config, addresses: set<nat>)
    requires cfg.Valid()
    ensures Coherent(strict, cfg, addresses, Init(cfg))
  {
  }

  // ---------------------------------------------------------------------
  // Every run
  // ---------------------------------------------------------------------

  ghost predicate EventsFrom(cfg: Config, addresses: set<nat>, es: seq<Event>) {
    forall k :: 0 <= k < |es| ==> es[k].Valid(cfg) && (es[k].Enqueues? ==> es[k].job.address in addresses)
  }

  lemma StepKeepsCoherent(strict: bool, cfg: Config, addresses: set<nat>, s: System, e: Event)
    requires cfg.Valid() && (strict ==> TraceOk(cfg, addresses)) && Coherent(strict, cfg, addresses, s)
    requires e.Valid(cfg) && (e.Enqueues? ==> e.job.address in addresses)
    ensures Coherent(strict, cfg, addresses, Apply(cfg, s, e))
  {
    hide TickCache, BusTick, Enqueued, GoodCache, Pairwise, BusServes, OthersAgree;
    match e
    case ClockTicks => ClockKeepsCoherent(strict, cfg, addresses, s);
    case CacheTicks(i) => TickCacheKeepsCoherent(strict, cfg, addresses, s, i);
    case BusTicks => BusTickKeepsCoherent(strict, cfg, addresses, s);
    case Enqueues(i, job) => EnqueueKeepsCoherent(strict, cfg, addresses, s, i, job);
  }

  lemma {:induction false} RunIsCoherent(strict: bool, cfg: Config, addresses: set<nat>, es: seq<Event>)
    requires cfg.Valid() && (strict ==> TraceOk(cfg, addresses)) && EventsFrom(cfg, addresses, es)
    ensures Coherent(strict, cfg, addresses, Run(cfg, es))
  {
    hide Coherent, Init, Apply;
    if |es| == 0 {
      InitIsCoherent(strict, cfg, addresses);
    } else {
      RunIsCoherent(strict, cfg, addresses, es[..|es| - 1]);
      StepKeepsCoherent(strict, cfg, addresses, Run(cfg, es[..|es| - 1]), es[|es| - 1]);
    }
  }

  /** The addresses that ever arrive in a sequence of events. */
  function AddressesOf(es: seq<Event>): set<nat> {
    set e | e in es && e.Enqueues? :: e.job.address
  }

  ghost predicate ValidEvents(cfg: Config, es: seq<Event>) {
    forall k :: 0 <= k < |es| ==> es[k].Valid(cfg)
  }

  /** MSI: a modified copy is the only valid one, whatever the addresses. */
  lemma MsiSingleWriter(cfg: Config, es: seq<Event>, i: nat, j: nat, k: nat, tag: nat)
    requires cfg.Valid() && cfg.protocol == MSI && ValidEvents(cfg, es)
    requires i < cfg.numProcessors && j < cfg.numProcessors && i != j && k < cfg.NumSets()
    ensures St(Run(cfg, es).caches[i], k, tag) == Modified ==> St(Run(cfg, es).caches[j], k, tag) == Invalid
  {
    RunIsPairwise(cfg, es, i, j, k, tag);
  }

  lemma RunIsPairwise(cfg: Config, es: seq<Event>, i: nat, j: nat, k: nat, tag: nat)
    requires cfg.Valid() && ValidEvents(cfg, es) && TraceOk(cfg, AddressesOf(es))
    requires i < cfg.numProcessors && j < cfg.numProcessors && i != j && k < cfg.NumSets()
    ensures Compatible(cfg.protocol, St(Run(cfg, es).caches[i], k, tag), St(Run(cfg, es).caches[j], k, tag))
  {
    RunIsCoherent(true, cfg, AddressesOf(es), es);
  }

  /** MESI: a modified or exclusive copy is the only valid one, when tags identify sets. */
  lemma MesiSingleWriter(cfg: Config, es: seq<Event>, i: nat, j: nat, k: nat, tag: nat)
    requires cfg.Valid() && cfg.protocol == MESI && ValidEvents(cfg, es)
    requires TagsIdentifySets(cfg, AddressesOf(es))
    requires i < cfg.numProcessors && j < cfg.numProcessors && i != j && k < cfg.NumSets()
    ensures St(Run(cfg, es).caches[i], k, tag) in {Modified, Exclusive} ==> St(Run(cfg, es).caches[j], k, tag) == Invalid
  {
    RunIsPairwise(cfg, es, i, j, k, tag);
  }

  /** MOESI: at most one cache owns a line, whatever the addresses, also while an
      owned line already marked modified still waits for its bus upgrade. */
  lemma MoesiSingleOwner(cfg: Config, es: seq<Event>, i: nat, j: nat, k: nat, tag: nat)
    requires cfg.Valid() && cfg.protocol == MOESI && ValidEvents(cfg, es)
    requires i < cfg.numProcessors && j < cfg.numProcessors && i != j && k < cfg.NumSets()
    ensures St(Run(cfg, es).caches[i], k, tag) in {Modified, Owned, Exclusive}
            ==> St(Run(cfg, es).caches[j], k, tag) !in {Modified, Owned, Exclusive}
  {
    RunIsPairwise(cfg, es, i, j, k, tag);
  }

  /** From grant to completion exactly one cache is serviced, and its request is for
      its current job. */
  lemma OneRequestInService(cfg: Config, es: seq<Event>)
    requires cfg.Valid() && ValidEvents(cfg, es) && Run(cfg, es).bus.inUse
    ensures var s := Run(cfg, es);
            var cc, r := s.bus.currentCache, s.bus.currentRequest.value;
            var job := s.caches[cc].currentJob.value;
            && (forall i :: 0 <= i < |s.caches| ==> (s.caches[i].busRequestBeingServiced <==> i == cc))
            && s.caches[cc].haveBusRequest && s.caches[cc].busRequest == Some(r)
            && (job.IsRead() || job.IsWrite() ==>
                  && r.lineSet == SetOf(cfg, job.address) && r.lineTag == TagOf(cfg, job.address)
                  && (r.command == BusRdX <==> job.IsWrite()))
  {
    RunIsCoherent(false, cfg, AddressesOf(es), es);
    hide LinesFrom, St, SetOf, TagOf, Pairwise, OthersAgree;
    var s := Run(cfg, es);
    assert GoodCache(cfg, AddressesOf(es), s.caches[s.bus.currentCache]);
  }

  /** Meanwhile a BusRdX finds every other copy invalid already, and a MESI BusRd finds
      them shared or invalid, with the bus flag telling which. */
  lemma CopiesDuringTransaction(cfg: Config, es: seq<Event>)
    requires cfg.Valid() && ValidEvents(cfg, es) && TraceOk(cfg, AddressesOf(es)) && Run(cfg, es).bus.inUse
    ensures var s := Run(cfg, es);
            var cc, r := s.bus.currentCache, s.bus.currentRequest.value;
            && (r.command == BusRdX ==>
                  forall j :: 0 <= j < |s.caches| && j != cc ==> St(s.caches[j], r.lineSet, r.lineTag) == Invalid)
            && (cfg.protocol == MESI && r.command == BusRd ==>
                  && (forall j :: 0 <= j < |s.caches| && j != cc ==> St(s.caches[j], r.lineSet, r.lineTag) in {Shared, Invalid})
                  && (s.bus.isShared <==> exists j :: 0 <= j < |s.caches| && j != cc && St(s.caches[j], r.lineSet, r.lineTag) == Shared))
  {
    RunIsCoherent(true, cfg, AddressesOf(es), es);
    hide LinesFrom, St, SetOf, TagOf, Pairwise, GoodCache;
  }

  /** Every set, in every reachable state, is within capacity, holds no tag twice,
      and holds only lines that decode to it. */
  lemma SetsAreWellFormed(cfg: Config, es: seq<Event>, i: nat, k: nat)
    requires cfg.Valid() && ValidEvents(cfg, es)
    requires i < cfg.numProcessors && k < cfg.NumSets()
    ensures var s := Run(cfg, es).caches[i].sets[k];
            && |s| <= cfg.numLinesInSet
            && DistinctTags(s)
            && forall n :: 0 <= n < |s| ==>
                             s[n].setIndex == k == SetOf(cfg, s[n].rawAddress) && s[n].tag == TagOf(cfg, s[n].rawAddress)
  {
    RunIsCoherent(false, cfg, AddressesOf(es), es);
    hide St, SetOf, TagOf, Pairwise, OthersAgree, BusServes;
    assert GoodCache(cfg, AddressesOf(es), Run(cfg, es).caches[i]);
    assert LinesFrom(cfg, AddressesOf(es), k, Run(cfg, es).caches[i].sets[k]);
  }
}
