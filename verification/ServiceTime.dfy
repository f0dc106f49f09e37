/** How long a bus transaction takes.  The bus adjusts the end of the transaction once
    per answering cache; coherence is what bounds the number of adjustments. */
module ServiceTime {
  import opened Constants
  import opened LineSets
  import opened CacheModel
  import opened SystemModel
  import opened Coherence
  import opened Safety

  /** The possible durations `d` of a transaction whose request cost `c`. */
  predicate Duration(cfg: Config, c: nat, d: int) {
    var mem, resp := cfg.memoryResponseCycleCost, cfg.cacheResponseCycleCost;
    match cfg.protocol
    case MSI => d == c || d == c + mem
    case MESI => d == c || d == c - (mem - resp) || d == c + resp
    case MOESI => d == c || (c != cfg.cacheHitCycleCost && d == c - (mem - resp))
  }

  /** The other caches' copies, as the broadcast finds them. */
  predicate HeldBefore(g: System, n: nat, wanted: set<State>)
    requires g.bus.inUse && g.bus.currentRequest.Some? && n <= |g.caches|
    requires forall j :: 0 <= j < |g.caches| ==> g.bus.currentRequest.value.lineSet < |g.caches[j].sets|
  {
    exists j :: 0 <= j < n && j != g.bus.currentCache
                && St(g.caches[j], g.bus.currentRequest.value.lineSet, g.bus.currentRequest.value.lineTag) in wanted
  }

  /** Progress of the end cycle and of the requester's cost through the broadcast. */
  ghost predicate TimedUpTo(strict: bool, cfg: Config, g: System, round: Round, n: nat)
    requires cfg.Valid() && InTransaction(cfg, g) && InTransaction(cfg, round.sys) && n <= |g.caches|
    requires |round.sys.caches| == |g.caches| && round.sys.bus.currentCache == g.bus.currentCache
  {
    var c := g.bus.currentRequest.value.cycleCost;
    var d := round.sys.bus.endCycle - g.bus.startCycle;
    var w := round.sys.caches[g.bus.currentCache].jobCycleCost;
    var mem, resp := cfg.memoryResponseCycleCost, cfg.cacheResponseCycleCost;
    match cfg.protocol
    case MSI =>
      && w == d
      && (strict ==> d == if HeldBefore(g, n, {Modified}) then c + mem else c)
    case MESI =>
      && (round.foundShared <==> HeldBefore(g, n, {Shared, Exclusive}))
      && (if round.foundShared then w <= d else w == d >= mem)
      && (strict ==> d == if round.foundShared then c - (mem - resp)
                          else if HeldBefore(g, n, {Modified}) then c + resp else c)
    case MOESI =>
      strict ==>
        if HeldBefore(g, n, {Modified, Owned, Exclusive}) && c != cfg.cacheHitCycleCost
        then d == c - (mem - resp) && w == resp
        else d == w == c
  }

  /** A transaction at the moment it is granted. */
  ghost predicate JustGranted(cfg: Config, addresses: set<nat>, g: System)
    requires cfg.Valid()
  {
    && InTransaction(cfg, g)
    && (forall i :: 0 <= i < |g.caches| ==> GoodCache(cfg, addresses, g.caches[i]))
    && g.caches[g.bus.currentCache].haveBusRequest
    && g.caches[g.bus.currentCache].busRequest == g.bus.currentRequest
    && CostOf(cfg, g.bus.currentRequest.value)
    && g.bus.endCycle == g.bus.startCycle + g.bus.currentRequest.value.cycleCost
    && g.caches[g.bus.currentCache].startServiceCycle == g.bus.startCycle
    && g.caches[g.bus.currentCache].jobCycleCost == g.bus.currentRequest.value.cycleCost
  }

  /** What the answer of a cache in state `st` does to the end cycle, to the requester's own
      estimate and to the shared flag, for a request of cost `c` by cache `cc`. */
  ghost predicate AnswerMoves(cfg: Config, cc: nat, c: nat, st: State, round: Round, round': Round)
    requires cfg.Valid() && cc < |round.sys.caches| && cc < |round'.sys.caches|
  {
    var e, e' := round.sys.bus.endCycle, round'.sys.bus.endCycle;
    var w, w' := round.sys.caches[cc].jobCycleCost, round'.sys.caches[cc].jobCycleCost;
    var mem, resp := cfg.memoryResponseCycleCost, cfg.cacheResponseCycleCost;
    match cfg.protocol
    case MSI => if st == Modified then e' == e + mem && w' == w + mem else e' == e && w' == w
    case MESI =>
      if st == Modified then e' == e + resp && w' == w + resp && round'.foundShared == round.foundShared
      else if (st == Shared || st == Exclusive) && !round.foundShared then e' == e - (mem - resp) && w' == resp && round'.foundShared
      else e' == e && w' == w && round'.foundShared == round.foundShared
    case MOESI =>
      if IsOwner(st) && c != cfg.cacheHitCycleCost then e' == e - (mem - resp) && w' == resp
      else e' == e && w' == w
  }

  lemma AnsweredTime(cfg: Config, round: Round, st: State)
    requires cfg.Valid() && InTransaction(cfg, round.sys) && Legal(cfg.protocol, st)
    ensures var r := round.sys.bus.currentRequest.value;
            var round' := Answered(cfg, round, SnoopAnswer(cfg.protocol, r.command, st));
            && |round'.sys.caches| == |round.sys.caches|
            && AnswerMoves(cfg, round.sys.bus.currentCache, r.cycleCost, st, round, round')
  {
  }

  /** Whoever owned the line before the broadcast was alone with it. */
  lemma OneOwner(cfg: Config, g: System, n: nat)
    requires cfg.Valid() && InTransaction(cfg, g) && Pairwise(cfg, g) && n < |g.caches| && n != g.bus.currentCache
    ensures var r := g.bus.currentRequest.value;
            var st := St(g.caches[n], r.lineSet, r.lineTag);
            && (IsOwner(st) ==> !HeldBefore(g, n, {Modified, Owned, Exclusive}))
            && (cfg.protocol != MOESI && st == Modified ==> !HeldBefore(g, n, {Shared, Exclusive}) && !HeldBefore(g, n, {Modified}))
            && (cfg.protocol != MOESI && (st == Shared || st == Exclusive) ==> !HeldBefore(g, n, {Modified}))
  {
    var r := g.bus.currentRequest.value;
    forall j | 0 <= j < n && j != g.bus.currentCache
      ensures Compatible(cfg.protocol, St(g.caches[j], r.lineSet, r.lineTag), St(g.caches[n], r.lineSet, r.lineTag))
    {
    }
  }

  lemma HeldStep(g: System, n: nat, wanted: set<State>)
    requires g.bus.inUse && g.bus.currentRequest.Some? && n < |g.caches|
    requires forall j :: 0 <= j < |g.caches| ==> g.bus.currentRequest.value.lineSet < |g.caches[j].sets|
    ensures var r := g.bus.currentRequest.value;
            HeldBefore(g, n + 1, wanted) <==>
            HeldBefore(g, n, wanted) || (n != g.bus.currentCache && St(g.caches[n], r.lineSet, r.lineTag) in wanted)
  {
    var r := g.bus.currentRequest.value;
    if HeldBefore(g, n, wanted) {
      var j :| 0 <= j < n && j != g.bus.currentCache && St(g.caches[j], r.lineSet, r.lineTag) in wanted;
      assert 0 <= j < n + 1;
    }
  }

  /** How one more answer moves the progress, as a table on the answering cache's state. */
  lemma TimedTable(strict: bool, cfg: Config, addresses: set<nat>, g: System, round: Round, round': Round, n: nat, st: State)
    requires cfg.Valid() && JustGranted(cfg, addresses, g) && n < |g.caches| && n != g.bus.currentCache
    requires InTransaction(cfg, round.sys) && InTransaction(cfg, round'.sys)
    requires |round.sys.caches| == |round'.sys.caches| == |g.caches|
    requires round.sys.bus.currentCache == round'.sys.bus.currentCache == g.bus.currentCache
    requires Legal(cfg.protocol, st)
    requires var r := g.bus.currentRequest.value; r.lineSet < |g.caches[n].sets| && st == St(g.caches[n], r.lineSet, r.lineTag)
    requires TimedUpTo(strict, cfg, g, round, n)
    requires strict ==> && (IsOwner(st) ==> !HeldBefore(g, n, {Modified, Owned, Exclusive}))
                        && (cfg.protocol != MOESI && st == Modified ==> !HeldBefore(g, n, {Shared, Exclusive}) && !HeldBefore(g, n, {Modified}))
                        && (cfg.protocol != MOESI && (st == Shared || st == Exclusive) ==> !HeldBefore(g, n, {Modified}))
    requires AnswerMoves(cfg, g.bus.currentCache, g.bus.currentRequest.value.cycleCost, st, round, round')
    ensures TimedUpTo(strict, cfg, g, round', n + 1)
  {
    hide GoodCache, HeldBefore, St;
    HeldStep(g, n, {Modified});
    HeldStep(g, n, {Shared, Exclusive});
    HeldStep(g, n, {Modified, Owned, Exclusive});
  }

  lemma TimedStep(strict: bool, cfg: Config, addresses: set<nat>, g: System, round: Round, n: nat)
    requires cfg.Valid() && JustGranted(cfg, addresses, g) && (strict ==> Pairwise(cfg, g))
    requires InTransaction(cfg, round.sys) && n < |g.caches| && SnoopedUpTo(cfg, g, round.sys, n)
    requires TimedUpTo(strict, cfg, g, round, n)
    ensures |SnoopOne(cfg, round, n).sys.caches| == |g.caches| && SnoopOne(cfg, round, n).sys.bus.currentCache == g.bus.currentCache
    ensures TimedUpTo(strict, cfg, g, SnoopOne(cfg, round, n), n + 1)
  {
    hide HeldBefore, SnoopedUpTo, GoodCache, TimedUpTo, Pairwise, Legal, CostOf, AnswerMoves;
    SameRequest(cfg, g, round, n);
    if n != g.bus.currentCache {
      if strict {
        OneOwner(cfg, g, n);
      }
      var r := g.bus.currentRequest.value;
      var st := St(g.caches[n], r.lineSet, r.lineTag);
      LegalIn(cfg, addresses, g.caches[n], r.lineSet, r.lineTag);
      AnswerTime(cfg, round, n, st);
      hide SnoopOne, Shaped;
      TimedTable(strict, cfg, addresses, g, round, SnoopOne(cfg, round, n), n, st);
    } else {
      RequesterDoesNotSnoop(strict, cfg, addresses, g, round, n);
    }
  }

  lemma RequesterDoesNotSnoop(strict: bool, cfg: Config, addresses: set<nat>, g: System, round: Round, n: nat)
    requires cfg.Valid() && JustGranted(cfg, addresses, g) && n < |g.caches| && n == g.bus.currentCache
    requires InTransaction(cfg, round.sys) && |round.sys.caches| == |g.caches| && round.sys.bus.currentCache == g.bus.currentCache
    requires TimedUpTo(strict, cfg, g, round, n)
    ensures TimedUpTo(strict, cfg, g, SnoopOne(cfg, round, n), n + 1)
  {
    hide GoodCache, HeldBefore, St;
    HeldStep(g, n, {Modified});
    HeldStep(g, n, {Shared, Exclusive});
    HeldStep(g, n, {Modified, Owned, Exclusive});
  }

  /** `AnsweredTime`, for a whole iteration of the broadcast. */
  lemma AnswerTime(cfg: Config, round: Round, n: nat, st: State)
    requires cfg.Valid() && InTransaction(cfg, round.sys) && n < |round.sys.caches| && n != round.sys.bus.currentCache
    requires Legal(cfg.protocol, st)
    requires var r := round.sys.bus.currentRequest.value; st == St(round.sys.caches[n], r.lineSet, r.lineTag)
    ensures var r := round.sys.bus.currentRequest.value;
            var round' := SnoopOne(cfg, round, n);
            && |round'.sys.caches| == |round.sys.caches| && round'.sys.bus.currentCache == round.sys.bus.currentCache
            && AnswerMoves(cfg, round.sys.bus.currentCache, r.cycleCost, st, round, round')
  {
    hide Snooped, SnoopStats, Shaped;
    var b := round.sys;
    var o := Snoop(cfg, b.caches[n], b.stats, b.bus.currentRequest.value, b.cycle);
    var before := round.(sys := b.(caches := b.caches[n := o.cache], stats := o.stats));
    AnsweredTime(cfg, before, st);
    AnsweredEffect(cfg, before, SnoopAnswer(cfg.protocol, b.bus.currentRequest.value.command, st));
    hide Answered, SnoopAnswer;
  }

  lemma SameRequest(cfg: Config, g: System, round: Round, n: nat)
    requires cfg.Valid() && InTransaction(cfg, g) && InTransaction(cfg, round.sys) && n < |g.caches| && SnoopedUpTo(cfg, g, round.sys, n)
    ensures round.sys.bus.currentRequest == g.bus.currentRequest && round.sys.bus.currentCache == g.bus.currentCache
    ensures n != g.bus.currentCache ==> round.sys.caches[n] == g.caches[n]
  {
  }

  lemma {:induction false} BroadcastTime(strict: bool, cfg: Config, addresses: set<nat>, g: System, n: nat)
    requires cfg.Valid() && JustGranted(cfg, addresses, g) && (strict ==> Pairwise(cfg, g)) && n <= |g.caches|
    ensures Broadcast(cfg, g, n).sys.bus.currentCache == g.bus.currentCache
    ensures TimedUpTo(strict, cfg, g, Broadcast(cfg, g, n), n)
  {
    hide SnoopOne, SnoopedUpTo, TimedUpTo, GoodCache, Pairwise, CostOf, Shaped, HeldBefore;
    if n > 0 {
      BroadcastTime(strict, cfg, addresses, g, n - 1);
      BroadcastEffect(cfg, g, n - 1);
      TimedStep(strict, cfg, addresses, g, Broadcast(cfg, g, n - 1), n - 1);
    } else {
      TimedAtStart(strict, cfg, addresses, g);
    }
  }

  lemma TimedAtStart(strict: bool, cfg: Config, addresses: set<nat>, g: System)
    requires cfg.Valid() && JustGranted(cfg, addresses, g)
    ensures TimedUpTo(strict, cfg, g, Round(g, false), 0)
  {
    hide GoodCache;
  }

  // ---------------------------------------------------------------------
  // Every run
  // ---------------------------------------------------------------------

  /** The transaction in flight: the requester knows when it started and never expects
      to end after the bus does; under coherence the duration is one of the few possible. */
  ghost predicate Timed(strict: bool, cfg: Config, s: System)
    requires cfg.Valid() && SystemShaped(cfg, s)
  {
    s.bus.inUse ==>
      var c := s.caches[s.bus.currentCache];
      && c.startServiceCycle == s.bus.startCycle
      && c.startServiceCycle + c.jobCycleCost <= s.bus.endCycle
      && (strict ==> Duration(cfg, s.bus.currentRequest.value.cycleCost, s.bus.endCycle - s.bus.startCycle))
      && CostOf(cfg, s.bus.currentRequest.value)
  }

  /** The line state the timing theorem needs: coherence, or a protocol that copes without. */
  predicate TimingApplies(strict: bool, cfg: Config) {
    strict || cfg.protocol != MOESI
  }

  lemma GrantIsTimed(strict: bool, cfg: Config, addresses: set<nat>, s: System)
    requires cfg.Valid() && TimingApplies(strict, cfg) && Coherent(strict, cfg, addresses, s) && !s.bus.inUse
    ensures Timed(strict, cfg, NextTransaction(cfg, s))
  {
    var k := FirstRequester(s.caches);
    if k < |s.caches| {
      var g := Granted(cfg, s, k);
      GrantedIsGood(strict, cfg, addresses, s, k);
      assert CostOf(cfg, g.bus.currentRequest.value) by {
        assert GoodCache(cfg, addresses, s.caches[k]);
      }
      assert JustGranted(cfg, addresses, g) by {
        assert GoodCache(cfg, addresses, s.caches[k]);
      }
      BroadcastTime(strict, cfg, addresses, g, |s.caches|);
      BroadcastEffect(cfg, g, |s.caches|);
      hide GoodCache, Pairwise, OthersAgree, Broadcast, HeldBefore, Granted, Coherent, JustGranted, St, FirstRequester;
      assert TimedUpTo(strict, cfg, g, Broadcast(cfg, g, |s.caches|), |s.caches|);
      TimedAtTheEnd(strict, cfg, addresses, g, Broadcast(cfg, g, |s.caches|));
    }
  }

  lemma TimedAtTheEnd(strict: bool, cfg: Config, addresses: set<nat>, g: System, round: Round)
    requires cfg.Valid() && TimingApplies(strict, cfg) && JustGranted(cfg, addresses, g)
    requires InTransaction(cfg, round.sys) && SnoopedUpTo(cfg, g, round.sys, |g.caches|)
    requires TimedUpTo(strict, cfg, g, round, |g.caches|)
    ensures Timed(strict, cfg, BroadcastDone(cfg, round))
  {
    hide GoodCache, HeldBefore, Snooped;
  }

  lemma BusTickIsTimed(strict: bool, cfg: Config, addresses: set<nat>, s: System)
    requires cfg.Valid() && TimingApplies(strict, cfg) && Coherent(strict, cfg, addresses, s) && Timed(strict, cfg, s)
    ensures Timed(strict, cfg, BusTick(cfg, s))
  {
    CoherentIsShaped(strict, cfg, addresses, s);
    hide Coherent, NextTransaction, Completed, Timed;
    if !s.bus.inUse {
      GrantIsTimed(strict, cfg, addresses, s);
    } else if s.bus.endCycle <= s.cycle {
      CompleteKeepsCoherent(strict, cfg, addresses, s);
      GrantIsTimed(strict, cfg, addresses, Completed(cfg, s));
    }
  }

  lemma TickCacheIsTimed(strict: bool, cfg: Config, s: System, i: nat)
    requires cfg.Valid() && BusServes(cfg, s) && Timed(strict, cfg, s) && i < |s.caches|
    ensures Timed(strict, cfg, TickCache(cfg, s, i))
  {
    hide HandleRequest, CurrentJobLineTouched, Duration, CostOf;
  }

  lemma StepIsTimed(strict: bool, cfg: Config, addresses: set<nat>, s: System, e: Event)
    requires cfg.Valid() && TimingApplies(strict, cfg) && Coherent(strict, cfg, addresses, s) && Timed(strict, cfg, s)
    requires e.Valid(cfg)
    ensures Timed(strict, cfg, Apply(cfg, s, e))
  {
    hide GoodCache, Pairwise, OthersAgree, TickCache, BusTick, Duration, CostOf;
    match e
    case ClockTicks =>
    case CacheTicks(i) => TickCacheIsTimed(strict, cfg, s, i);
    case BusTicks => BusTickIsTimed(strict, cfg, addresses, s);
    case Enqueues(i, job) =>
  }

  lemma {:induction false} RunIsTimed(strict: bool, cfg: Config, addresses: set<nat>, es: seq<Event>)
    requires cfg.Valid() && TimingApplies(strict, cfg) && (strict ==> TraceOk(cfg, addresses)) && EventsFrom(cfg, addresses, es)
    ensures Timed(strict, cfg, Run(cfg, es))
  {
    hide Coherent, Apply, Timed;
    if |es| == 0 {
      assert Timed(strict, cfg, Init(cfg)) by { NothingToTime(strict, cfg); }
    } else {
      RunIsCoherent(strict, cfg, addresses, es[..|es| - 1]);
      RunIsTimed(strict, cfg, addresses, es[..|es| - 1]);
      StepIsTimed(strict, cfg, addresses, Run(cfg, es[..|es| - 1]), es[|es| - 1]);
    }
  }

  lemma NothingToTime(strict: bool, cfg: Config)
    requires cfg.Valid()
    ensures Timed(strict, cfg, Init(cfg))
  {
  }

  /** In every reachable state a transaction lasts one of the few possible times.  The end
      cycle, although decremented, never comes before the start, and it comes after it
      except for a MOESI upgrade that costs nothing. */
  lemma BusServiceTime(cfg: Config, es: seq<Event>)
    requires cfg.Valid() && ValidEvents(cfg, es) && TraceOk(cfg, AddressesOf(es)) && Run(cfg, es).bus.inUse
    ensures var s := Run(cfg, es);
            && Duration(cfg, s.bus.currentRequest.value.cycleCost, s.bus.endCycle - s.bus.startCycle)
            && s.bus.startCycle <= s.bus.endCycle
            && (s.bus.startCycle < s.bus.endCycle
                <==> !(cfg.protocol == MOESI && cfg.cacheHitCycleCost == 0 && s.bus.currentRequest.value.cycleCost == 0))
  {
    RunIsTimed(true, cfg, AddressesOf(es), es);
  }

  /** Without the tag assumption the requester's own estimate is still never too long. */
  lemma RequesterNeverOverestimates(cfg: Config, es: seq<Event>)
    requires cfg.Valid() && ValidEvents(cfg, es) && Run(cfg, es).bus.inUse
    ensures var s := Run(cfg, es);
            var c := s.caches[s.bus.currentCache];
            c.startServiceCycle == s.bus.startCycle && c.startServiceCycle + c.jobCycleCost <= s.bus.endCycle
  {
    RunIsTimed(cfg.protocol == MOESI, cfg, AddressesOf(es), es);
  }
}
