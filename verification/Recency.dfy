/** Least-recently-used replacement: in every reachable state a line's timestamp is the time
    of the latest access that named it, and the victim is the line accessed longest ago. */
module Recency {
  import opened Constants
  import opened LineSets
  import opened CacheModel
  import opened SystemModel
  import opened Coherence
  import opened Safety
  import opened JobEffects

  /** What can happen to a set: a lookup, a lookup that also sets the state, or the
      completion of a job, which installs its line if need be. */
  datatype Access = Looked(tag: nat) | Changed(tag: nat, st: State) | Completes(job: Job, isShared: bool)

  datatype Entry = Entry(access: Access, cycle: nat)

  /** The tag an access names. */
  function Named(cfg: Config, a: Access): nat
    requires cfg.Valid()
  {
    match a
    case Looked(tag) => tag
    case Changed(tag, _) => tag
    case Completes(job, _) => TagOf(cfg, job.address)
  }

  function Done(cfg: Config, s: LineSet, e: Entry): LineSet
    requires cfg.Valid()
  {
    match e.access
    case Looked(tag) => Touch(s, tag, e.cycle)
    case Changed(tag, st) => Assign(s, tag, st, e.cycle)
    case Completes(job, isShared) => DoneSet(cfg, s, job, isShared, e.cycle)
  }

  /** The set after all the accesses of a log, starting from `s`. */
  function Replayed(cfg: Config, s: LineSet, log: seq<Entry>): LineSet
    requires cfg.Valid()
  {
    if |log| == 0 then s else Done(cfg, Replayed(cfg, s, log[..|log| - 1]), log[|log| - 1])
  }

  /** The time of the latest access naming `tag`; 0 when there is none. */
  function LastAccess(cfg: Config, log: seq<Entry>, tag: nat): nat
    requires cfg.Valid()
  {
    if |log| == 0 then 0
    else if Named(cfg, log[|log| - 1].access) == tag then log[|log| - 1].cycle
    else LastAccess(cfg, log[..|log| - 1], tag)
  }

  /** The timestamp of the tag's line. */
  function Stamp(s: LineSet, tag: nat): nat {
    if HasLine(s, tag) then s[Find(s, tag)].lastUsed else 0
  }

  // ---------------------------------------------------------------------
  // Timestamps under each access
  // ---------------------------------------------------------------------

  lemma StampAfterChange(s: LineSet, u: LineSet, tag: nat, cycle: nat, t: nat)
    requires HasLine(s, tag) ==> exists st :: u == s[Find(s, tag) := s[Find(s, tag)].(lastUsed := cycle, state := st)]
    requires !HasLine(s, tag) ==> u == s
    ensures HasLine(u, t) == HasLine(s, t) && |u| == |s|
    ensures Stamp(u, t) == if t == tag && HasLine(s, t) then cycle else Stamp(s, t)
    ensures DistinctTags(s) ==> DistinctTags(u)
  {
    assert SameLines(s, u);
    SameLinesSameFind(s, u, t);
    hide Find;
  }

  lemma StampAfterEvict(s: LineSet, t: nat)
    requires |s| > 0 && DistinctTags(s)
    ensures HasLine(Evict(s), t) ==> HasLine(s, t) && Stamp(Evict(s), t) == Stamp(s, t)
  {
    EvictDropsOneTag(s, t);
    EvictShifts(s);
    var r, e, i := Lru(s), Evict(s), Find(s, t);
    hide Evict, Lru, Find;
    if HasLine(e, t) {
      FindIsFirst(e, t, if i < r then i else i - 1);
    }
  }

  lemma StampAfterAppend(s: LineSet, line: Line, t: nat)
    requires DistinctTags(s) && !HasLine(s, line.tag)
    ensures HasLine(s + [line], t) <==> t == line.tag || HasLine(s, t)
    ensures t != line.tag ==> Stamp(s + [line], t) == Stamp(s, t)
  {
    AppendAddsOneTag(s, line, t);
    if HasLine(s, t) {
      FindIsFirst(s + [line], t, Find(s, t));
    }
  }

  lemma StampAfterInstall(cfg: Config, s: LineSet, job: Job, t: nat)
    requires cfg.Valid() && DistinctTags(s) && |s| <= cfg.numLinesInSet
    ensures var u := Installed(cfg, s, job);
            && DistinctTags(u) && |u| <= cfg.numLinesInSet
            && (HasLine(u, t) && t != TagOf(cfg, job.address) ==> HasLine(s, t) && Stamp(u, t) == Stamp(s, t))
  {
    InstalledIs(cfg, s, job);
    var tag, line := TagOf(cfg, job.address), Line(job.address, SetOf(cfg, job.address), TagOf(cfg, job.address), Invalid, 0);
    hide Installed, TagOf, SetOf, Stamp;
    if !HasLine(s, tag) {
      if |s| == cfg.numLinesInSet {
        EvictDropsOneTag(s, tag);
        StampAfterEvict(s, t);
        hide Evict, Lru;
        StampAfterAppend(Evict(s), line, t);
        AppendAddsOneTag(Evict(s), line, t);
      } else {
        StampAfterAppend(s, line, t);
        AppendAddsOneTag(s, line, t);
      }
    }
  }

  /** One access: the line it names, if there, gets its time; the other lines that stay keep theirs. */
  lemma StampAfterAccess(cfg: Config, s: LineSet, e: Entry, t: nat)
    requires cfg.Valid() && DistinctTags(s) && |s| <= cfg.numLinesInSet
    ensures var u := Done(cfg, s, e);
            && DistinctTags(u) && |u| <= cfg.numLinesInSet
            && (HasLine(u, t) ==> if t == Named(cfg, e.access) then Stamp(u, t) == e.cycle
                                  else HasLine(s, t) && Stamp(u, t) == Stamp(s, t))
  {
    var u := Done(cfg, s, e);
    match e.access
    case Looked(tag) =>
      if HasLine(s, tag) {
        var x := s[Find(s, tag)];
        assert x.(lastUsed := e.cycle, state := x.state) == x.(lastUsed := e.cycle);
        assert u == s[Find(s, tag) := x.(lastUsed := e.cycle, state := x.state)];
      }
      StampAfterChange(s, u, tag, e.cycle, t);
    case Changed(tag, st) => StampAfterChange(s, u, tag, e.cycle, t);
    case Completes(job, isShared) =>
      var tag, v := TagOf(cfg, job.address), Installed(cfg, s, job);
      StampAfterInstall(cfg, s, job, t);
      InstalledHasLine(cfg, s, job);
      var st := DoneState(cfg.protocol, job, isShared, StateIn(v, tag));
      assert u == v[Find(v, tag) := v[Find(v, tag)].(lastUsed := e.cycle, state := st)];
      hide Installed, TagOf, DoneSet, DoneState, Stamp, StateIn;
      StampAfterChange(v, u, tag, e.cycle, t);
  }

  /** Timestamps are the times of the latest accesses. */
  lemma {:induction false} StampIsLastAccess(cfg: Config, log: seq<Entry>, t: nat)
    requires cfg.Valid()
    ensures var u := Replayed(cfg, [], log);
            && DistinctTags(u) && |u| <= cfg.numLinesInSet
            && (HasLine(u, t) ==> Stamp(u, t) == LastAccess(cfg, log, t))
  {
    hide Done, Stamp, Named;
    if |log| > 0 {
      var n := |log| - 1;
      StampIsLastAccess(cfg, log[..n], t);
      StampAfterAccess(cfg, Replayed(cfg, [], log[..n]), log[n], t);
    }
  }

  // ---------------------------------------------------------------------
  // The accesses of a run
  // ---------------------------------------------------------------------

  /** The states a request looks for, in program order. */
  function Queries(p: Protocol, job: Job): seq<State> {
    if job.IsWrite() then
      match p
      case MSI => [Modified]
      case MESI => [Modified, Exclusive]
      case MOESI => [Invalid, Shared, Exclusive, Modified, Owned]
    else if job.IsRead() then [Modified, Shared, Exclusive, Owned]
    else []
  }

  /** The queries visit set `k`: each goes through the sets up to its first success, and the
      next one is made only if it had none. */
  predicate QueriesVisit(sets: seq<LineSet>, tag: nat, queries: seq<State>, k: nat) {
    |queries| > 0 &&
    (k <= FirstInState(sets, tag, queries[0])
     || (!TagInState(sets, tag, queries[0]) && QueriesVisit(sets, tag, queries[1..], k)))
  }

  /** A request looks its tag up in the sets its queries visit, and in all sets when it marks
      the tag's lines modified. */
  predicate RequestTouches(cfg: Config, sets: seq<LineSet>, job: Job, k: nat, tag: nat)
    requires cfg.Valid()
  {
    tag == TagOf(cfg, job.address)
    && (QueriesVisit(sets, tag, Queries(cfg.protocol, job), k) || ChoiceFor(cfg, sets, job).Marks())
  }

  /** A cache that waits for the bus does nothing.  Otherwise it looks its last job's tag up in
      every set while that job's time is over, and a free cache then takes the next request. */
  predicate TickTouches(cfg: Config, c: CacheState, cycle: nat, k: nat, tag: nat)
    requires cfg.Valid()
  {
    var over := c.startServiceCycle + c.jobCycleCost <= cycle;
    && !c.busRequestBeingServiced
    && (|| (over && c.currentJob.Some? && tag == TagOf(cfg, c.currentJob.value.address))
        || ((over || !c.busy) && |c.pendingJobs| > 0 && RequestTouches(cfg, c.sets, c.pendingJobs[0], k, tag)))
  }

  /** At a grant every cache but the requester looks the requested line up. */
  predicate GrantTouches(cfg: Config, s: System, i: nat, k: nat, tag: nat)
    requires CachesShaped(cfg, s)
  {
    var g := FirstRequester(s.caches);
    g < |s.caches| && i != g && k == s.caches[g].busRequest.value.lineSet && tag == s.caches[g].busRequest.value.lineTag
  }

  /** A completed transaction looks its job's line up, after installing it if need be. */
  predicate CompletionTouches(cfg: Config, s: System, i: nat, k: nat, tag: nat)
    requires cfg.Valid() && InTransaction(cfg, s)
  {
    var job := s.caches[s.bus.currentCache].currentJob.value;
    i == s.bus.currentCache && k == SetOf(cfg, job.address) && tag == TagOf(cfg, job.address)
  }

  /** Event `e` in state `s` accesses line `tag` of set `k` in cache `i`, if there is such a line. */
  predicate Touches(cfg: Config, s: System, e: Event, i: nat, k: nat, tag: nat)
    requires cfg.Valid() && SystemShaped(cfg, s) && e.Valid(cfg)
  {
    match e
    case ClockTicks => false
    case Enqueues(_, _) => false
    case CacheTicks(j) => i == j && TickTouches(cfg, s.caches[j], s.cycle, k, tag)
    case BusTicks =>
      if !s.bus.inUse then GrantTouches(cfg, s, i, k, tag)
      else s.bus.endCycle <= s.cycle
           && (CompletionTouches(cfg, s, i, k, tag) || GrantTouches(cfg, Completed(cfg, s), i, k, tag))
  }

  /** The cycle of the latest event of the run that accessed the line; 0 when there is none. */
  function LastTouch(cfg: Config, es: seq<Event>, i: nat, k: nat, tag: nat): nat
    requires cfg.Valid() && forall n :: 0 <= n < |es| ==> es[n].Valid(cfg)
  {
    if |es| == 0 then 0
    else
      var n := |es| - 1;
      if Touches(cfg, Run(cfg, es[..n]), es[n], i, k, tag) then Run(cfg, es[..n]).cycle
      else LastTouch(cfg, es[..n], i, k, tag)
  }

  // ---------------------------------------------------------------------
  // Timestamps under each event
  // ---------------------------------------------------------------------

  /** From `a` to `b` the line either was accessed at `cycle` or has kept its timestamp. */
  predicate Moves(a: LineSet, b: LineSet, tag: nat, touched: bool, cycle: nat) {
    HasLine(b, tag) ==> if touched then Stamp(b, tag) == cycle else HasLine(a, tag) && Stamp(b, tag) == Stamp(a, tag)
  }

  lemma MovesOn(a: LineSet, b: LineSet, c: LineSet, tag: nat, first: bool, second: bool, cycle: nat)
    requires Moves(a, b, tag, first, cycle) && Moves(b, c, tag, second, cycle)
    ensures Moves(a, c, tag, first || second, cycle)
  {
  }

  lemma TouchMoves(s: LineSet, tag: nat, cycle: nat, t: nat)
    ensures Moves(s, Touch(s, tag, cycle), t, t == tag, cycle)
  {
    var u := Touch(s, tag, cycle);
    if HasLine(s, tag) {
      var x := s[Find(s, tag)];
      assert u == s[Find(s, tag) := x.(lastUsed := cycle, state := x.state)];
    }
    StampAfterChange(s, u, tag, cycle, t);
    hide Find, Stamp;
  }

  lemma AssignMoves(s: LineSet, tag: nat, st: State, cycle: nat, t: nat)
    ensures Moves(s, Assign(s, tag, st, cycle), t, t == tag, cycle)
  {
    StampAfterChange(s, Assign(s, tag, st, cycle), tag, cycle, t);
    hide Find, Stamp;
  }

  /** One more query, in a cache whose states are still those of `c0`. */
  lemma QueryMoves(cfg: Config, c0: CacheState, c: CacheState, st: State, cycle: nat, k: nat, t: nat, touched: bool)
    requires cfg.Valid() && c.currentJob.Some? && c0.currentJob == c.currentJob && SameStates(c0.sets, c.sets)
    requires k < |c.sets| && Moves(c0.sets[k], c.sets[k], t, touched, cycle)
    ensures var tag, c' := TagOf(cfg, c.currentJob.value.address), Queried(cfg, c, st, cycle);
            && SameStates(c0.sets, c'.sets) && k < |c0.sets| == |c'.sets|
            && LineInState(cfg, c, st) == TagInState(c0.sets, tag, st)
            && Moves(c0.sets[k], c'.sets[k], t, touched || (t == tag && k <= FirstInState(c0.sets, tag, st)), cycle)
  {
    var tag, c' := TagOf(cfg, c.currentJob.value.address), Queried(cfg, c, st, cycle);
    assert |c0.sets| == |c.sets|;
    assert c'.sets[k] == if k <= FirstInState(c.sets, tag, st) then Touch(c.sets[k], tag, cycle) else c.sets[k];
    hide SameStates, Scanned, FirstInState, TagOf, Touch, Moves;
    QuerySees(cfg, c0, c, st, cycle);
    SameStatesSameScan(c0.sets, c.sets, tag, st);
    TouchMoves(c.sets[k], tag, cycle, t);
    MovesOn(c0.sets[k], c.sets[k], Touch(c.sets[k], tag, cycle), t, touched, t == tag, cycle);
  }

  /** Marking the tag's lines, once its every line has been looked up. */
  lemma MarkingMoves(cfg: Config, a: LineSet, c: CacheState, cycle: nat, k: nat, t: nat)
    requires cfg.Valid() && c.currentJob.Some? && k < |c.sets|
    requires var tag := TagOf(cfg, c.currentJob.value.address); Moves(a, c.sets[k], t, t == tag, cycle)
    ensures var tag := TagOf(cfg, c.currentJob.value.address);
            k < |LineStateSet(cfg, c, Modified, cycle).sets| && Moves(a, LineStateSet(cfg, c, Modified, cycle).sets[k], t, t == tag, cycle)
  {
    var tag := TagOf(cfg, c.currentJob.value.address);
    hide TagOf, Moves, Assign;
    AssignMoves(c.sets[k], tag, Modified, cycle, t);
    MovesOn(a, c.sets[k], Assign(c.sets[k], tag, Modified, cycle), t, t == tag, t == tag, cycle);
  }

  /** The queries after a failed one visit nothing new. */
  lemma FirstQueryDecides(sets: seq<LineSet>, tag: nat, queries: seq<State>, k: nat)
    requires k < |sets| && |queries| > 0
    ensures QueriesVisit(sets, tag, queries, k) == (k <= FirstInState(sets, tag, queries[0]))
  {
  }

  lemma StartMoves(s: LineSet, t: nat, cycle: nat)
    ensures Moves(s, s, t, false, cycle)
  {
  }

  /** The sets of a request's outcome: those of the cache it was decided on, possibly marked. */
  lemma OutcomeSets(cfg: Config, c: CacheState, stats: Stats, cycle: nat)
    requires cfg.Valid() && Serving(cfg, c)
    ensures Hit(cfg, c, stats, cycle).cache.sets == c.sets
    ensures WriteSharedInvalid(cfg, c, stats).cache.sets == c.sets && ReadMiss(cfg, c, stats).cache.sets == c.sets
    ensures ExclusiveHit(cfg, c, stats, cycle).cache.sets == LineStateSet(cfg, c, Modified, cycle).sets
    ensures OwnedUpgrade(cfg, c, stats, cycle).cache.sets == LineStateSet(cfg, c, Modified, cycle).sets
  {
  }

  lemma ReadMoves(cfg: Config, c: CacheState, stats: Stats, cycle: nat, k: nat, t: nat)
    requires cfg.Valid() && Serving(cfg, c) && k < |c.sets|
    ensures var r, tag := Read(cfg, c, stats, cycle).cache, TagOf(cfg, c.currentJob.value.address);
            |r.sets| == |c.sets| && Moves(c.sets[k], r.sets[k], t, t == tag && k <= FirstInState(c.sets, tag, Modified), cycle)
  {
    var tag := TagOf(cfg, c.currentJob.value.address);
    SelfSame(c.sets);
    StartMoves(c.sets[k], t, cycle);
    hide SameStates, Scanned, FirstInState, TagOf, Moves, Hit, ReadMiss, LineInState;
    var c1 := Queried(cfg, c, Modified, cycle);
    QueryMoves(cfg, c, c, Modified, cycle, k, t, false);
    OutcomeSets(cfg, c1, stats, cycle);
    if !LineInState(cfg, c, Modified) {
      var c2 := Queried(cfg, c1, Shared, cycle);
      QueryMoves(cfg, c, c1, Shared, cycle, k, t, t == tag);
      OutcomeSets(cfg, c2, stats, cycle);
      var c3 := Queried(cfg, c2, Exclusive, cycle);
      QueryMoves(cfg, c, c2, Exclusive, cycle, k, t, t == tag);
      OutcomeSets(cfg, c3, stats, cycle);
      var c4 := Queried(cfg, c3, Owned, cycle);
      QueryMoves(cfg, c, c3, Owned, cycle, k, t, t == tag);
      OutcomeSets(cfg, c4, stats, cycle);
    }
  }

  lemma WriteMSIMoves(cfg: Config, c: CacheState, stats: Stats, cycle: nat, k: nat, t: nat)
    requires cfg.Valid() && Serving(cfg, c) && k < |c.sets|
    ensures var r, tag := WriteMSI(cfg, c, stats, cycle).cache, TagOf(cfg, c.currentJob.value.address);
            |r.sets| == |c.sets| && Moves(c.sets[k], r.sets[k], t, t == tag && k <= FirstInState(c.sets, tag, Modified), cycle)
  {
    SelfSame(c.sets);
    StartMoves(c.sets[k], t, cycle);
    hide SameStates, Scanned, FirstInState, TagOf, Moves, Hit, WriteSharedInvalid, LineInState;
    QueryMoves(cfg, c, c, Modified, cycle, k, t, false);
    OutcomeSets(cfg, Queried(cfg, c, Modified, cycle), stats, cycle);
  }

  lemma WriteMESIMoves(cfg: Config, c: CacheState, stats: Stats, cycle: nat, k: nat, t: nat)
    requires cfg.Valid() && Serving(cfg, c) && k < |c.sets|
    ensures var r, tag := WriteMESI(cfg, c, stats, cycle).cache, TagOf(cfg, c.currentJob.value.address);
            |r.sets| == |c.sets| && Moves(c.sets[k], r.sets[k], t, t == tag && k <= FirstInState(c.sets, tag, Modified), cycle)
  {
    var tag := TagOf(cfg, c.currentJob.value.address);
    SelfSame(c.sets);
    StartMoves(c.sets[k], t, cycle);
    hide SameStates, Scanned, FirstInState, TagOf, Moves, Hit, ExclusiveHit, WriteSharedInvalid, LineInState, AssignAll;
    var c1 := Queried(cfg, c, Modified, cycle);
    QueryMoves(cfg, c, c, Modified, cycle, k, t, false);
    OutcomeSets(cfg, c1, stats, cycle);
    if !LineInState(cfg, c, Modified) {
      var c2 := Queried(cfg, c1, Exclusive, cycle);
      QueryMoves(cfg, c, c1, Exclusive, cycle, k, t, t == tag);
      OutcomeSets(cfg, c2, stats, cycle);
      MarkingMoves(cfg, c.sets[k], c2, cycle, k, t);
    }
  }

  lemma WriteUnsharedMoves(cfg: Config, c: CacheState, c2: CacheState, stats: Stats, cycle: nat, k: nat, t: nat)
    requires cfg.Valid() && Serving(cfg, c2) && c.currentJob == c2.currentJob && SameStates(c.sets, c2.sets) && k < |c2.sets|
    requires Moves(c.sets[k], c2.sets[k], t, t == TagOf(cfg, c.currentJob.value.address), cycle)
    ensures var r := WriteUnshared(cfg, c2, stats, cycle).cache;
            |r.sets| == |c2.sets| && Moves(c.sets[k], r.sets[k], t, t == TagOf(cfg, c.currentJob.value.address), cycle)
  {
    var tag := TagOf(cfg, c.currentJob.value.address);
    hide SameStates, Scanned, FirstInState, TagOf, Moves, Hit, ExclusiveHit, OwnedUpgrade, WriteSharedInvalid, LineInState, AssignAll;
    var c3 := Queried(cfg, c2, Exclusive, cycle);
    QueryMoves(cfg, c, c2, Exclusive, cycle, k, t, t == tag);
    if LineInState(cfg, c2, Exclusive) {
      var again := Queried(cfg, c3, Exclusive, cycle);
      QueryMoves(cfg, c, c3, Exclusive, cycle, k, t, t == tag);
      OutcomeSets(cfg, again, stats, cycle);
      MarkingMoves(cfg, c.sets[k], again, cycle, k, t);
    } else {
      var c4 := Queried(cfg, c3, Modified, cycle);
      QueryMoves(cfg, c, c3, Modified, cycle, k, t, t == tag);
      if LineInState(cfg, c3, Modified) {
        QueryMoves(cfg, c, c4, Modified, cycle, k, t, t == tag);
        OutcomeSets(cfg, Queried(cfg, c4, Modified, cycle), stats, cycle);
      } else {
        var c5 := Queried(cfg, c4, Owned, cycle);
        QueryMoves(cfg, c, c4, Owned, cycle, k, t, t == tag);
        OutcomeSets(cfg, c5, stats, cycle);
        MarkingMoves(cfg, c.sets[k], c5, cycle, k, t);
      }
    }
  }

  lemma WriteMOESIMoves(cfg: Config, c: CacheState, stats: Stats, cycle: nat, k: nat, t: nat)
    requires cfg.Valid() && Serving(cfg, c) && k < |c.sets|
    ensures var r, tag := WriteMOESI(cfg, c, stats, cycle).cache, TagOf(cfg, c.currentJob.value.address);
            |r.sets| == |c.sets| && Moves(c.sets[k], r.sets[k], t, t == tag && k <= FirstInState(c.sets, tag, Invalid), cycle)
  {
    var tag := TagOf(cfg, c.currentJob.value.address);
    SelfSame(c.sets);
    StartMoves(c.sets[k], t, cycle);
    hide SameStates, Scanned, FirstInState, TagOf, Moves, WriteUnshared, WriteSharedInvalid, LineInState;
    var c1 := Queried(cfg, c, Invalid, cycle);
    QueryMoves(cfg, c, c, Invalid, cycle, k, t, false);
    OutcomeSets(cfg, c1, stats, cycle);
    if !LineInState(cfg, c, Invalid) {
      var c2 := Queried(cfg, c1, Shared, cycle);
      QueryMoves(cfg, c, c1, Shared, cycle, k, t, t == tag);
      OutcomeSets(cfg, c2, stats, cycle);
      WriteUnsharedMoves(cfg, c, c2, stats, cycle, k, t);
    }
  }

  /** Marking happens only after the first query has failed, and so has visited every set. */
  lemma MarkingVisitsAll(cfg: Config, sets: seq<LineSet>, job: Job, k: nat)
    requires cfg.Valid() && k < |sets| && ChoiceFor(cfg, sets, job).Marks()
    ensures QueriesVisit(sets, TagOf(cfg, job.address), Queries(cfg.protocol, job), k)
  {
    FirstQueryDecides(sets, TagOf(cfg, job.address), Queries(cfg.protocol, job), k);
    hide FirstInState, TagOf, QueriesVisit;
  }

  lemma RequestTouchesIs(cfg: Config, sets: seq<LineSet>, job: Job, k: nat, t: nat)
    requires cfg.Valid() && k < |sets| && (job.IsRead() || job.IsWrite())
    ensures var tag := TagOf(cfg, job.address);
            RequestTouches(cfg, sets, job, k, t) <==>
            t == tag && k <= FirstInState(sets, tag, if job.IsWrite() && cfg.protocol == MOESI then Invalid else Modified)
  {
    FirstQueryDecides(sets, TagOf(cfg, job.address), Queries(cfg.protocol, job), k);
    if ChoiceFor(cfg, sets, job).Marks() {
      MarkingVisitsAll(cfg, sets, job, k);
    }
    hide FirstInState, TagOf, QueriesVisit, ChoiceFor;
  }

  lemma WriteMoves(cfg: Config, c: CacheState, stats: Stats, cycle: nat, k: nat, t: nat)
    requires cfg.Valid() && Serving(cfg, c) && k < |c.sets|
    ensures var r, tag := Write(cfg, c, stats, cycle).cache, TagOf(cfg, c.currentJob.value.address);
            && |r.sets| == |c.sets|
            && Moves(c.sets[k], r.sets[k], t,
                     t == tag && k <= FirstInState(c.sets, tag, if cfg.protocol == MOESI then Invalid else Modified), cycle)
  {
    hide FirstInState, TagOf, Moves, WriteMSI, WriteMESI, WriteMOESI;
    match cfg.protocol
    case MSI => WriteMSIMoves(cfg, c, stats, cycle, k, t);
    case MESI => WriteMESIMoves(cfg, c, stats, cycle, k, t);
    case MOESI => WriteMOESIMoves(cfg, c, stats, cycle, k, t);
  }

  lemma RequestMoves(cfg: Config, c: CacheState, stats: Stats, cycle: nat, k: nat, t: nat)
    requires cfg.Valid() && Shaped(cfg, c) && !c.busRequestBeingServiced && k < |c.sets|
    ensures var r := HandleRequest(cfg, c, stats, cycle).cache;
            && |r.sets| == |c.sets|
            && Moves(c.sets[k], r.sets[k], t, !c.busy && |c.pendingJobs| > 0 && RequestTouches(cfg, c.sets, c.pendingJobs[0], k, t), cycle)
  {
    StartMoves(c.sets[k], t, cycle);
    hide Moves, Write, Read, RequestTouches, FirstInState, TagOf;
    if !c.busy && |c.pendingJobs| > 0 {
      var job := c.pendingJobs[0];
      var c1 := c.(currentJob := Some(job), pendingJobs := c.pendingJobs[1..]);
      if job.IsWrite() {
        RequestTouchesIs(cfg, c.sets, job, k, t);
        WriteMoves(cfg, c1, stats, cycle, k, t);
      } else if job.IsRead() {
        RequestTouchesIs(cfg, c.sets, job, k, t);
        ReadMoves(cfg, c1, stats, cycle, k, t);
      } else {
        OtherJobsTouchNothing(cfg, c.sets, job, k, t);
      }
    }
  }

  lemma OtherJobsTouchNothing(cfg: Config, sets: seq<LineSet>, job: Job, k: nat, t: nat)
    requires cfg.Valid() && !job.IsRead() && !job.IsWrite()
    ensures !RequestTouches(cfg, sets, job, k, t)
  {
  }

  lemma RefreshMoves(cfg: Config, c: CacheState, cycle: nat, k: nat, t: nat)
    requires cfg.Valid() && k < |c.sets|
    ensures var r := CurrentJobLineTouched(cfg, c, cycle);
            && SameStates(c.sets, r.sets) && |r.sets| == |c.sets|
            && Moves(c.sets[k], r.sets[k], t, c.currentJob.Some? && t == TagOf(cfg, c.currentJob.value.address), cycle)
  {
    SelfSame(c.sets);
    StartMoves(c.sets[k], t, cycle);
    if c.currentJob.Some? {
      var tag := TagOf(cfg, c.currentJob.value.address);
      TouchMoves(c.sets[k], tag, cycle, t);
      TouchAllKeepsStates(c.sets, tag, cycle);
    }
  }

  lemma SameRequestTouches(cfg: Config, a: seq<LineSet>, b: seq<LineSet>, job: Job, k: nat, t: nat)
    requires cfg.Valid() && SameStates(a, b) && k < |a|
    ensures RequestTouches(cfg, a, job, k, t) == RequestTouches(cfg, b, job, k, t)
  {
    var tag := TagOf(cfg, job.address);
    assert |a| == |b|;
    SameStatesSameScan(a, b, tag, Modified);
    SameStatesSameScan(a, b, tag, Invalid);
    hide SameStates, RequestTouches, FirstInState, TagOf;
    if job.IsRead() || job.IsWrite() {
      RequestTouchesIs(cfg, a, job, k, t);
      RequestTouchesIs(cfg, b, job, k, t);
    } else {
      OtherJobsTouchNothing(cfg, a, job, k, t);
      OtherJobsTouchNothing(cfg, b, job, k, t);
    }
  }

  lemma TickMoves(cfg: Config, c: CacheState, stats: Stats, cycle: nat, k: nat, t: nat)
    requires cfg.Valid() && Shaped(cfg, c) && k < |c.sets|
    ensures var r := Tick(cfg, c, stats, cycle).cache;
            |r.sets| == |c.sets| && Moves(c.sets[k], r.sets[k], t, TickTouches(cfg, c, cycle, k, t), cycle)
  {
    StartMoves(c.sets[k], t, cycle);
    TouchKeepsFlags(cfg, c, cycle);
    RefreshMoves(cfg, c, cycle, k, t);
    hide Moves, HandleRequest, CurrentJobLineTouched, RequestTouches, TagOf, SameStates;
    if !c.busRequestBeingServiced {
      if c.startServiceCycle + c.jobCycleCost <= cycle {
        var c1 := CurrentJobLineTouched(cfg, c, cycle).(busy := false);
        RequestMoves(cfg, c1, stats, cycle, k, t);
        var first := c.currentJob.Some? && t == TagOf(cfg, c.currentJob.value.address);
        var second := |c1.pendingJobs| > 0 && RequestTouches(cfg, c1.sets, c1.pendingJobs[0], k, t);
        if |c.pendingJobs| > 0 {
          SameRequestTouches(cfg, c.sets, c1.sets, c.pendingJobs[0], k, t);
        }
        MovesOn(c.sets[k], c1.sets[k], HandleRequest(cfg, c1, stats, cycle).cache.sets[k], t, first, second, cycle);
      } else {
        RequestMoves(cfg, c, stats, cycle, k, t);
      }
    }
  }

  lemma SnoopMoves(cfg: Config, c: CacheState, r: Request, cycle: nat, k: nat, t: nat)
    requires cfg.Valid() && Shaped(cfg, c) && r.lineSet < cfg.NumSets() && k < |c.sets|
    ensures |Snooped(cfg, c, r, cycle).sets| == |c.sets|
    ensures Moves(c.sets[k], Snooped(cfg, c, r, cycle).sets[k], t, k == r.lineSet && t == r.lineTag, cycle)
  {
    var st := SnoopedState(cfg.protocol, r.command, StateIn(c.sets[r.lineSet], r.lineTag));
    StartMoves(c.sets[k], t, cycle);
    AssignMoves(c.sets[r.lineSet], r.lineTag, st, cycle, t);
    hide Moves, SnoopedState, StateIn, Assign;
  }

  lemma CompletionMoves(cfg: Config, c: CacheState, stats: Stats, isShared: bool, cycle: nat, k: nat, t: nat)
    requires cfg.Valid() && c.currentJob.Some? && Shaped(cfg, c) && k < |c.sets|
    requires DistinctTags(c.sets[k]) && |c.sets[k]| <= cfg.numLinesInSet
    ensures var job, r := c.currentJob.value, BusJobDone(cfg, c, stats, isShared, cycle).cache;
            && |r.sets| == |c.sets|
            && Moves(c.sets[k], r.sets[k], t, k == SetOf(cfg, job.address) && t == TagOf(cfg, job.address), cycle)
  {
    var job := c.currentJob.value;
    StartMoves(c.sets[k], t, cycle);
    StampAfterAccess(cfg, c.sets[k], Entry(Completes(job, isShared), cycle), t);
    hide DoneSet, DoneStats, SetOf, NeedToEvict, TagOf, Installed, Stamp, HasLine;
  }

  // ---------------------------------------------------------------------
  // The whole machine
  // ---------------------------------------------------------------------

  /** Cache `i` of a system between two states. */
  ghost predicate LineMoves(cfg: Config, a: System, b: System, i: nat, k: nat, t: nat, touched: bool) {
    && i < |a.caches| == |b.caches| && b.cycle == a.cycle
    && k < |a.caches[i].sets| == |b.caches[i].sets|
    && Moves(a.caches[i].sets[k], b.caches[i].sets[k], t, touched, a.cycle)
  }

  lemma LineMovesOn(cfg: Config, a: System, b: System, c: System, i: nat, k: nat, t: nat, first: bool, second: bool)
    requires LineMoves(cfg, a, b, i, k, t, first) && LineMoves(cfg, b, c, i, k, t, second)
    ensures LineMoves(cfg, a, c, i, k, t, first || second)
  {
    hide Moves;
    MovesOn(a.caches[i].sets[k], b.caches[i].sets[k], c.caches[i].sets[k], t, first, second, a.cycle);
  }

  /** One cache after a grant. */
  lemma GrantedCache(cfg: Config, s: System, g: nat, i: nat)
    requires cfg.Valid() && CachesShaped(cfg, s) && i < |s.caches| && g < |s.caches| && FirstRequester(s.caches) == g
    requires SnoopedUpTo(cfg, Granted(cfg, s, g), Broadcast(cfg, Granted(cfg, s, g), |s.caches|).sys, |s.caches|)
    ensures var e := NextTransaction(cfg, s);
            && |e.caches| == |s.caches| && e.cycle == s.cycle
            && e.caches[i].sets == if i == g then s.caches[i].sets else Snooped(cfg, s.caches[i], s.caches[g].busRequest.value, s.cycle).sets
  {
    hide Snooped, AnswerOf, Shares, FirstRequester, Broadcast, Shaped;
  }

  lemma GrantMoves(cfg: Config, s: System, i: nat, k: nat, t: nat)
    requires cfg.Valid() && CachesShaped(cfg, s) && i < |s.caches| && k < cfg.NumSets()
    ensures LineMoves(cfg, s, NextTransaction(cfg, s), i, k, t, GrantTouches(cfg, s, i, k, t))
  {
    hide Moves, Snooped, AnswerOf, Shares, FirstRequester, Broadcast;
    var g := FirstRequester(s.caches);
    StartMoves(s.caches[i].sets[k], t, s.cycle);
    if g < |s.caches| {
      assert Shaped(cfg, s.caches[g]) && Shaped(cfg, s.caches[i]);
      BroadcastEffect(cfg, Granted(cfg, s, g), |s.caches|);
      SnoopMoves(cfg, s.caches[i], s.caches[g].busRequest.value, s.cycle, k, t);
      GrantedCache(cfg, s, g, i);
    }
  }

  lemma CompletedMoves(cfg: Config, addresses: set<nat>, s: System, i: nat, k: nat, t: nat)
    requires cfg.Valid() && Coherent(false, cfg, addresses, s) && s.bus.inUse && i < |s.caches| && k < cfg.NumSets()
    ensures LineMoves(cfg, s, Completed(cfg, s), i, k, t, CompletionTouches(cfg, s, i, k, t))
  {
    var cc := s.bus.currentCache;
    StartMoves(s.caches[i].sets[k], t, s.cycle);
    assert GoodCache(cfg, addresses, s.caches[cc]) && LinesFrom(cfg, addresses, k, s.caches[cc].sets[k]);
    CompletionMoves(cfg, s.caches[cc], s.stats, s.bus.isShared, s.cycle, k, t);
    hide Moves, BusJobDone, LinesFrom, GoodCache, SetOf, TagOf;
  }

  lemma BusTickMoves(cfg: Config, addresses: set<nat>, s: System, i: nat, k: nat, t: nat)
    requires cfg.Valid() && Coherent(false, cfg, addresses, s) && i < |s.caches| && k < cfg.NumSets()
    ensures LineMoves(cfg, s, BusTick(cfg, s), i, k, t, Touches(cfg, s, BusTicks, i, k, t))
  {
    assert SystemShaped(cfg, s) by { CoherentIsShaped(false, cfg, addresses, s); }
    StartMoves(s.caches[i].sets[k], t, s.cycle);
    assert Shaped(cfg, s.caches[i]);
    hide Coherent, NextTransaction, Completed, Moves, GrantTouches, CompletionTouches;
    if !s.bus.inUse {
      GrantMoves(cfg, s, i, k, t);
    } else if s.bus.endCycle <= s.cycle {
      var c := Completed(cfg, s);
      CompletedMoves(cfg, addresses, s, i, k, t);
      GrantMoves(cfg, c, i, k, t);
      LineMovesOn(cfg, s, c, NextTransaction(cfg, c), i, k, t, CompletionTouches(cfg, s, i, k, t), GrantTouches(cfg, c, i, k, t));
    }
  }

  /** One event: the lines it accesses get the current cycle as timestamp, the others that
      stay keep theirs. */
  lemma EventMoves(cfg: Config, addresses: set<nat>, s: System, e: Event, i: nat, k: nat, t: nat)
    requires cfg.Valid() && Coherent(false, cfg, addresses, s) && e.Valid(cfg) && i < |s.caches| && k < cfg.NumSets()
    ensures var s' := Apply(cfg, s, e);
            && i < |s'.caches| && k < |s.caches[i].sets| == |s'.caches[i].sets| && s.cycle <= s'.cycle
            && Moves(s.caches[i].sets[k], s'.caches[i].sets[k], t, Touches(cfg, s, e, i, k, t), s.cycle)
  {
    assert SystemShaped(cfg, s) by { CoherentIsShaped(false, cfg, addresses, s); }
    assert Shaped(cfg, s.caches[i]);
    StartMoves(s.caches[i].sets[k], t, s.cycle);
    hide Coherent, Moves, BusTick, Tick, TickTouches, GrantTouches, CompletionTouches;
    match e
    case ClockTicks =>
    case CacheTicks(j) => TickMoves(cfg, s.caches[i], s.stats, s.cycle, k, t);
    case BusTicks => BusTickMoves(cfg, addresses, s, i, k, t);
    case Enqueues(j, job) =>
  }

  // ---------------------------------------------------------------------
  // Every run
  // ---------------------------------------------------------------------

  lemma LastTouchStep(cfg: Config, es: seq<Event>, i: nat, k: nat, t: nat)
    requires cfg.Valid() && ValidEvents(cfg, es) && |es| > 0
    ensures var n := |es| - 1;
            var s := Run(cfg, es[..n]);
            && Run(cfg, es) == Apply(cfg, s, es[n])
            && LastTouch(cfg, es, i, k, t) == if Touches(cfg, s, es[n], i, k, t) then s.cycle else LastTouch(cfg, es[..n], i, k, t)
  {
    hide Touches, Apply;
  }

  /** In every reachable state a line's timestamp is the cycle of the latest event that accessed it. */
  lemma {:induction false} StampIsLastTouch(cfg: Config, es: seq<Event>, i: nat, k: nat, t: nat)
    requires cfg.Valid() && ValidEvents(cfg, es) && i < cfg.numProcessors && k < cfg.NumSets()
    ensures var s := Run(cfg, es);
            && LastTouch(cfg, es, i, k, t) <= s.cycle
            && (HasLine(s.caches[i].sets[k], t) ==> Stamp(s.caches[i].sets[k], t) == LastTouch(cfg, es, i, k, t))
  {
    if |es| == 0 {
    } else {
      var n := |es| - 1;
      var addresses := AddressesOf(es[..n]);
      hide Run, LastTouch, Touches, Apply, Coherent, HasLine, Stamp, AddressesOf;
      StampIsLastTouch(cfg, es[..n], i, k, t);
      RunIsGood(cfg, es[..n]);
      EventMoves(cfg, addresses, Run(cfg, es[..n]), es[n], i, k, t);
      LastTouchStep(cfg, es, i, k, t);
    }
  }

  lemma RunIsGood(cfg: Config, es: seq<Event>)
    requires cfg.Valid() && ValidEvents(cfg, es)
    ensures Coherent(false, cfg, AddressesOf(es), Run(cfg, es))
  {
    hide Coherent, Run;
    RunIsCoherent(false, cfg, AddressesOf(es), es);
  }

  /** The line found under a tag has that tag's stamp. */
  lemma StampOfLine(s: LineSet, n: nat)
    requires DistinctTags(s) && n < |s|
    ensures HasLine(s, s[n].tag) && Stamp(s, s[n].tag) == s[n].lastUsed
  {
    FindIsFirst(s, s[n].tag, n);
  }

  /** In every reachable state each line's timestamp is the cycle of its latest access in the
      run, and the line that an eviction selects is the first of those accessed longest ago. */
  lemma VictimIsLeastRecentlyAccessed(cfg: Config, es: seq<Event>, i: nat, k: nat)
    requires cfg.Valid() && ValidEvents(cfg, es) && i < cfg.numProcessors && k < cfg.NumSets()
    ensures var now, s := Run(cfg, es).cycle, Run(cfg, es).caches[i].sets[k];
            && (forall n :: 0 <= n < |s| ==> s[n].lastUsed == LastTouch(cfg, es, i, k, s[n].tag) <= now)
            && (|s| > 0 ==>
                  var v := Lru(s);
                  && (forall n :: 0 <= n < |s| ==> LastTouch(cfg, es, i, k, s[v].tag) <= LastTouch(cfg, es, i, k, s[n].tag))
                  && (forall n :: 0 <= n < v ==> LastTouch(cfg, es, i, k, s[v].tag) < LastTouch(cfg, es, i, k, s[n].tag)))
  {
    var now, s := Run(cfg, es).cycle, Run(cfg, es).caches[i].sets[k];
    SetsAreWellFormed(cfg, es, i, k);
    hide Run, LastTouch, Stamp;
    forall n | 0 <= n < |s|
      ensures s[n].lastUsed == LastTouch(cfg, es, i, k, s[n].tag) <= now
    {
      StampIsLastTouch(cfg, es, i, k, s[n].tag);
      StampOfLine(s, n);
    }
  }
}
