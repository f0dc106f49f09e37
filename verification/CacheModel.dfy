/** What each operation of one cache does, as functions on the cache's state. */
module CacheModel {
  import opened Constants
  import opened LineSets

  datatype Job = Job(rW: char, address: nat, threadId: nat)
  {
    predicate IsRead() { rW == 'R' }
    predicate IsWrite() { rW == 'W' }
  }

  datatype Command = BusRd | BusRdX

  datatype Request = Request(command: Command, lineSet: nat, lineTag: nat, cycleCost: nat, address: nat)

  datatype SnoopResult = SHARED | FLUSH_MODIFIED_TO_SHARED | FLUSH_MODIFIED_TO_INVALID | EXCLUSIVE | OWNED | MODIFIED | NONE

  datatype Stats = Stats(
    numHit: nat, numMiss: nat, numFlush: nat, numEvict: nat, numCacheShare: nat,
    numMainMemoryUses: nat, numExclusiveToModifiedTransitions: nat, numBusRequests: nat)

  const NO_STATS := Stats(0, 0, 0, 0, 0, 0, 0, 0)

  function One(b: bool): nat { if b then 1 else 0 }

  datatype CacheState = CacheState(
    sets: seq<LineSet>,
    pendingJobs: seq<Job>,
    currentJob: Option<Job>,
    busRequest: Option<Request>,
    haveBusRequest: bool,
    busy: bool,
    busRequestBeingServiced: bool,
    startServiceCycle: nat,
    jobCycleCost: nat)

  /** A cache together with the shared counters it may bump. */
  datatype Outcome = Outcome(cache: CacheState, stats: Stats)

  datatype SnoopOutcome = SnoopOutcome(cache: CacheState, stats: Stats, result: SnoopResult)

  /** One set per index, and a request only while there is a job behind it. */
  predicate Shaped(cfg: Config, c: CacheState) {
    && |c.sets| == cfg.NumSets()
    && (c.haveBusRequest ==> c.busRequest.Some? && c.currentJob.Some?)
    && (c.busRequest.Some? ==> c.busRequest.value.lineSet < cfg.NumSets())
    && (c.busRequestBeingServiced ==> c.haveBusRequest)
  }

  /** A cache about to serve the job it has just taken. */
  predicate Serving(cfg: Config, c: CacheState) {
    Shaped(cfg, c) && c.currentJob.Some? && !c.busRequestBeingServiced
  }

  /** Every request either hits now, for the hit cost, or goes to the bus. */
  predicate Decided(cfg: Config, c: CacheState, c': CacheState, cycle: nat) {
    && Shaped(cfg, c')
    && c'.busy && !c'.busRequestBeingServiced
    && c'.currentJob == c.currentJob && c'.pendingJobs == c.pendingJobs
    && (!c'.haveBusRequest ==> c'.startServiceCycle == cycle && c'.jobCycleCost == cfg.cacheHitCycleCost)
    && (c'.haveBusRequest ==> c'.startServiceCycle == c.startServiceCycle)
  }

  // ---------------------------------------------------------------------
  // Scans over every set for the current job's tag
  // ---------------------------------------------------------------------

  /** Index of the first set whose line for this tag is in state `st`; the number of sets when there is none. */
  function FirstInState(sets: seq<LineSet>, tag: nat, st: State): (i: nat)
    ensures i <= |sets|
    ensures forall k :: 0 <= k < i ==> !(HasLine(sets[k], tag) && StateIn(sets[k], tag) == st)
    ensures i < |sets| ==> HasLine(sets[i], tag) && StateIn(sets[i], tag) == st
  {
    if |sets| == 0 || (HasLine(sets[0], tag) && StateIn(sets[0], tag) == st) then 0
    else 1 + FirstInState(sets[1..], tag, st)
  }

  predicate TagInState(sets: seq<LineSet>, tag: nat, st: State) {
    FirstInState(sets, tag, st) < |sets|
  }

  /** The query stops at its first success and touches the tag in every set it visited. */
  function Scanned(sets: seq<LineSet>, tag: nat, st: State, cycle: nat): (r: seq<LineSet>)
    ensures |r| == |sets|
  {
    var stop := FirstInState(sets, tag, st);
    seq(|sets|, k requires 0 <= k < |sets| => if k <= stop then Touch(sets[k], tag, cycle) else sets[k])
  }

  function AssignAll(sets: seq<LineSet>, tag: nat, st: State, cycle: nat): (r: seq<LineSet>)
    ensures |r| == |sets|
  {
    seq(|sets|, k requires 0 <= k < |sets| => Assign(sets[k], tag, st, cycle))
  }

  function TouchAll(sets: seq<LineSet>, tag: nat, cycle: nat): (r: seq<LineSet>)
    ensures |r| == |sets|
  {
    seq(|sets|, k requires 0 <= k < |sets| => Touch(sets[k], tag, cycle))
  }

  predicate LineInState(cfg: Config, c: CacheState, st: State)
    requires cfg.Valid() && c.currentJob.Some?
  {
    TagInState(c.sets, TagOf(cfg, c.currentJob.value.address), st)
  }

  function Queried(cfg: Config, c: CacheState, st: State, cycle: nat): CacheState
    requires cfg.Valid() && c.currentJob.Some?
  {
    c.(sets := Scanned(c.sets, TagOf(cfg, c.currentJob.value.address), st, cycle))
  }

  function LineStateSet(cfg: Config, c: CacheState, st: State, cycle: nat): CacheState
    requires cfg.Valid() && c.currentJob.Some?
  {
    c.(sets := AssignAll(c.sets, TagOf(cfg, c.currentJob.value.address), st, cycle))
  }

  function CurrentJobLineTouched(cfg: Config, c: CacheState, cycle: nat): CacheState
    requires cfg.Valid()
  {
    if c.currentJob.None? then c
    else c.(sets := TouchAll(c.sets, TagOf(cfg, c.currentJob.value.address), cycle))
  }

  // ---------------------------------------------------------------------
  // Processor requests
  // ---------------------------------------------------------------------

  predicate DirtyEviction(cfg: Config, s: LineSet, tag: nat)
    requires cfg.Valid()
  {
    !HasLine(s, tag) && IsFull(s, cfg.numLinesInSet) && VictimIsModified(s, cfg.numLinesInSet)
  }

  function TotalMemoryCost(cfg: Config, s: LineSet, tag: nat): nat
    requires cfg.Valid()
  {
    if DirtyEviction(cfg, s, tag) then cfg.memoryResponseCycleCost * 2 else cfg.memoryResponseCycleCost
  }

  function Hit(cfg: Config, c: CacheState, stats: Stats, cycle: nat): (o: Outcome)
    requires cfg.Valid() && Serving(cfg, c)
    ensures Decided(cfg, c, o.cache, cycle)
  {
    Outcome(
      c.(startServiceCycle := cycle, jobCycleCost := cfg.cacheHitCycleCost, busy := true, haveBusRequest := false),
      stats.(numHit := stats.numHit + 1))
  }

  function ExclusiveHit(cfg: Config, c: CacheState, stats: Stats, cycle: nat): (o: Outcome)
    requires cfg.Valid() && Serving(cfg, c)
    ensures Decided(cfg, c, o.cache, cycle)
  {
    var o := Hit(cfg, c, stats, cycle);
    Outcome(
      LineStateSet(cfg, o.cache, Modified, cycle),
      o.stats.(numExclusiveToModifiedTransitions := o.stats.numExclusiveToModifiedTransitions + 1))
  }

  function Requesting(cfg: Config, c: CacheState, command: Command, cost: nat): CacheState
    requires cfg.Valid() && c.currentJob.Some?
  {
    var a := c.currentJob.value.address;
    c.(haveBusRequest := true, busy := true, jobCycleCost := cost,
       busRequest := Some(Request(command, SetOf(cfg, a), TagOf(cfg, a), cost, a)))
  }

  function WriteSharedInvalid(cfg: Config, c: CacheState, stats: Stats): (o: Outcome)
    requires cfg.Valid() && Serving(cfg, c)
    ensures o.cache.haveBusRequest && Decided(cfg, c, o.cache, 0)
  {
    var a := c.currentJob.value.address;
    var s := c.sets[SetOf(cfg, a)];
    var flushed := if DirtyEviction(cfg, s, TagOf(cfg, a)) then 1 else 0;
    Outcome(
      Requesting(cfg, c, BusRdX, TotalMemoryCost(cfg, s, TagOf(cfg, a))),
      stats.(numFlush := stats.numFlush + flushed, numMiss := stats.numMiss + 1))
  }

  function ReadMiss(cfg: Config, c: CacheState, stats: Stats): (o: Outcome)
    requires cfg.Valid() && Serving(cfg, c)
    ensures o.cache.haveBusRequest && Decided(cfg, c, o.cache, 0)
  {
    Outcome(Requesting(cfg, c, BusRd, cfg.memoryResponseCycleCost), stats.(numMiss := stats.numMiss + 1))
  }

  /** The owned line is marked modified now; its bus upgrade comes later. */
  function OwnedUpgrade(cfg: Config, c: CacheState, stats: Stats, cycle: nat): (o: Outcome)
    requires cfg.Valid() && Serving(cfg, c)
    ensures Decided(cfg, c, o.cache, cycle)
  {
    Outcome(
      LineStateSet(cfg, Requesting(cfg, c, BusRdX, cfg.cacheHitCycleCost), Modified, cycle),
      stats.(numHit := stats.numHit + 1))
  }

  function WriteMSI(cfg: Config, c: CacheState, stats: Stats, cycle: nat): (o: Outcome)
    requires cfg.Valid() && Serving(cfg, c)
    ensures Decided(cfg, c, o.cache, cycle)
  {
    var c1 := Queried(cfg, c, Modified, cycle);
    if LineInState(cfg, c, Modified) then Hit(cfg, c1, stats, cycle)
    else WriteSharedInvalid(cfg, c1, stats)
  }

  function WriteMESI(cfg: Config, c: CacheState, stats: Stats, cycle: nat): (o: Outcome)
    requires cfg.Valid() && Serving(cfg, c)
    ensures Decided(cfg, c, o.cache, cycle)
  {
    var c1 := Queried(cfg, c, Modified, cycle);
    if LineInState(cfg, c, Modified) then Hit(cfg, c1, stats, cycle)
    else
      var c2 := Queried(cfg, c1, Exclusive, cycle);
      if LineInState(cfg, c1, Exclusive) then ExclusiveHit(cfg, c2, stats, cycle)
      else WriteSharedInvalid(cfg, c2, stats)
  }

  /** The MOESI write once the line is known to be neither invalid nor shared:
      exclusive, modified, owned, or not there at all. */
  function WriteUnshared(cfg: Config, c2: CacheState, stats: Stats, cycle: nat): (o: Outcome)
    requires cfg.Valid() && Serving(cfg, c2)
    ensures Decided(cfg, c2, o.cache, cycle)
  {
    var c3 := Queried(cfg, c2, Exclusive, cycle);
    if LineInState(cfg, c2, Exclusive) then
      ExclusiveHit(cfg, Queried(cfg, c3, Exclusive, cycle), stats, cycle)
    else
      var c4 := Queried(cfg, c3, Modified, cycle);
      if LineInState(cfg, c3, Modified) then
        Hit(cfg, Queried(cfg, c4, Modified, cycle), stats, cycle)
      else
        var c5 := Queried(cfg, c4, Owned, cycle);
        if LineInState(cfg, c4, Owned) then OwnedUpgrade(cfg, c5, stats, cycle)
        else WriteSharedInvalid(cfg, c5, stats)
  }

  function WriteMOESI(cfg: Config, c: CacheState, stats: Stats, cycle: nat): (o: Outcome)
    requires cfg.Valid() && Serving(cfg, c)
    ensures Decided(cfg, c, o.cache, cycle)
  {
    var c1 := Queried(cfg, c, Invalid, cycle);
    if LineInState(cfg, c, Invalid) then WriteSharedInvalid(cfg, c1, stats)
    else
      var c2 := Queried(cfg, c1, Shared, cycle);
      if LineInState(cfg, c1, Shared) then WriteSharedInvalid(cfg, c2, stats)
      else WriteUnshared(cfg, c2, stats, cycle)
  }

  /** The four hit queries, in program order. */
  function Read(cfg: Config, c: CacheState, stats: Stats, cycle: nat): (o: Outcome)
    requires cfg.Valid() && Serving(cfg, c)
    ensures Decided(cfg, c, o.cache, cycle)
  {
    var c1 := Queried(cfg, c, Modified, cycle);
    if LineInState(cfg, c, Modified) then Hit(cfg, c1, stats, cycle)
    else
      var c2 := Queried(cfg, c1, Shared, cycle);
      if LineInState(cfg, c1, Shared) then Hit(cfg, c2, stats, cycle)
      else
        var c3 := Queried(cfg, c2, Exclusive, cycle);
        if LineInState(cfg, c2, Exclusive) then Hit(cfg, c3, stats, cycle)
        else
          var c4 := Queried(cfg, c3, Owned, cycle);
          if LineInState(cfg, c3, Owned) then Hit(cfg, c4, stats, cycle)
          else ReadMiss(cfg, c4, stats)
  }

  function Write(cfg: Config, c: CacheState, stats: Stats, cycle: nat): (o: Outcome)
    requires cfg.Valid() && Serving(cfg, c)
    ensures Decided(cfg, c, o.cache, cycle)
  {
    match cfg.protocol
    case MSI => WriteMSI(cfg, c, stats, cycle)
    case MESI => WriteMESI(cfg, c, stats, cycle)
    case MOESI => WriteMOESI(cfg, c, stats, cycle)
  }

  /** A job that is neither a read nor a write is dropped without further effect. */
  function HandleRequest(cfg: Config, c: CacheState, stats: Stats, cycle: nat): (o: Outcome)
    requires cfg.Valid() && Shaped(cfg, c) && !c.busRequestBeingServiced
    ensures Shaped(cfg, o.cache) && !o.cache.busRequestBeingServiced
    ensures c.currentJob.Some? ==> o.cache.currentJob.Some?
  {
    if c.busy || c.pendingJobs == [] then Outcome(c, stats)
    else
      var job := c.pendingJobs[0];
      var c1 := c.(currentJob := Some(job), pendingJobs := c.pendingJobs[1..]);
      if job.IsWrite() then Write(cfg, c1, stats, cycle)
      else if job.IsRead() then Read(cfg, c1, stats, cycle)
      else Outcome(c1, stats)
  }

  function Tick(cfg: Config, c: CacheState, stats: Stats, cycle: nat): (o: Outcome)
    requires cfg.Valid() && Shaped(cfg, c)
    ensures Shaped(cfg, o.cache) && o.cache.busRequestBeingServiced == c.busRequestBeingServiced
    ensures c.currentJob.Some? ==> o.cache.currentJob.Some?
  {
    if c.busRequestBeingServiced then Outcome(c, stats)
    else
      var c1 := if c.startServiceCycle + c.jobCycleCost <= cycle
                then CurrentJobLineTouched(cfg, c, cycle).(busy := false)
                else c;
      if !c1.busy && c1.pendingJobs != [] then HandleRequest(cfg, c1, stats, cycle) else Outcome(c1, stats)
  }

  // ---------------------------------------------------------------------
  // Snooping
  // ---------------------------------------------------------------------

  /** The state a snooping cache moves its line to. */
  function SnoopedState(p: Protocol, command: Command, st: State): State {
    match command
    case BusRd =>
      (match p
       case MSI => if st == Modified then Shared else st
       case MESI => if st == Modified || st == Exclusive then Shared else st
       case MOESI => if st == Modified then Owned else if st == Exclusive then Shared else st)
    case BusRdX =>
      (match p
       case MSI => if st == Shared || st == Modified then Invalid else st
       case MESI => if st == Shared || st == Exclusive || st == Modified then Invalid else st
       case MOESI => Invalid)
  }

  /** What a snooping cache answers. */
  function SnoopAnswer(p: Protocol, command: Command, st: State): SnoopResult {
    match p
    case MSI =>
      if st == Shared then SHARED
      else if st == Modified then (if command == BusRd then FLUSH_MODIFIED_TO_SHARED else FLUSH_MODIFIED_TO_INVALID)
      else NONE
    case MESI =>
      if st == Shared || st == Exclusive then SHARED
      else if st == Modified then (if command == BusRd then FLUSH_MODIFIED_TO_SHARED else FLUSH_MODIFIED_TO_INVALID)
      else NONE
    case MOESI =>
      if st == Owned then OWNED
      else if st == Modified then MODIFIED
      else if st == Exclusive then EXCLUSIVE
      else if st == Shared && command == BusRd then SHARED
      else NONE
  }

  function SnoopStats(p: Protocol, st: State, stats: Stats): Stats {
    if p == MOESI then
      (if st == Owned || st == Modified || st == Exclusive
       then stats.(numCacheShare := stats.numCacheShare + 1) else stats)
    else if st == Modified then stats.(numFlush := stats.numFlush + 1)
    else stats
  }

  /** The snooping cache afterwards; a line that is found is also touched. */
  function Snooped(cfg: Config, c: CacheState, r: Request, cycle: nat): (c': CacheState)
    requires Shaped(cfg, c) && r.lineSet < cfg.NumSets()
    ensures Shaped(cfg, c')
  {
    var s := c.sets[r.lineSet];
    var st := SnoopedState(cfg.protocol, r.command, StateIn(s, r.lineTag));
    c.(sets := c.sets[r.lineSet := Assign(s, r.lineTag, st, cycle)])
  }

  function Snoop(cfg: Config, c: CacheState, stats: Stats, r: Request, cycle: nat): (o: SnoopOutcome)
    requires Shaped(cfg, c) && r.lineSet < cfg.NumSets()
    ensures Shaped(cfg, o.cache)
  {
    var st := StateIn(c.sets[r.lineSet], r.lineTag);
    SnoopOutcome(
      Snooped(cfg, c, r, cycle),
      SnoopStats(cfg.protocol, st, stats),
      SnoopAnswer(cfg.protocol, r.command, st))
  }

  // ---------------------------------------------------------------------
  // Completion of a bus transaction
  // ---------------------------------------------------------------------

  predicate NeedToEvict(cfg: Config, s: LineSet, tag: nat) {
    IsFull(s, cfg.numLinesInSet) && !HasLine(s, tag)
  }

  /** What the request foresees and what the completion does are the same thing: the set is at
      capacity, every line of it is modified, and none has the tag. */
  lemma DirtyEvictionIs(cfg: Config, s: LineSet, tag: nat)
    requires cfg.Valid() && |s| <= cfg.numLinesInSet
    ensures DirtyEviction(cfg, s, tag) <==> DirtyFull(cfg.numLinesInSet, s, tag)
    ensures NeedToEvict(cfg, s, tag) <==> DirtyFull(cfg.numLinesInSet, s, tag)
  {
    var i := Find(s, tag);
    if i < |s| {
      assert s[i].tag == tag;
    }
    hide Find, Lru;
  }

  /** Make room if the set is full of modified lines, then install the tag if it is missing. */
  function Installed(cfg: Config, s: LineSet, job: Job): LineSet
    requires cfg.Valid()
  {
    var tag := TagOf(cfg, job.address);
    var s1 := if NeedToEvict(cfg, s, tag) then Evict(s) else s;
    if HasLine(s1, tag) then s1
    else AddLine(s1, Line(job.address, SetOf(cfg, job.address), tag, Invalid, 0), cfg.numLinesInSet)
  }

  function DoneState(p: Protocol, job: Job, isShared: bool, st: State): State {
    if job.IsWrite() then Modified
    else if job.IsRead() then (if p == MSI || isShared then Shared else Exclusive)
    else st
  }

  function DoneStats(p: Protocol, job: Job, isShared: bool, st: State, stats: Stats): Stats {
    if job.IsWrite() then
      (match p
       case MSI => stats.(numMainMemoryUses := stats.numMainMemoryUses + 1)
       case MESI => if isShared then stats.(numCacheShare := stats.numCacheShare + 1) else stats
       case MOESI => if !isShared && st != Owned then stats.(numMainMemoryUses := stats.numMainMemoryUses + 1) else stats)
    else if job.IsRead() then
      (match p
       case MSI => stats.(numMainMemoryUses := stats.numMainMemoryUses + 1)
       case MESI => if isShared then stats.(numCacheShare := stats.numCacheShare + 1)
                    else stats.(numMainMemoryUses := stats.numMainMemoryUses + 1)
       case MOESI => if isShared then stats else stats.(numMainMemoryUses := stats.numMainMemoryUses + 1))
    else stats
  }

  /** The set after completion: the job's line installed, touched, and in its final state. */
  function DoneSet(cfg: Config, s: LineSet, job: Job, isShared: bool, cycle: nat): LineSet
    requires cfg.Valid()
  {
    var u := Installed(cfg, s, job);
    var tag := TagOf(cfg, job.address);
    Assign(u, tag, DoneState(cfg.protocol, job, isShared, StateIn(u, tag)), cycle)
  }

  function BusJobDone(cfg: Config, c: CacheState, stats: Stats, isShared: bool, cycle: nat): (o: Outcome)
    requires cfg.Valid() && c.currentJob.Some? && Shaped(cfg, c)
    ensures Shaped(cfg, o.cache)
  {
    var job := c.currentJob.value;
    var k, tag := SetOf(cfg, job.address), TagOf(cfg, job.address);
    var evicted := if NeedToEvict(cfg, c.sets[k], tag) then 1 else 0;
    Outcome(
      c.(haveBusRequest := false, busy := false, busRequestBeingServiced := false,
         sets := c.sets[k := DoneSet(cfg, c.sets[k], job, isShared, cycle)]),
      DoneStats(cfg.protocol, job, isShared, StateIn(Installed(cfg, c.sets[k], job), tag),
                stats.(numEvict := stats.numEvict + evicted)))
  }
}
