/** When MESI simulates MSI although sets overflow.  A store that MESI keeps to itself makes no
    other cache look its line up, so with two caches and two lines a set the protocols can
    come to replace different lines. */
module Overflow {
  import opened Constants
  import opened LineSets
  import opened CacheModel
  import opened SystemModel
  import opened Coherence
  import opened Safety
  import opened ServiceTime
  import opened JobRunner
  import opened CycleLoop
  import opened JobEffects
  import opened Counts
  import opened Simulation
  import opened Exactness
  import opened MoesiExactness
  import opened Recency
  import opened Replacement

  // ---------------------------------------------------------------------
  // Caches that hold one set's lines, oldest first
  // ---------------------------------------------------------------------

  predicate Distinct(q: seq<nat>) {
    forall a, b :: 0 <= a < b < |q| ==> q[a] != q[b]
  }

  /** The cache holds exactly the lines `q` of set `k0`, from the one accessed longest ago to
      the latest; only the last can belong to the cache's last job. */
  ghost predicate QueueIs(cfg: Config, c: CacheState, k0: nat, q: seq<nat>, now: nat)
    requires cfg.Valid()
  {
    && |c.sets| == cfg.NumSets() && k0 < |c.sets| && Distinct(q)
    && (forall k, t {:trigger Has(c, k, t)} :: 0 <= k < |c.sets| && 0 <= t ==> (Has(c, k, t) <==> k == k0 && t in q))
    && (forall a, b {:trigger q[a], q[b]} :: 0 <= a < b < |q| ==> StampAt(c, k0, q[a]) < StampAt(c, k0, q[b]))
    && (forall a {:trigger q[a]} :: 0 <= a < |q| ==> StampAt(c, k0, q[a]) <= now)
    && (forall a {:trigger q[a]} :: 0 <= a < |q| && IsCurrent(cfg, c, q[a]) ==> a == |q| - 1)
  }

  lemma {:induction false} SetOfSeq(q: seq<nat>) returns (tags: set<nat>)
    requires Distinct(q)
    ensures forall t: nat :: t in tags <==> t in q
    ensures |tags| == |q|
  {
    tags := {};
    if |q| > 0 {
      var n := |q| - 1;
      var fewer := SetOfSeq(q[..n]);
      assert q == q[..n] + [q[n]];
      assert forall a :: 0 <= a < n ==> q[..n][a] == q[a];
      tags := fewer + {q[n]};
    }
  }

  lemma QueueIsPast(cfg: Config, c: CacheState, k0: nat, q: seq<nat>, now: nat)
    requires cfg.Valid() && QueueIs(cfg, c, k0, q, now)
    ensures NoFuture(cfg, c, now)
  {
    hide StampAt, Has, IsCurrent;
    forall k, t | 0 <= k < |c.sets| && 0 <= t && Has(c, k, t)
      ensures StampAt(c, k, t) <= now
    {
      var a :| 0 <= a < |q| && q[a] == t;
    }
  }

  /** A queue shorter than the set leaves room, and a queue of all ways does not. */
  lemma QueueRoom(cfg: Config, addresses: set<nat>, s: System, job: Job, q: seq<nat>)
    requires cfg.Valid() && Ready(false, cfg, addresses, s) && CachesShaped(cfg, s) && job.threadId < |s.caches|
    requires QueueIs(cfg, s.caches[job.threadId], SetOf(cfg, job.address), q, s.cycle) && TagOf(cfg, job.address) !in q && |q| <= cfg.numLinesInSet
    ensures HasRoom(cfg, s, job) <==> |q| < cfg.numLinesInSet
  {
    var tags := SetOfSeq(q);
    var k := SetOf(cfg, job.address);
    assert forall t: nat :: Has(s.caches[job.threadId], k, t) <==> t in q;
    hide QueueIs, Has, SetOf, TagOf, Ready, Shaped, HasRoom;
    if |q| < cfg.numLinesInSet {
      FewTagsHaveRoom(cfg, addresses, s, job, tags);
    } else {
      FullSetHasNoRoom(cfg, s, job, tags);
    }
  }

  /** The oldest line of a queue of at least two. */
  lemma FrontIsOldest(cfg: Config, c: CacheState, k0: nat, q: seq<nat>, now: nat, v: nat)
    requires cfg.Valid() && QueueIs(cfg, c, k0, q, now) && 2 <= |q| && Oldest(cfg, c, k0, v)
    ensures v == q[0]
  {
    assert v in q && Has(c, k0, q[0]);
    var a :| 0 <= a < |q| && q[a] == v;
    hide StampAt, Has, IsCurrent;
    assert IsCurrent(cfg, c, q[0]) ==> 0 == |q| - 1;
    assert StampAt(c, k0, q[0]) <= StampAt(c, k0, q[a]);
  }

  /** How many lines a queue loses at the front when one is added. */
  function Lost(cfg: Config, q: seq<nat>): nat {
    if |q| == cfg.numLinesInSet && |q| > 0 then 1 else 0
  }

  function Pushed(cfg: Config, q: seq<nat>, tag: nat): seq<nat> {
    q[Lost(cfg, q)..] + [tag]
  }

  lemma QueueMisses(cfg: Config, s: System, job: Job, q: seq<nat>)
    requires cfg.Valid() && CachesShaped(cfg, s) && job.threadId < |s.caches| && IsAccess(job)
    requires QueueIs(cfg, s.caches[job.threadId], SetOf(cfg, job.address), q, s.cycle) && TagOf(cfg, job.address) !in q
    ensures ChoiceFor(cfg, s.caches[job.threadId].sets, job) == OnBus
  {
    hide Has, SetOf, TagOf, Shaped, ChoiceFor, StampAt;
    AbsentMisses(cfg, s, job);
  }

  /** What is evicted: the front of a full queue. */
  lemma QueueVictim(cfg: Config, addresses: set<nat>, s: System, job: Job, q: seq<nat>)
    requires cfg.Valid() && cfg.protocol != MOESI && Ready(false, cfg, addresses, s) && CachesShaped(cfg, s) && job.threadId < |s.caches|
    requires QueueIs(cfg, s.caches[job.threadId], SetOf(cfg, job.address), q, s.cycle) && TagOf(cfg, job.address) !in q
    requires IsAccess(job) && |q| <= cfg.numLinesInSet && 2 <= cfg.numLinesInSet
    ensures Quiescent(cfg, s)
    ensures VictimOf(cfg, s, job) == if |q| == cfg.numLinesInSet then Some(q[0]) else None
  {
    assert Quiescent(cfg, s);
    hide *;
    QueueMisses(cfg, s, job, q);
    QueueRoom(cfg, addresses, s, job, q);
    VictimMeans(cfg, addresses, s, job);
    if |q| == cfg.numLinesInSet {
      QueueIsPast(cfg, s.caches[job.threadId], SetOf(cfg, job.address), q, s.cycle);
      VictimIsOldest(cfg, addresses, s, job, VictimOf(cfg, s, job).value);
      FrontIsOldest(cfg, s.caches[job.threadId], SetOf(cfg, job.address), q, s.cycle, VictimOf(cfg, s, job).value);
    }
  }

  lemma PushedContains(cfg: Config, q: seq<nat>, tag: nat, t: nat)
    requires Distinct(q) && tag !in q
    ensures Distinct(Pushed(cfg, q, tag))
    ensures t in Pushed(cfg, q, tag) <==> t == tag || (t in q && (Lost(cfg, q) == 1 ==> t != q[0]))
  {
    var r, d := Pushed(cfg, q, tag), Lost(cfg, q);
    assert forall a :: 0 <= a < |q| - d ==> r[a] == q[a + d];
    assert r[|q| - d] == tag;
    if t in q {
      var a :| 0 <= a < |q| && q[a] == t;
      assert a >= d ==> r[a - d] == t;
    }
  }

  /** A job of the queue's cache, which misses. */
  ghost predicate Pushes(cfg: Config, s: System, job: Job, q: seq<nat>, e: System)
    requires cfg.Valid()
  {
    && cfg.protocol != MOESI && CachesShaped(cfg, s) && Quiescent(cfg, s) && job.threadId < |s.caches|
    && QueueIs(cfg, s.caches[job.threadId], SetOf(cfg, job.address), q, s.cycle) && TagOf(cfg, job.address) !in q
    && CacheAfter(cfg, s, job, job.threadId, e) && IsAccess(job) && s.cycle + 1 < e.cycle
    && ChoiceFor(cfg, s.caches[job.threadId].sets, job) == OnBus
    && VictimOf(cfg, s, job) == if Lost(cfg, q) == 1 then Some(q[0]) else None
  }

  lemma PushedLines(cfg: Config, s: System, job: Job, q: seq<nat>, e: System, k: nat, t: nat)
    requires cfg.Valid() && Pushes(cfg, s, job, q, e) && k < cfg.NumSets()
    ensures job.threadId < |e.caches| && |e.caches[job.threadId].sets| == cfg.NumSets()
    ensures Has(e.caches[job.threadId], k, t) <==> k == SetOf(cfg, job.address) && t in Pushed(cfg, q, TagOf(cfg, job.address))
  {
    var tag, k0, own := TagOf(cfg, job.address), SetOf(cfg, job.address), job.threadId;
    PushedContains(cfg, q, tag, t);
    assert MovedTo(cfg, s, job, own, VictimOf(cfg, s, job), e.caches[own]);
    assert Has(s.caches[own], k, t) <==> k == k0 && t in q by {
      hide Has;
    }
    hide Has, SetOf, TagOf, VictimOf, ChoiceFor, StampAt, StampAfter, Shaped, Quiescent, Pushed, Lost, St, QueueIs, CacheAfter;
    assert HasAfter(cfg, s, job, own, k, t) <==> k == k0 && (t in q || t == tag);
    assert Evicted(cfg, job, own, VictimOf(cfg, s, job), k, t) <==> k == k0 && Lost(cfg, q) == 1 && t == q[0];
  }

  lemma PushedStamp(cfg: Config, s: System, job: Job, q: seq<nat>, e: System, a: nat)
    requires cfg.Valid() && Pushes(cfg, s, job, q, e) && a < |q| && (Lost(cfg, q) == 1 ==> 0 < a)
    ensures var c, c', k0 := s.caches[job.threadId], e.caches[job.threadId], SetOf(cfg, job.address);
            StampAt(c', k0, q[a]) == (if IsCurrent(cfg, c, q[a]) then s.cycle + 1 else StampAt(c, k0, q[a])) && StampAt(c, k0, q[a]) <= s.cycle
  {
    PushedContains(cfg, q, TagOf(cfg, job.address), q[a]);
    PushedLines(cfg, s, job, q, e, SetOf(cfg, job.address), q[a]);
    hide Has, SetOf, TagOf, VictimOf, ChoiceFor, Stamp, IsCurrent, Shaped, Quiescent, Pushed, Lost, MovedTo;
  }

  lemma PushedShape(cfg: Config, q: seq<nat>, tag: nat)
    ensures var r, d := Pushed(cfg, q, tag), Lost(cfg, q);
            && d <= |q| && d <= 1 && |r| == |q| - d + 1 && r[|q| - d] == tag
            && forall a {:trigger r[a]} :: 0 <= a < |q| - d ==> r[a] == q[a + d]
  {
  }

  lemma PushesShape(cfg: Config, s: System, job: Job, q: seq<nat>, e: System)
    requires cfg.Valid() && Pushes(cfg, s, job, q, e)
    ensures job.threadId < |s.caches| && job.threadId < |e.caches|
    ensures SetOf(cfg, job.address) < |s.caches[job.threadId].sets| && SetOf(cfg, job.address) < |e.caches[job.threadId].sets|
  {
    hide QueueIs, VictimOf, ChoiceFor, Shaped, MovedTo;
    QuiescentShape(cfg, s);
    SetCount(cfg, s, job.threadId);
  }

  lemma SetCount(cfg: Config, s: System, j: nat)
    requires CachesShaped(cfg, s) && j < |s.caches|
    ensures |s.caches[j].sets| == cfg.NumSets()
  {
  }

  /** Timestamps along the new queue, before its last line. */
  lemma PushedFront(cfg: Config, s: System, job: Job, q: seq<nat>, e: System, r: seq<nat>)
    requires cfg.Valid() && Pushes(cfg, s, job, q, e) && r == Pushed(cfg, q, TagOf(cfg, job.address))
    ensures var c, c', k0, d := s.caches[job.threadId], e.caches[job.threadId], SetOf(cfg, job.address), Lost(cfg, q);
            && |r| == |q| - d + 1 && r[|q| - d] == TagOf(cfg, job.address)
            && (forall a {:trigger r[a]} :: 0 <= a < |q| - d ==>
                  && r[a] == q[a + d] && StampAt(c, k0, r[a]) <= s.cycle
                  && StampAt(c', k0, r[a]) == if IsCurrent(cfg, c, r[a]) then s.cycle + 1 else StampAt(c, k0, r[a]))
  {
    hide *;
    PushesShape(cfg, s, job, q, e);
    var c, c', k0, d := s.caches[job.threadId], e.caches[job.threadId], SetOf(cfg, job.address), Lost(cfg, q);
    PushedShape(cfg, q, TagOf(cfg, job.address));
    forall a | 0 <= a < |q| - d
      ensures r[a] == q[a + d] && StampAt(c, k0, r[a]) <= s.cycle
      ensures StampAt(c', k0, r[a]) == if IsCurrent(cfg, c, r[a]) then s.cycle + 1 else StampAt(c, k0, r[a])
    {
      PushedStamp(cfg, s, job, q, e, a + d);
    }
  }

  lemma PushedLast(cfg: Config, s: System, job: Job, q: seq<nat>, e: System)
    requires cfg.Valid() && Pushes(cfg, s, job, q, e)
    ensures job.threadId < |e.caches| && SetOf(cfg, job.address) < |e.caches[job.threadId].sets|
    ensures StampAt(e.caches[job.threadId], SetOf(cfg, job.address), TagOf(cfg, job.address)) == e.cycle
  {
    PushedContains(cfg, q, TagOf(cfg, job.address), TagOf(cfg, job.address));
    PushedLines(cfg, s, job, q, e, SetOf(cfg, job.address), TagOf(cfg, job.address));
    hide Has, SetOf, TagOf, VictimOf, ChoiceFor, Stamp, IsCurrent, Shaped, Quiescent, Pushed, Lost, MovedTo;
  }

  /** The order of the queue and its only possible current line. */
  lemma QueueOrder(cfg: Config, s: System, job: Job, q: seq<nat>, e: System, a: nat, b: nat)
    requires cfg.Valid() && Pushes(cfg, s, job, q, e) && a < b < |q|
    ensures var c, k0 := s.caches[job.threadId], SetOf(cfg, job.address);
            StampAt(c, k0, q[a]) < StampAt(c, k0, q[b]) && !IsCurrent(cfg, c, q[a])
  {
    hide Has, SetOf, TagOf, VictimOf, ChoiceFor, StampAt, IsCurrent, Shaped, Quiescent, Pushed, Lost, CacheAfter;
  }

  lemma PushedOrder(cfg: Config, s: System, job: Job, q: seq<nat>, e: System, r: seq<nat>)
    requires cfg.Valid() && Pushes(cfg, s, job, q, e) && r == Pushed(cfg, q, TagOf(cfg, job.address))
    ensures var c', k0 := e.caches[job.threadId], SetOf(cfg, job.address);
            && (forall a, b :: 0 <= a < b < |r| ==> StampAt(c', k0, r[a]) < StampAt(c', k0, r[b]))
            && (forall a :: 0 <= a < |r| ==> StampAt(c', k0, r[a]) <= e.cycle)
  {
    assert s.cycle + 1 < e.cycle;
    hide *;
    var c', k0, d := e.caches[job.threadId], SetOf(cfg, job.address), Lost(cfg, q);
    PushedFront(cfg, s, job, q, e, r);
    PushedLast(cfg, s, job, q, e);
    forall a, b | 0 <= a < b < |r|
      ensures StampAt(c', k0, r[a]) < StampAt(c', k0, r[b])
    {
      if b < |q| - d {
        QueueOrder(cfg, s, job, q, e, a + d, b + d);
      }
    }
  }

  lemma PushedQueue(cfg: Config, s: System, job: Job, q: seq<nat>, e: System)
    requires cfg.Valid() && Pushes(cfg, s, job, q, e)
    ensures job.threadId < |e.caches|
    ensures QueueIs(cfg, e.caches[job.threadId], SetOf(cfg, job.address), Pushed(cfg, q, TagOf(cfg, job.address)), e.cycle)
  {
    var tag := TagOf(cfg, job.address);
    var r, c' := Pushed(cfg, q, tag), e.caches[job.threadId];
    assert |c'.sets| == cfg.NumSets() && c'.currentJob == Some(job);
    PushedContains(cfg, q, tag, tag);
    PushedOrder(cfg, s, job, q, e, r);
    assert r[|r| - 1] == tag;
    hide Pushes, Has, StampAt, Pushed, Lost, SetOf;
    forall k, t | 0 <= k < |c'.sets| && 0 <= t
      ensures Has(c', k, t) <==> k == SetOf(cfg, job.address) && t in r
    {
      PushedLines(cfg, s, job, q, e, k, t);
    }
  }

  /** A miss of the queue's own cache adds its line at the end and drops the front of a full queue. */
  lemma OwnQueueAfter(cfg: Config, addresses: set<nat>, s: System, job: Job, q: seq<nat>)
    requires cfg.Valid() && cfg.protocol != MOESI && TagsIdentifySets(cfg, addresses) && Ready(false, cfg, addresses, s) && CachesShaped(cfg, s)
    requires job.threadId < |s.caches| && job.address in addresses
    requires QueueIs(cfg, s.caches[job.threadId], SetOf(cfg, job.address), q, s.cycle) && TagOf(cfg, job.address) !in q
    requires IsAccess(job) && |q| <= cfg.numLinesInSet && 2 <= cfg.numLinesInSet
    ensures var e := RunJob(cfg, s, job);
            && job.threadId < |e.caches|
            && QueueIs(cfg, e.caches[job.threadId], SetOf(cfg, job.address), Pushed(cfg, q, TagOf(cfg, job.address)), e.cycle)
  {
    assert Quiescent(cfg, s);
    assert Lost(cfg, q) == 1 <==> |q| == cfg.numLinesInSet;
    assert Pushes(cfg, s, job, q, RunJob(cfg, s, job)) by {
      hide RunJob, QueueIs, CacheAfter, VictimOf, ChoiceFor, Ready, TagsIdentifySets, Quiescent, SetOf, TagOf, Shaped, Lost;
      QueueMisses(cfg, s, job, q);
      QueueVictim(cfg, addresses, s, job, q);
      TimePasses(cfg, addresses, s, job);
      JobEffect(cfg, addresses, s, job, job.threadId);
    }
    hide *;
    PushedQueue(cfg, s, job, q, RunJob(cfg, s, job));
  }

  /** Another cache's lines and its own lines after a job that is no access stay where they are. */
  lemma LinesStay(cfg: Config, s: System, job: Job, j: nat, e: System, k: nat, t: nat)
    requires cfg.Valid() && CachesShaped(cfg, s) && Quiescent(cfg, s) && job.threadId < |s.caches| && j < |s.caches| && k < cfg.NumSets()
    requires j != job.threadId || !IsAccess(job)
    requires CacheAfter(cfg, s, job, j, e)
    ensures j < |e.caches| && |e.caches[j].sets| == cfg.NumSets()
    ensures Has(e.caches[j], k, t) == Has(s.caches[j], k, t)
    ensures Has(e.caches[j], k, t) ==> StampAt(e.caches[j], k, t) == StampAfter(cfg, s, job, j, k, t, e.cycle)
  {
    assert !IsAccess(job) ==> ChoiceFor(cfg, s.caches[job.threadId].sets, job) == Dropped && VictimOf(cfg, s, job) == None by {
      hide FirstInState, Quiescent, TagOf;
    }
    hide Has, SetOf, TagOf, StampAt, Quiescent, Shaped, ChoiceFor, VictimOf, StampAfter;
    assert HasAfter(cfg, s, job, j, k, t) == Has(s.caches[j], k, t);
  }

  /** Nothing moves ahead of the last line of this queue. */
  ghost predicate Undisturbed(cfg: Config, s: System, job: Job, j: nat, k0: nat, q: seq<nat>)
    requires cfg.Valid() && job.threadId < |s.caches|
  {
    if j == job.threadId then !IsAccess(job) && TagOf(cfg, job.address) !in q
    else |q| <= 1 || TagOf(cfg, job.address) !in q || k0 != SetOf(cfg, job.address)
         || !ChoiceFor(cfg, s.caches[job.threadId].sets, job).UsesBus()
  }

  lemma KeptStamp(cfg: Config, s: System, job: Job, j: nat, k0: nat, q: seq<nat>, e: System, a: nat)
    requires cfg.Valid() && CachesShaped(cfg, s) && Quiescent(cfg, s) && job.threadId < |s.caches| && j < |s.caches| && k0 < cfg.NumSets()
    requires QueueIs(cfg, s.caches[j], k0, q, s.cycle) && CacheAfter(cfg, s, job, j, e) && Undisturbed(cfg, s, job, j, k0, q)
    requires a < |q| && s.cycle < e.cycle
    ensures var c, c' := s.caches[j], e.caches[j];
            && StampAt(c, k0, q[a]) <= s.cycle && StampAt(c', k0, q[a]) <= e.cycle
            && (StampAt(c', k0, q[a]) == StampAt(c, k0, q[a]) || (a == |q| - 1 && s.cycle < StampAt(c', k0, q[a])))
  {
    LinesStay(cfg, s, job, j, e, k0, q[a]);
    assert Has(s.caches[j], k0, q[a]);
    hide Has, SetOf, TagOf, ChoiceFor, Stamp, IsCurrent, Shaped, Quiescent, MovedTo, CacheAfter;
  }

  lemma QueueKept(cfg: Config, s: System, job: Job, j: nat, k0: nat, q: seq<nat>, e: System)
    requires cfg.Valid() && CachesShaped(cfg, s) && Quiescent(cfg, s) && job.threadId < |s.caches| && j < |s.caches| && k0 < cfg.NumSets()
    requires QueueIs(cfg, s.caches[j], k0, q, s.cycle) && CacheAfter(cfg, s, job, j, e) && Undisturbed(cfg, s, job, j, k0, q) && s.cycle < e.cycle
    ensures j < |e.caches| && QueueIs(cfg, e.caches[j], k0, q, e.cycle)
  {
    var c, c' := s.caches[j], e.caches[j];
    AfterShape(cfg, s, job, j, e);
    forall a | 0 <= a < |q| && IsCurrent(cfg, c', q[a])
      ensures a == |q| - 1
    {
      assert IsCurrent(cfg, c', q[a]) && j != job.threadId ==> IsCurrent(cfg, c, q[a]);
    }
    hide Has, SetOf, TagOf, StampAt, IsCurrent, Shaped, Quiescent, Undisturbed, CacheAfter;
    forall k, t | 0 <= k < |c'.sets| && 0 <= t
      ensures Has(c', k, t) <==> k == k0 && t in q
    {
      UndisturbedStays(cfg, s, job, j, k0, q, e, k, t);
    }
    forall a | 0 <= a < |q|
      ensures StampAt(c, k0, q[a]) <= s.cycle && StampAt(c', k0, q[a]) <= e.cycle
      ensures StampAt(c', k0, q[a]) == StampAt(c, k0, q[a]) || (a == |q| - 1 && s.cycle < StampAt(c', k0, q[a]))
    {
      KeptStamp(cfg, s, job, j, k0, q, e, a);
    }
    forall a, b | 0 <= a < b < |q|
      ensures StampAt(c', k0, q[a]) < StampAt(c', k0, q[b])
    {
      assert StampAt(c, k0, q[a]) < StampAt(c, k0, q[b]);
    }
  }

  lemma UndisturbedStays(cfg: Config, s: System, job: Job, j: nat, k0: nat, q: seq<nat>, e: System, k: nat, t: nat)
    requires cfg.Valid() && CachesShaped(cfg, s) && Quiescent(cfg, s) && job.threadId < |s.caches| && j < |s.caches| && k < cfg.NumSets()
    requires CacheAfter(cfg, s, job, j, e) && Undisturbed(cfg, s, job, j, k0, q)
    ensures j < |e.caches| && |e.caches[j].sets| == cfg.NumSets() && Has(e.caches[j], k, t) == Has(s.caches[j], k, t)
  {
    LinesStay(cfg, s, job, j, e, k, t);
  }

  /** The queue of a cache whose job this is not, or is no access, after the job. */
  lemma QueueStays(cfg: Config, addresses: set<nat>, s: System, job: Job, j: nat, k0: nat, q: seq<nat>)
    requires cfg.Valid() && cfg.protocol != MOESI && TagsIdentifySets(cfg, addresses) && Ready(false, cfg, addresses, s) && CachesShaped(cfg, s)
    requires job.threadId < |s.caches| && job.address in addresses && j < |s.caches| && k0 < cfg.NumSets()
    requires QueueIs(cfg, s.caches[j], k0, q, s.cycle) && Undisturbed(cfg, s, job, j, k0, q)
    ensures var e := RunJob(cfg, s, job); j < |e.caches| && QueueIs(cfg, e.caches[j], k0, q, e.cycle)
  {
    assert Quiescent(cfg, s);
    hide *;
    JobEffect(cfg, addresses, s, job, j);
    TimePasses(cfg, addresses, s, job);
    QueueKept(cfg, s, job, j, k0, q, RunJob(cfg, s, job));
  }

  /** A snooped front line becomes the latest, in a cache whose last job's line is not there. */
  lemma SnoopedQueue(cfg: Config, s: System, job: Job, j: nat, q: seq<nat>, e: System)
    requires cfg.Valid() && CachesShaped(cfg, s) && Quiescent(cfg, s) && job.threadId < |s.caches| && j < |s.caches| && j != job.threadId
    requires QueueIs(cfg, s.caches[j], SetOf(cfg, job.address), q, s.cycle) && |q| > 0 && q[0] == TagOf(cfg, job.address)
    requires forall t :: t in q ==> !IsCurrent(cfg, s.caches[j], t)
    requires ChoiceFor(cfg, s.caches[job.threadId].sets, job).UsesBus() && CacheAfter(cfg, s, job, j, e) && s.cycle < e.cycle
    ensures j < |e.caches| && QueueIs(cfg, e.caches[j], SetOf(cfg, job.address), q[1..] + [q[0]], e.cycle)
  {
    var c, c', k0, n, r := s.caches[j], e.caches[j], SetOf(cfg, job.address), |q| - 1, q[1..] + [q[0]];
    AfterShape(cfg, s, job, j, e);
    assert forall a :: 0 <= a < n ==> r[a] == q[a + 1];
    assert r[n] == q[0] && |r| == n + 1;
    assert forall t :: t in r <==> t in q;
    assert forall t :: IsCurrent(cfg, c', t) == IsCurrent(cfg, c, t);
    forall k, t | 0 <= k < |c'.sets| && 0 <= t
      ensures Has(c', k, t) <==> k == k0 && t in r
    {
      LinesStay(cfg, s, job, j, e, k, t);
    }
    forall a | 0 <= a < |q|
      ensures StampAt(c, k0, q[a]) <= s.cycle
      ensures StampAt(c', k0, q[a]) == if a == 0 then s.cycle + 1 else StampAt(c, k0, q[a])
    {
      LinesStay(cfg, s, job, j, e, k0, q[a]);
      assert Has(c, k0, q[a]) && !IsCurrent(cfg, c, q[a]);
      assert a != 0 ==> q[a] != q[0];
    }
    hide Has, SetOf, TagOf, StampAt, IsCurrent, Shaped, Quiescent, CacheAfter, ChoiceFor;
    forall a, b | 0 <= a < b < |r|
      ensures StampAt(c', k0, r[a]) < StampAt(c', k0, r[b]) && r[a] != r[b]
    {
      assert b < n ==> StampAt(c, k0, q[a + 1]) < StampAt(c, k0, q[b + 1]);
    }
    forall a | 0 <= a < |r|
      ensures StampAt(c', k0, r[a]) <= e.cycle
    {
      assert r[a] == if a < n then q[a + 1] else q[0];
    }
  }

  // ---------------------------------------------------------------------
  // The trace on which the machines replace different lines
  // ---------------------------------------------------------------------

  function Tags(cfg: Config, pool: seq<nat>): (r: seq<nat>)
    requires cfg.Valid()
    ensures |r| == |pool|
  {
    seq(|pool|, i requires 0 <= i < |pool| => TagOf(cfg, pool[i]))
  }

  /** One address more than a set has lines, all of set `k0` and with different tags. */
  ghost predicate Cast(cfg: Config, addresses: set<nat>, k0: nat, pool: seq<nat>) {
    && cfg.Valid() && cfg.protocol != MOESI && 2 <= cfg.numProcessors && 2 <= cfg.numLinesInSet
    && TagsIdentifySets(cfg, addresses)
    && |pool| == cfg.numLinesInSet + 1 && k0 < cfg.NumSets()
    && (forall i :: 0 <= i < |pool| ==> pool[i] in addresses && SetOf(cfg, pool[i]) == k0)
    && Distinct(Tags(cfg, pool))
  }

  /** The machine after a trace over the addresses. */
  ghost predicate After(cfg: Config, addresses: set<nat>, trace: seq<Job>, s: System) {
    && cfg.Valid() && JobsInRange(cfg, trace) && JobAddresses(trace) <= addresses && s == RunTrace(cfg, trace)
    && Ready(false, cfg, addresses, s) && CachesShaped(cfg, s) && |s.caches| == cfg.numProcessors
  }

  lemma AfterNothing(cfg: Config, addresses: set<nat>)
    requires cfg.Valid() && cfg.protocol != MOESI
    ensures After(cfg, addresses, [], Init(cfg))
  {
    InitIsReady(false, cfg, addresses);
  }

  lemma AfterOneMore(cfg: Config, addresses: set<nat>, trace: seq<Job>, s: System, job: Job)
    requires cfg.Valid() && cfg.protocol != MOESI && After(cfg, addresses, trace, s) && job.address in addresses && job.threadId < cfg.numProcessors
    ensures Quiescent(cfg, s) && job.threadId < |s.caches| && After(cfg, addresses, trace + [job], RunJob(cfg, s, job))
  {
    hide RunTrace, RunJob, Ready, JobAddresses, Shaped, Quiescent;
    OneMoreJob(cfg, trace, job, addresses);
    RunTraceIsReady(false, cfg, addresses, trace + [job]);
    TraceIsShaped(cfg, trace + [job]);
  }

  /** The copy of a line in another cache. */
  lemma OtherCopy(cfg: Config, addresses: set<nat>, s: System, job: Job, j: nat, k: nat, t: nat)
    requires cfg.Valid() && Ready(false, cfg, addresses, s) && CachesShaped(cfg, s)
    requires job.threadId < |s.caches| && j < |s.caches| && j != job.threadId && k < cfg.NumSets()
    ensures var e := RunJob(cfg, s, job);
            var snooped := ChoiceFor(cfg, s.caches[job.threadId].sets, job).UsesBus() && k == SetOf(cfg, job.address) && t == TagOf(cfg, job.address);
            && j < |e.caches| && |e.caches[j].sets| == cfg.NumSets()
            && St(e.caches[j], k, t) == (if snooped then SnoopedState(cfg.protocol, CommandOf(job), St(s.caches[j], k, t)) else St(s.caches[j], k, t))
            && Has(e.caches[j], k, t) == Has(s.caches[j], k, t)
  {
    hide RunJob, Ready, Quiescent, ChoiceFor, SetOf, TagOf, St, Has, SharedBy, Shaped, VictimOf;
    var victim := RunJobMoves(cfg, addresses, s, job, j);
  }

  /** The copies in the job's own cache. */
  lemma OwnCopy(cfg: Config, addresses: set<nat>, s: System, job: Job, k: nat, t: nat)
    requires cfg.Valid() && cfg.protocol != MOESI && Ready(false, cfg, addresses, s) && CachesShaped(cfg, s) && job.threadId < |s.caches| && k < cfg.NumSets()
    requires ChoiceFor(cfg, s.caches[job.threadId].sets, job) != MarkingHit
    ensures Quiescent(cfg, s)
    ensures var e, choice := RunJob(cfg, s, job), ChoiceFor(cfg, s.caches[job.threadId].sets, job);
            var line := k == SetOf(cfg, job.address) && t == TagOf(cfg, job.address);
            && job.threadId < |e.caches| && |e.caches[job.threadId].sets| == cfg.NumSets()
            && (choice == OnBus && line ==> St(e.caches[job.threadId], k, t) == DoneState(cfg.protocol, job, SharedBy(cfg, s, job), Invalid))
            && (!line && VictimOf(cfg, s, job) != Some(t) ==>
                  St(e.caches[job.threadId], k, t) == St(s.caches[job.threadId], k, t) && Has(e.caches[job.threadId], k, t) == Has(s.caches[job.threadId], k, t))
  {
    assert ChoiceFor(cfg, s.caches[job.threadId].sets, job) != Upgrading;
    hide RunJob, Ready, Quiescent, ChoiceFor, SetOf, TagOf, St, Has, SharedBy, Shaped, VictimOf, MovedTo, HasRoom, DoneState, SnoopedState;
    var victim := RunJobMoves(cfg, addresses, s, job, job.threadId);
    MovedAt(cfg, s, job, job.threadId, victim, RunJob(cfg, s, job).caches[job.threadId], k, t);
  }

  ghost predicate OthersEmpty(cfg: Config, s: System, k0: nat)
    requires cfg.Valid()
  {
    forall j :: 2 <= j < |s.caches| ==> QueueIs(cfg, s.caches[j], k0, [], s.cycle)
  }

  lemma OthersStayEmpty(cfg: Config, addresses: set<nat>, s: System, job: Job, k0: nat)
    requires cfg.Valid() && cfg.protocol != MOESI && TagsIdentifySets(cfg, addresses) && Ready(false, cfg, addresses, s) && CachesShaped(cfg, s)
    requires job.threadId < 2 <= |s.caches| && job.address in addresses && k0 < cfg.NumSets() && OthersEmpty(cfg, s, k0)
    ensures OthersEmpty(cfg, RunJob(cfg, s, job), k0)
  {
    var e := RunJob(cfg, s, job);
    assert |e.caches| == |s.caches| by {
      hide RunJob, TagsIdentifySets, Quiescent, QueueIs;
      var v := RunJobMoves(cfg, addresses, s, job, 0);
    }
    hide RunJob, TagsIdentifySets, Ready, QueueIs, Shaped;
    forall j | 2 <= j < |e.caches|
      ensures QueueIs(cfg, e.caches[j], k0, [], e.cycle)
    {
      QueueStays(cfg, addresses, s, job, j, k0, []);
    }
  }

  /** The lines cache 0 holds after reading the first `n` addresses beyond the first. */
  function Window(q: seq<nat>, n: nat, ways: nat): seq<nat>
    requires n <= ways < |q|
  {
    if n < ways then q[..n + 1] else q[1..ways + 1]
  }

  /** Cache 1 keeps an invalid line of the first address, while cache 0 reads the others. */
  ghost predicate Reading(cfg: Config, addresses: set<nat>, k0: nat, pool: seq<nat>, trace: seq<Job>, s: System, n: nat) {
    && Cast(cfg, addresses, k0, pool) && After(cfg, addresses, trace, s) && n <= cfg.numLinesInSet
    && var tags := Tags(cfg, pool);
    && OthersEmpty(cfg, s, k0)
    && QueueIs(cfg, s.caches[0], k0, Window(tags, n, cfg.numLinesInSet), s.cycle)
    && QueueIs(cfg, s.caches[1], k0, [tags[0]], s.cycle)
    && St(s.caches[1], k0, tags[0]) == Invalid
  }

  lemma PushedWindow(cfg: Config, q: seq<nat>, n: nat)
    requires 2 <= cfg.numLinesInSet && n < cfg.numLinesInSet && |q| == cfg.numLinesInSet + 1 && Distinct(q)
    ensures Pushed(cfg, Window(q, n, cfg.numLinesInSet), q[n + 1]) == Window(q, n + 1, cfg.numLinesInSet)
    ensures q[n + 1] !in Window(q, n, cfg.numLinesInSet) && |Window(q, n, cfg.numLinesInSet)| <= cfg.numLinesInSet
  {
    var w := Window(q, n, cfg.numLinesInSet);
    assert w == q[..n + 1];
    assert forall i :: 0 <= i < |w| ==> w[i] == q[i];
    if n + 1 == cfg.numLinesInSet {
      assert w[1..] + [q[n + 1]] == q[1..n + 2];
    } else {
      assert w[0..] + [q[n + 1]] == q[..n + 2];
    }
  }

  /** The states a read ends in, invalidated by a snooped write. */
  predicate ReadState(p: Protocol, st: State) {
    st == Shared || (p == MESI && st == Exclusive)
  }

  lemma ReadStates(p: Protocol, job: Job, shared: bool)
    requires p != MOESI && job.IsRead()
    ensures ReadState(p, DoneState(p, job, shared, Invalid))
    ensures forall st :: ReadState(p, st) ==> SnoopedState(p, BusRdX, st) == Invalid && st != Invalid
    ensures forall command :: SnoopedState(p, command, Invalid) == Invalid
  {
  }

  /** Cache 1 has read the first address. */
  ghost predicate Opened(cfg: Config, addresses: set<nat>, k0: nat, pool: seq<nat>, trace: seq<Job>, s: System) {
    && Cast(cfg, addresses, k0, pool) && After(cfg, addresses, trace, s) && OthersEmpty(cfg, s, k0)
    && QueueIs(cfg, s.caches[0], k0, [], s.cycle)
    && QueueIs(cfg, s.caches[1], k0, [Tags(cfg, pool)[0]], s.cycle)
    && ReadState(cfg.protocol, St(s.caches[1], k0, Tags(cfg, pool)[0]))
  }

  lemma EmptyQueues(cfg: Config, k0: nat)
    requires cfg.Valid() && k0 < cfg.NumSets()
    ensures forall j :: 0 <= j < |Init(cfg).caches| ==> QueueIs(cfg, Init(cfg).caches[j], k0, [], 0)
  {
  }

  /** What the cast says about one of its addresses. */
  lemma CastMember(cfg: Config, addresses: set<nat>, k0: nat, pool: seq<nat>, i: nat)
    requires Cast(cfg, addresses, k0, pool) && i < |pool|
    ensures pool[i] in addresses && SetOf(cfg, pool[i]) == k0 && TagOf(cfg, pool[i]) == Tags(cfg, pool)[i]
    ensures TagsIdentifySets(cfg, addresses) && 2 <= cfg.numProcessors
  {
    hide SetOf, TagOf, TagsIdentifySets;
  }

  lemma CastFacts(cfg: Config, addresses: set<nat>, k0: nat, pool: seq<nat>)
    requires Cast(cfg, addresses, k0, pool)
    ensures cfg.Valid() && cfg.protocol != MOESI && 2 <= cfg.numProcessors && 2 <= cfg.numLinesInSet && k0 < cfg.NumSets()
    ensures TagsIdentifySets(cfg, addresses) && |pool| == |Tags(cfg, pool)| == cfg.numLinesInSet + 1 && Distinct(Tags(cfg, pool))
  {
    hide TagsIdentifySets, Tags;
  }

  lemma SiblingUndisturbed(cfg: Config, s: System, job: Job, k0: nat, r: seq<nat>)
    requires cfg.Valid() && job.threadId < |s.caches| && job.threadId < 2 && (|r| <= 1 || TagOf(cfg, job.address) !in r)
    ensures Undisturbed(cfg, s, job, 1 - job.threadId, k0, r)
  {
    hide TagOf, SetOf, ChoiceFor;
  }

  /** The queues of all caches after an access by cache `p`, whose sibling is `1 - p`. */
  lemma AccessQueues(cfg: Config, addresses: set<nat>, k0: nat, pool: seq<nat>, trace: seq<Job>, s: System, job: Job, i: nat, q: seq<nat>, r: seq<nat>)
    requires Cast(cfg, addresses, k0, pool) && After(cfg, addresses, trace, s) && OthersEmpty(cfg, s, k0)
    requires job.threadId < 2 && i < |pool| && job.address == pool[i] && IsAccess(job)
    requires QueueIs(cfg, s.caches[job.threadId], k0, q, s.cycle) && Tags(cfg, pool)[i] !in q && |q| <= cfg.numLinesInSet
    requires QueueIs(cfg, s.caches[1 - job.threadId], k0, r, s.cycle) && (|r| <= 1 || Tags(cfg, pool)[i] !in r)
    ensures Quiescent(cfg, s) && ChoiceFor(cfg, s.caches[job.threadId].sets, job) == OnBus
    ensures var e := RunJob(cfg, s, job);
            && After(cfg, addresses, trace + [job], e) && OthersEmpty(cfg, e, k0)
            && QueueIs(cfg, e.caches[job.threadId], k0, Pushed(cfg, q, Tags(cfg, pool)[i]), e.cycle)
            && QueueIs(cfg, e.caches[1 - job.threadId], k0, r, e.cycle)
  {
    hide *;
    CastFacts(cfg, addresses, k0, pool);
    AfterIs(cfg, addresses, trace, s);
    CastMember(cfg, addresses, k0, pool, i);
    AfterOneMore(cfg, addresses, trace, s, job);
    SiblingUndisturbed(cfg, s, job, k0, r);
    QueueMisses(cfg, s, job, q);
    OwnQueueAfter(cfg, addresses, s, job, q);
    QueueStays(cfg, addresses, s, job, 1 - job.threadId, k0, r);
    OthersStayEmpty(cfg, addresses, s, job, k0);
  }

  lemma EmptyMachine(cfg: Config, k0: nat)
    requires cfg.Valid() && 2 <= cfg.numProcessors && k0 < cfg.NumSets()
    ensures var s := Init(cfg);
            |s.caches| == cfg.numProcessors && OthersEmpty(cfg, s, k0) && QueueIs(cfg, s.caches[0], k0, [], s.cycle) && QueueIs(cfg, s.caches[1], k0, [], s.cycle)
  {
    EmptyQueues(cfg, k0);
    hide QueueIs;
  }

  lemma PushedOnNothing(cfg: Config, t: nat)
    ensures Pushed(cfg, [], t) == [t]
  {
  }

  /** The kinds of jobs. */
  lemma ReadsAndWrites(a: nat)
    ensures forall p :: Job('R', a, p).IsRead() && !Job('R', a, p).IsWrite() && IsAccess(Job('R', a, p)) && CommandOf(Job('R', a, p)) == BusRd
    ensures forall p :: Job('W', a, p).IsWrite() && IsAccess(Job('W', a, p)) && CommandOf(Job('W', a, p)) == BusRdX
    ensures forall p :: !IsAccess(Job('X', a, p))
  {
  }

  lemma OpenedIs(cfg: Config, addresses: set<nat>, k0: nat, pool: seq<nat>, trace: seq<Job>, s: System)
    requires Cast(cfg, addresses, k0, pool) && After(cfg, addresses, trace, s) && OthersEmpty(cfg, s, k0) && |pool| > 0 && 2 <= |s.caches|
    requires QueueIs(cfg, s.caches[0], k0, [], s.cycle) && QueueIs(cfg, s.caches[1], k0, [Tags(cfg, pool)[0]], s.cycle)
    requires k0 < |s.caches[1].sets| && ReadState(cfg.protocol, St(s.caches[1], k0, Tags(cfg, pool)[0]))
    ensures Opened(cfg, addresses, k0, pool, trace, s)
  {
    hide Cast, After, OthersEmpty, QueueIs, ReadState;
  }

  lemma OpenedParts(cfg: Config, addresses: set<nat>, k0: nat, pool: seq<nat>, trace: seq<Job>, s: System)
    requires Opened(cfg, addresses, k0, pool, trace, s)
    ensures Cast(cfg, addresses, k0, pool) && After(cfg, addresses, trace, s) && OthersEmpty(cfg, s, k0) && |pool| > 0 && 2 <= |s.caches|
    ensures QueueIs(cfg, s.caches[0], k0, [], s.cycle) && QueueIs(cfg, s.caches[1], k0, [Tags(cfg, pool)[0]], s.cycle)
    ensures k0 < |s.caches[1].sets| && ReadState(cfg.protocol, St(s.caches[1], k0, Tags(cfg, pool)[0]))
  {
    CastFacts(cfg, addresses, k0, pool);
    AfterIs(cfg, addresses, trace, s);
    hide Cast, After, OthersEmpty, ReadState;
  }

  lemma ReadingIs(cfg: Config, addresses: set<nat>, k0: nat, pool: seq<nat>, trace: seq<Job>, s: System, n: nat, q: seq<nat>)
    requires Cast(cfg, addresses, k0, pool) && After(cfg, addresses, trace, s) && OthersEmpty(cfg, s, k0) && n <= cfg.numLinesInSet < |pool| && 2 <= |s.caches|
    requires QueueIs(cfg, s.caches[0], k0, q, s.cycle) && q == Window(Tags(cfg, pool), n, cfg.numLinesInSet)
    requires QueueIs(cfg, s.caches[1], k0, [Tags(cfg, pool)[0]], s.cycle)
    requires k0 < |s.caches[1].sets| && St(s.caches[1], k0, Tags(cfg, pool)[0]) == Invalid
    ensures Reading(cfg, addresses, k0, pool, trace, s, n)
  {
    hide Cast, After, OthersEmpty, QueueIs, Window;
  }

  lemma ReadingParts(cfg: Config, addresses: set<nat>, k0: nat, pool: seq<nat>, trace: seq<Job>, s: System, n: nat)
    requires Reading(cfg, addresses, k0, pool, trace, s, n)
    ensures Cast(cfg, addresses, k0, pool) && After(cfg, addresses, trace, s) && OthersEmpty(cfg, s, k0) && n <= cfg.numLinesInSet < |pool| && 2 <= |s.caches|
    ensures QueueIs(cfg, s.caches[0], k0, Window(Tags(cfg, pool), n, cfg.numLinesInSet), s.cycle)
    ensures QueueIs(cfg, s.caches[1], k0, [Tags(cfg, pool)[0]], s.cycle)
    ensures k0 < |s.caches[1].sets| && St(s.caches[1], k0, Tags(cfg, pool)[0]) == Invalid
  {
    CastFacts(cfg, addresses, k0, pool);
    AfterIs(cfg, addresses, trace, s);
    hide Cast, After, OthersEmpty, Window;
  }

  lemma FirstRead(cfg: Config, addresses: set<nat>, k0: nat, pool: seq<nat>) returns (e: System)
    requires Cast(cfg, addresses, k0, pool)
    ensures Opened(cfg, addresses, k0, pool, [Job('R', pool[0], 1)], e)
  {
    hide *;
    CastFacts(cfg, addresses, k0, pool);
    var job, t, none := Job('R', pool[0], 1), Tags(cfg, pool)[0], [];
    AfterNothing(cfg, addresses);
    EmptyMachine(cfg, k0);
    CastMember(cfg, addresses, k0, pool, 0);
    AfterIs(cfg, addresses, none, Init(cfg));
    ReadsAndWrites(pool[0]);
    AccessQueues(cfg, addresses, k0, pool, none, Init(cfg), job, 0, [], []);
    e := RunJob(cfg, Init(cfg), job);
    PushedOnNothing(cfg, t);
    OwnCopy(cfg, addresses, Init(cfg), job, k0, t);
    ReadStates(cfg.protocol, job, SharedBy(cfg, Init(cfg), job));
    assert none + [job] == [job];
    OpenedIs(cfg, addresses, k0, pool, [job], e);
  }

  lemma AfterIs(cfg: Config, addresses: set<nat>, trace: seq<Job>, s: System)
    requires After(cfg, addresses, trace, s)
    ensures cfg.Valid() && Ready(false, cfg, addresses, s) && CachesShaped(cfg, s) && |s.caches| == cfg.numProcessors
  {
  }

  function Opening(pool: seq<nat>): seq<Job>
    requires |pool| > 0
  {
    [Job('R', pool[0], 1)] + [Job('W', pool[0], 0)]
  }

  lemma WindowAtStart(q: seq<nat>, ways: nat)
    requires 0 < ways < |q|
    ensures Window(q, 0, ways) == [q[0]]
  {
  }

  lemma FirstWrite(cfg: Config, addresses: set<nat>, k0: nat, pool: seq<nat>, trace: seq<Job>, s: System) returns (e: System)
    requires Opened(cfg, addresses, k0, pool, trace, s)
    ensures Reading(cfg, addresses, k0, pool, trace + [Job('W', pool[0], 0)], e, 0)
  {
    hide *;
    OpenedParts(cfg, addresses, k0, pool, trace, s);
    CastFacts(cfg, addresses, k0, pool);
    var job, tags := Job('W', pool[0], 0), Tags(cfg, pool);
    CastMember(cfg, addresses, k0, pool, 0);
    AfterIs(cfg, addresses, trace, s);
    ReadsAndWrites(pool[0]);
    AccessQueues(cfg, addresses, k0, pool, trace, s, job, 0, [], [tags[0]]);
    e := RunJob(cfg, s, job);
    PushedOnNothing(cfg, tags[0]);
    WindowAtStart(tags, cfg.numLinesInSet);
    OtherCopy(cfg, addresses, s, job, 1, k0, tags[0]);
    ReadStates(cfg.protocol, Job('R', pool[0], 1), false);
    BusChoice();
    ReadingIs(cfg, addresses, k0, pool, trace + [job], e, 0, [tags[0]]);
  }

  lemma DifferentTags(q: seq<nat>, a: nat, b: nat)
    requires Distinct(q) && a < |q| && b < |q| && a != b
    ensures q[a] != q[b]
  {
  }

  /** Cache 0 reads one more address. */
  lemma ReadsOn(cfg: Config, addresses: set<nat>, k0: nat, pool: seq<nat>, trace: seq<Job>, s: System, n: nat) returns (e: System)
    requires Reading(cfg, addresses, k0, pool, trace, s, n) && n < cfg.numLinesInSet && n + 1 < |pool|
    ensures Reading(cfg, addresses, k0, pool, trace + [Job('R', pool[n + 1], 0)], e, n + 1)
  {
    hide *;
    ReadingParts(cfg, addresses, k0, pool, trace, s, n);
    CastFacts(cfg, addresses, k0, pool);
    var job, tags, w := Job('R', pool[n + 1], 0), Tags(cfg, pool), cfg.numLinesInSet;
    CastMember(cfg, addresses, k0, pool, n + 1);
    AfterIs(cfg, addresses, trace, s);
    ReadsAndWrites(pool[n + 1]);
    PushedWindow(cfg, tags, n);
    AccessQueues(cfg, addresses, k0, pool, trace, s, job, n + 1, Window(tags, n, w), [tags[0]]);
    e := RunJob(cfg, s, job);
    DifferentTags(tags, 0, n + 1);
    OtherCopy(cfg, addresses, s, job, 1, k0, tags[0]);
    ReadingIs(cfg, addresses, k0, pool, trace + [job], e, n + 1, Window(tags, n + 1, w));
  }

  /** A clean copy that nobody else has. */
  function CleanState(p: Protocol): State {
    if p == MSI then Shared else Exclusive
  }

  /** Cache 0 holds the first address's line clean, in its own set only. */
  ghost predicate HoldsClean(cfg: Config, s: System, k0: nat, t: nat) {
    && |s.caches| > 0 && |s.caches[0].sets| == cfg.NumSets() && k0 < cfg.NumSets()
    && (forall k {:trigger Has(s.caches[0], k, t)} :: 0 <= k < cfg.NumSets() ==> (Has(s.caches[0], k, t) <==> k == k0))
    && St(s.caches[0], k0, t) == CleanState(cfg.protocol)
  }

  /** Cache 1's lines, of which the second is valid. */
  ghost predicate SecondIs(cfg: Config, s: System, k0: nat, q: seq<nat>, second: nat, valid: bool)
    requires cfg.Valid()
  {
    && 2 <= |s.caches| && QueueIs(cfg, s.caches[1], k0, q, s.cycle)
    && (valid ==> St(s.caches[1], k0, second) != Invalid)
  }

  /** Cache 0 has the first address's line to itself, while cache 1 reads the others. */
  ghost predicate Primed(cfg: Config, addresses: set<nat>, k0: nat, pool: seq<nat>, trace: seq<Job>, s: System, n: nat) {
    && Cast(cfg, addresses, k0, pool) && After(cfg, addresses, trace, s) && n < cfg.numLinesInSet
    && HoldsClean(cfg, s, k0, Tags(cfg, pool)[0])
    && SecondIs(cfg, s, k0, Tags(cfg, pool)[..n + 1], Tags(cfg, pool)[1], 1 <= n)
  }

  lemma NobodyShares(cfg: Config, s: System, job: Job, k0: nat, t: nat)
    requires cfg.Valid() && cfg.protocol != MOESI && CachesShaped(cfg, s) && 2 <= |s.caches| && job.threadId == 0 && k0 < cfg.NumSets()
    requires k0 == SetOf(cfg, job.address) && t == TagOf(cfg, job.address)
    requires OthersEmpty(cfg, s, k0) && St(s.caches[1], k0, t) == Invalid
    ensures !SharedBy(cfg, s, job)
  {
    forall j | 1 <= j < |s.caches|
      ensures St(s.caches[j], k0, t) == Invalid
    {
      if j >= 2 {
        assert !Has(s.caches[j], k0, t) by {
          assert QueueIs(cfg, s.caches[j], k0, [], s.cycle);
        }
        MissingIsInvalid(s.caches[j].sets[k0], t);
      }
    }
    hide St, OthersEmpty, SetOf, TagOf, Shaped;
  }

  lemma QueueHolds(cfg: Config, s: System, k0: nat, q: seq<nat>, t: nat)
    requires cfg.Valid() && |s.caches| > 0 && QueueIs(cfg, s.caches[0], k0, q, s.cycle) && t in q
    requires k0 < |s.caches[0].sets| && St(s.caches[0], k0, t) == CleanState(cfg.protocol)
    ensures HoldsClean(cfg, s, k0, t)
  {
    hide Has, St, StampAt, IsCurrent;
  }

  /** After all its reads cache 0 has lost the first line. */
  lemma FirstIsOut(cfg: Config, tags: seq<nat>, w: nat)
    requires 2 <= w == cfg.numLinesInSet && |tags| == w + 1 && Distinct(tags)
    ensures var q := Window(tags, w, w); |q| == w && tags[0] !in q && tags[0] in Pushed(cfg, q, tags[0])
  {
    var q := Window(tags, w, w);
    assert q == tags[1..w + 1];
    assert Pushed(cfg, q, tags[0])[|q| - Lost(cfg, q)] == tags[0];
  }

  lemma AloneIsClean(p: Protocol, job: Job)
    requires p != MOESI && job.IsRead() && !job.IsWrite()
    ensures DoneState(p, job, false, Invalid) == CleanState(p)
  {
  }

  lemma PrimedIs(cfg: Config, addresses: set<nat>, k0: nat, pool: seq<nat>, trace: seq<Job>, s: System, n: nat, q: seq<nat>)
    requires Cast(cfg, addresses, k0, pool) && After(cfg, addresses, trace, s) && n < cfg.numLinesInSet < |pool| && 2 <= |s.caches| && 2 <= |pool|
    requires HoldsClean(cfg, s, k0, Tags(cfg, pool)[0]) && q == Tags(cfg, pool)[..n + 1]
    requires cfg.Valid() && QueueIs(cfg, s.caches[1], k0, q, s.cycle) && k0 < |s.caches[1].sets|
    requires 1 <= n ==> St(s.caches[1], k0, Tags(cfg, pool)[1]) != Invalid
    ensures Primed(cfg, addresses, k0, pool, trace, s, n)
  {
    hide Cast, After, HoldsClean, QueueIs, St;
  }

  lemma PrimedParts(cfg: Config, addresses: set<nat>, k0: nat, pool: seq<nat>, trace: seq<Job>, s: System, n: nat)
    requires Primed(cfg, addresses, k0, pool, trace, s, n)
    ensures Cast(cfg, addresses, k0, pool) && After(cfg, addresses, trace, s) && n < cfg.numLinesInSet < |pool| && 2 <= |s.caches| && 2 <= |pool|
    ensures HoldsClean(cfg, s, k0, Tags(cfg, pool)[0])
    ensures cfg.Valid() && QueueIs(cfg, s.caches[1], k0, Tags(cfg, pool)[..n + 1], s.cycle) && k0 < |s.caches[1].sets|
    ensures 1 <= n ==> St(s.caches[1], k0, Tags(cfg, pool)[1]) != Invalid
  {
    CastFacts(cfg, addresses, k0, pool);
    AfterIs(cfg, addresses, trace, s);
    hide Cast, After, HoldsClean, St, Tags;
  }

  /** Cache 0 reads the first address again, and has it to itself. */
  lemma ReadsAgain(cfg: Config, addresses: set<nat>, k0: nat, pool: seq<nat>, trace: seq<Job>, s: System) returns (e: System)
    requires Reading(cfg, addresses, k0, pool, trace, s, cfg.numLinesInSet) && |pool| > 0
    ensures Primed(cfg, addresses, k0, pool, trace + [Job('R', pool[0], 0)], e, 0)
  {
    hide *;
    ReadingParts(cfg, addresses, k0, pool, trace, s, cfg.numLinesInSet);
    CastFacts(cfg, addresses, k0, pool);
    var job, tags, w := Job('R', pool[0], 0), Tags(cfg, pool), cfg.numLinesInSet;
    CastMember(cfg, addresses, k0, pool, 0);
    AfterIs(cfg, addresses, trace, s);
    ReadsAndWrites(pool[0]);
    FirstIsOut(cfg, tags, w);
    var q := Window(tags, w, w);
    AccessQueues(cfg, addresses, k0, pool, trace, s, job, 0, q, [tags[0]]);
    e := RunJob(cfg, s, job);
    OwnCopy(cfg, addresses, s, job, k0, tags[0]);
    OtherCopy(cfg, addresses, s, job, 1, k0, tags[0]);
    NobodyShares(cfg, s, job, k0, tags[0]);
    AloneIsClean(cfg.protocol, job);
    QueueHolds(cfg, e, k0, Pushed(cfg, q, tags[0]), tags[0]);
    assert [tags[0]] == tags[..1];
    PrimedIs(cfg, addresses, k0, pool, trace + [job], e, 0, [tags[0]]);
  }

  lemma CleanStays(cfg: Config, addresses: set<nat>, s: System, job: Job, k0: nat, t: nat)
    requires cfg.Valid() && Ready(false, cfg, addresses, s) && CachesShaped(cfg, s) && HoldsClean(cfg, s, k0, t)
    requires job.threadId == 1 < |s.caches|
    requires t != TagOf(cfg, job.address) || !ChoiceFor(cfg, s.caches[1].sets, job).UsesBus()
    ensures HoldsClean(cfg, RunJob(cfg, s, job), k0, t)
  {
    var e := RunJob(cfg, s, job);
    hide RunJob, Ready, SetOf, TagOf, ChoiceFor, St, Has, Shaped;
    OtherCopy(cfg, addresses, s, job, 0, k0, t);
    forall k | 0 <= k < cfg.NumSets()
      ensures Has(e.caches[0], k, t) <==> k == k0
    {
      OtherCopy(cfg, addresses, s, job, 0, k, t);
    }
  }

  lemma PrefixPushed(cfg: Config, q: seq<nat>, n: nat)
    requires n + 1 < cfg.numLinesInSet < |q| && Distinct(q)
    ensures Pushed(cfg, q[..n + 1], q[n + 1]) == q[..n + 2] && q[n + 1] !in q[..n + 1]
  {
    assert q[..n + 1][0..] + [q[n + 1]] == q[..n + 2];
  }

  /** Cache 1 reads one more address. */
  lemma PrimesOn(cfg: Config, addresses: set<nat>, k0: nat, pool: seq<nat>, trace: seq<Job>, s: System, n: nat) returns (e: System)
    requires Primed(cfg, addresses, k0, pool, trace, s, n) && n + 1 < cfg.numLinesInSet && n + 1 < |pool|
    ensures Primed(cfg, addresses, k0, pool, trace + [Job('R', pool[n + 1], 1)], e, n + 1)
  {
    hide *;
    PrimedParts(cfg, addresses, k0, pool, trace, s, n);
    CastFacts(cfg, addresses, k0, pool);
    var job, tags := Job('R', pool[n + 1], 1), Tags(cfg, pool);
    CastMember(cfg, addresses, k0, pool, n + 1);
    AfterIs(cfg, addresses, trace, s);
    ReadsAndWrites(pool[n + 1]);
    PrefixPushed(cfg, tags, n);
    DifferentTags(tags, 0, n + 1);
    var q, tag := tags[..n + 1], tags[n + 1];
    AfterOneMore(cfg, addresses, trace, s, job);
    e := RunJob(cfg, s, job);
    QueueMisses(cfg, s, job, q);
    QueueVictim(cfg, addresses, s, job, q);
    OwnQueueAfter(cfg, addresses, s, job, q);
    CleanStays(cfg, addresses, s, job, k0, tags[0]);
    OwnCopy(cfg, addresses, s, job, k0, tags[1]);
    ReadStates(cfg.protocol, job, SharedBy(cfg, s, job));
    if n > 0 {
      DifferentTags(tags, 1, n + 1);
    }
    PrimedIs(cfg, addresses, k0, pool, trace + [job], e, n + 1, tags[..n + 2]);
  }

  /** Cache 1's last job was for an address it does not hold. */
  ghost predicate Parked(cfg: Config, addresses: set<nat>, k0: nat, pool: seq<nat>, trace: seq<Job>, s: System) {
    && 1 <= cfg.numLinesInSet && Primed(cfg, addresses, k0, pool, trace, s, cfg.numLinesInSet - 1)
    && forall t :: t in Tags(cfg, pool)[..cfg.numLinesInSet] ==> !IsCurrent(cfg, s.caches[1], t)
  }

  lemma LastIsOut(q: seq<nat>, w: nat)
    requires Distinct(q) && |q| == w + 1
    ensures q[w] !in q[..w]
  {
  }

  lemma OwnUndisturbed(cfg: Config, s: System, job: Job, k0: nat, q: seq<nat>)
    requires cfg.Valid() && job.threadId < |s.caches| && !IsAccess(job) && TagOf(cfg, job.address) !in q
    ensures Undisturbed(cfg, s, job, job.threadId, k0, q)
  {
  }

  lemma ParkedIs(cfg: Config, addresses: set<nat>, k0: nat, pool: seq<nat>, trace: seq<Job>, s: System, job: Job)
    requires cfg.Valid() && 1 <= cfg.numLinesInSet < |pool| && Primed(cfg, addresses, k0, pool, trace, s, cfg.numLinesInSet - 1) && 2 <= |s.caches|
    requires s.caches[1].currentJob == Some(job) && TagOf(cfg, job.address) !in Tags(cfg, pool)[..cfg.numLinesInSet]
    ensures Parked(cfg, addresses, k0, pool, trace, s)
  {
    hide Primed, TagOf, Tags;
  }

  lemma ParkedParts(cfg: Config, addresses: set<nat>, k0: nat, pool: seq<nat>, trace: seq<Job>, s: System)
    requires Parked(cfg, addresses, k0, pool, trace, s)
    ensures 1 <= cfg.numLinesInSet < |pool| && Primed(cfg, addresses, k0, pool, trace, s, cfg.numLinesInSet - 1) && cfg.Valid() && 2 <= |s.caches|
    ensures forall t :: t in Tags(cfg, pool)[..cfg.numLinesInSet] ==> !IsCurrent(cfg, s.caches[1], t)
  {
    hide Primed, Tags, IsCurrent, Cast, After, HoldsClean, QueueIs, St;
    PrimedParts(cfg, addresses, k0, pool, trace, s, cfg.numLinesInSet - 1);
  }

  /** A job that is neither a read nor a write leaves cache 1 with another last job. */
  lemma Parks(cfg: Config, addresses: set<nat>, k0: nat, pool: seq<nat>, trace: seq<Job>, s: System) returns (e: System)
    requires cfg.numLinesInSet > 0 && Primed(cfg, addresses, k0, pool, trace, s, cfg.numLinesInSet - 1) && cfg.numLinesInSet < |pool|
    ensures Parked(cfg, addresses, k0, pool, trace + [Job('X', pool[cfg.numLinesInSet], 1)], e)
  {
    hide *;
    PrimedParts(cfg, addresses, k0, pool, trace, s, cfg.numLinesInSet - 1);
    CastFacts(cfg, addresses, k0, pool);
    var w, tags := cfg.numLinesInSet, Tags(cfg, pool);
    var job, q := Job('X', pool[w], 1), tags[..w];
    CastMember(cfg, addresses, k0, pool, w);
    AfterIs(cfg, addresses, trace, s);
    ReadsAndWrites(pool[w]);
    AfterOneMore(cfg, addresses, trace, s, job);
    e := RunJob(cfg, s, job);
    LastIsOut(tags, w);
    DroppedChanges(cfg, addresses, s, job);
    OwnUndisturbed(cfg, s, job, k0, q);
    QueueStays(cfg, addresses, s, job, 1, k0, q);
    CleanStays(cfg, addresses, s, job, k0, tags[0]);
    DifferentTags(tags, 1, w);
    OwnCopy(cfg, addresses, s, job, k0, tags[1]);
    JobsAfter(cfg, addresses, s, job, 1);
    PrimedIs(cfg, addresses, k0, pool, trace + [job], e, w - 1, q);
    ParkedIs(cfg, addresses, k0, pool, trace + [job], e, job);
  }

  lemma DroppedChanges(cfg: Config, addresses: set<nat>, s: System, job: Job)
    requires cfg.Valid() && Quiescent(cfg, s) && job.threadId < |s.caches| && !IsAccess(job)
    ensures ChoiceFor(cfg, s.caches[job.threadId].sets, job) == Dropped && VictimOf(cfg, s, job) == None
  {
    hide Taken, Quiescent, TagOf, SetOf;
  }

  /** A write to a clean line: MSI asks the bus, MESI keeps it to itself. */
  lemma CleanWrite(cfg: Config, s: System, job: Job, k0: nat, t: nat)
    requires cfg.Valid() && cfg.protocol != MOESI && CachesShaped(cfg, s) && HoldsClean(cfg, s, k0, t)
    requires job.threadId == 0 && job.IsWrite() && t == TagOf(cfg, job.address)
    ensures ChoiceFor(cfg, s.caches[0].sets, job) == if cfg.protocol == MSI then OnBus else MarkingHit
  {
    var c := s.caches[0];
    assert Has(c, k0, t);
    hide FirstInState, St, Has, TagOf, Shaped;
    ScanFinds(c, t, Modified);
    ScanFinds(c, t, Exclusive);
  }

  /** The last read meets these lines in cache 1. */
  ghost predicate Full(cfg: Config, addresses: set<nat>, k0: nat, pool: seq<nat>, trace: seq<Job>, s: System, q: seq<nat>) {
    && Cast(cfg, addresses, k0, pool) && After(cfg, addresses, trace, s)
    && SecondIs(cfg, s, k0, q, Tags(cfg, pool)[1], cfg.protocol == MESI)
  }

  /** Cache 1's lines once cache 0 has written: MSI has looked the first one up there. */
  function WrittenQueue(p: Protocol, tags: seq<nat>, ways: nat): seq<nat>
    requires 1 <= ways <= |tags|
  {
    if p == MSI then tags[1..ways] + [tags[0]] else tags[..ways]
  }

  lemma WrittenQueues(tags: seq<nat>, w: nat)
    requires 1 <= w <= |tags|
    ensures WrittenQueue(MSI, tags, w) == tags[..w][1..] + [tags[..w][0]] && WrittenQueue(MESI, tags, w) == tags[..w]
  {
  }

  lemma FullIs(cfg: Config, addresses: set<nat>, k0: nat, pool: seq<nat>, trace: seq<Job>, s: System, q: seq<nat>)
    requires Cast(cfg, addresses, k0, pool) && After(cfg, addresses, trace, s) && cfg.Valid() && 2 <= |s.caches| && 2 <= |pool|
    requires QueueIs(cfg, s.caches[1], k0, q, s.cycle)
    requires cfg.protocol == MESI ==> St(s.caches[1], k0, Tags(cfg, pool)[1]) != Invalid
    ensures Full(cfg, addresses, k0, pool, trace, s, q)
  {
    hide Cast, After, QueueIs, St, Tags;
  }

  lemma FullParts(cfg: Config, addresses: set<nat>, k0: nat, pool: seq<nat>, trace: seq<Job>, s: System, q: seq<nat>)
    requires Full(cfg, addresses, k0, pool, trace, s, q)
    ensures Cast(cfg, addresses, k0, pool) && After(cfg, addresses, trace, s) && cfg.Valid() && 2 <= |s.caches| && 2 <= |pool|
    ensures QueueIs(cfg, s.caches[1], k0, q, s.cycle) && k0 < |s.caches[1].sets|
    ensures cfg.protocol == MESI ==> St(s.caches[1], k0, Tags(cfg, pool)[1]) != Invalid
  {
    CastFacts(cfg, addresses, k0, pool);
    hide Cast, After, St, Tags;
  }

  lemma SilentIsUndisturbed(cfg: Config, s: System, job: Job, k0: nat, q: seq<nat>)
    requires cfg.Valid() && job.threadId == 0 < |s.caches| && ChoiceFor(cfg, s.caches[0].sets, job) == MarkingHit
    ensures Undisturbed(cfg, s, job, 1, k0, q) && !ChoiceFor(cfg, s.caches[0].sets, job).UsesBus()
  {
    hide ChoiceFor;
  }

  lemma WritesOverBus(cfg: Config, addresses: set<nat>, k0: nat, pool: seq<nat>, trace: seq<Job>, s: System) returns (e: System)
    requires Parked(cfg, addresses, k0, pool, trace, s) && cfg.protocol == MSI && |pool| > 0
    ensures 1 <= cfg.numLinesInSet <= |pool|
    ensures Full(cfg, addresses, k0, pool, trace + [Job('W', pool[0], 0)], e,
                 WrittenQueue(MSI, Tags(cfg, pool), cfg.numLinesInSet))
  {
    hide *;
    ParkedParts(cfg, addresses, k0, pool, trace, s);
    PrimedParts(cfg, addresses, k0, pool, trace, s, cfg.numLinesInSet - 1);
    CastFacts(cfg, addresses, k0, pool);
    CastMember(cfg, addresses, k0, pool, 0);
    AfterIs(cfg, addresses, trace, s);
    var job, tags, w := Job('W', pool[0], 0), Tags(cfg, pool), cfg.numLinesInSet;
    var q := tags[..w];
    ReadsAndWrites(pool[0]);
    AfterOneMore(cfg, addresses, trace, s, job);
    e := RunJob(cfg, s, job);
    CleanWrite(cfg, s, job, k0, tags[0]);
    BusChoice();
    TimePasses(cfg, addresses, s, job);
    JobEffect(cfg, addresses, s, job, 1);
    SnoopedQueue(cfg, s, job, 1, q, e);
    WrittenQueues(tags, w);
    FullIs(cfg, addresses, k0, pool, trace + [job], e, WrittenQueue(MSI, tags, w));
  }

  lemma WritesSilently(cfg: Config, addresses: set<nat>, k0: nat, pool: seq<nat>, trace: seq<Job>, s: System) returns (e: System)
    requires Parked(cfg, addresses, k0, pool, trace, s) && cfg.protocol == MESI && |pool| > 0
    ensures 1 <= cfg.numLinesInSet <= |pool|
    ensures Full(cfg, addresses, k0, pool, trace + [Job('W', pool[0], 0)], e,
                 WrittenQueue(MESI, Tags(cfg, pool), cfg.numLinesInSet))
  {
    hide *;
    ParkedParts(cfg, addresses, k0, pool, trace, s);
    PrimedParts(cfg, addresses, k0, pool, trace, s, cfg.numLinesInSet - 1);
    CastFacts(cfg, addresses, k0, pool);
    CastMember(cfg, addresses, k0, pool, 0);
    AfterIs(cfg, addresses, trace, s);
    var job, tags, w := Job('W', pool[0], 0), Tags(cfg, pool), cfg.numLinesInSet;
    var q := tags[..w];
    ReadsAndWrites(pool[0]);
    AfterOneMore(cfg, addresses, trace, s, job);
    e := RunJob(cfg, s, job);
    CleanWrite(cfg, s, job, k0, tags[0]);
    SilentIsUndisturbed(cfg, s, job, k0, q);
    QueueStays(cfg, addresses, s, job, 1, k0, q);
    OtherCopy(cfg, addresses, s, job, 1, k0, tags[1]);
    WrittenQueues(tags, w);
    FullIs(cfg, addresses, k0, pool, trace + [job], e, WrittenQueue(MESI, tags, w));
  }

  lemma LastPushed(cfg: Config, p: Protocol, tags: seq<nat>, w: nat)
    requires 2 <= w == cfg.numLinesInSet && |tags| == w + 1 && Distinct(tags) && p != MOESI
    ensures var q := WrittenQueue(p, tags, w);
            && |q| == w && tags[w] !in q && q[0] == tags[if p == MSI then 1 else 0]
            && (p == MSI ==> tags[1] !in Pushed(cfg, q, tags[w]))
  {
    var q := WrittenQueue(p, tags, w);
    if p == MSI {
      assert forall i :: 0 <= i < w - 1 ==> q[i] == tags[i + 1];
      assert q[w - 1] == tags[0];
      var r := Pushed(cfg, q, tags[w]);
      assert forall i :: 0 <= i < w - 1 ==> r[i] == q[i + 1];
      assert r[w - 1] == tags[w];
    } else {
      assert forall i :: 0 <= i < w ==> q[i] == tags[i];
    }
  }

  /** The last read: MSI drops the second line from cache 1, MESI keeps it. */
  lemma LastRead(cfg: Config, addresses: set<nat>, k0: nat, pool: seq<nat>, trace: seq<Job>, s: System) returns (e: System)
    requires 1 <= cfg.numLinesInSet < |pool|
    requires cfg.Valid() && Full(cfg, addresses, k0, pool, trace, s, WrittenQueue(cfg.protocol, Tags(cfg, pool), cfg.numLinesInSet))
    ensures After(cfg, addresses, trace + [Job('R', pool[cfg.numLinesInSet], 1)], e)
    ensures 2 <= |e.caches| && k0 < |e.caches[1].sets|
            && (St(e.caches[1], k0, Tags(cfg, pool)[1]) == Invalid <==> cfg.protocol == MSI)
  {
    hide *;
    FullParts(cfg, addresses, k0, pool, trace, s, WrittenQueue(cfg.protocol, Tags(cfg, pool), cfg.numLinesInSet));
    CastFacts(cfg, addresses, k0, pool);
    var tags, w := Tags(cfg, pool), cfg.numLinesInSet;
    var job, q := Job('R', pool[w], 1), WrittenQueue(cfg.protocol, tags, w);
    CastMember(cfg, addresses, k0, pool, w);
    AfterIs(cfg, addresses, trace, s);
    ReadsAndWrites(pool[w]);
    LastPushed(cfg, cfg.protocol, tags, w);
    DifferentTags(tags, 1, w);
    DifferentTags(tags, 0, 1);
    AfterOneMore(cfg, addresses, trace, s, job);
    e := RunJob(cfg, s, job);
    QueueMisses(cfg, s, job, q);
    QueueVictim(cfg, addresses, s, job, q);
    OwnQueueAfter(cfg, addresses, s, job, q);
    OwnCopy(cfg, addresses, s, job, k0, tags[1]);
    NotInQueue(cfg, e.caches[1], k0, Pushed(cfg, q, tags[w]), e.cycle, tags[1]);
  }

  lemma NotInQueue(cfg: Config, c: CacheState, k0: nat, q: seq<nat>, now: nat, t: nat)
    requires cfg.Valid() && QueueIs(cfg, c, k0, q, now)
    ensures k0 < |c.sets| && (t !in q ==> St(c, k0, t) == Invalid)
  {
    if t !in q {
      assert !Has(c, k0, t);
      MissingIsInvalid(c.sets[k0], t);
    }
  }

  /** Cache `p` reads the addresses after the first, up to the `n`th. */
  function Reads(pool: seq<nat>, n: nat, p: nat): seq<Job>
    requires n < |pool|
  {
    if n == 0 then [] else Reads(pool, n - 1, p) + [Job('R', pool[n], p)]
  }

  function ReadingTrace(pool: seq<nat>, n: nat): seq<Job>
    requires n < |pool|
  {
    Opening(pool) + Reads(pool, n, 0)
  }

  function PrimingTrace(pool: seq<nat>, n: nat): seq<Job>
    requires n < |pool|
  {
    ReadingTrace(pool, |pool| - 1) + [Job('R', pool[0], 0)] + Reads(pool, n, 1)
  }

  /** The whole trace: cache 1 keeps an invalid line that cache 0 then holds clean; cache 1
      fills its set and turns to another line; cache 0 writes, and cache 1 reads that line. */
  function OverflowTrace(pool: seq<nat>): seq<Job>
    requires 2 <= |pool|
  {
    var last := |pool| - 1;
    PrimingTrace(pool, last - 1) + [Job('X', pool[last], 1)] + [Job('W', pool[0], 0)] + [Job('R', pool[last], 1)]
  }

  lemma ReadingTraceIs(pool: seq<nat>, n: nat)
    requires n < |pool|
    ensures n == 0 ==> ReadingTrace(pool, n) == [Job('R', pool[0], 1)] + [Job('W', pool[0], 0)]
    ensures n > 0 ==> ReadingTrace(pool, n) == ReadingTrace(pool, n - 1) + [Job('R', pool[n], 0)]
  {
  }

  lemma PrimingTraceIs(pool: seq<nat>, n: nat)
    requires n < |pool|
    ensures n == 0 ==> PrimingTrace(pool, n) == ReadingTrace(pool, |pool| - 1) + [Job('R', pool[0], 0)]
    ensures n > 0 ==> PrimingTrace(pool, n) == PrimingTrace(pool, n - 1) + [Job('R', pool[n], 1)]
  {
    hide ReadingTrace;
  }

  lemma {:induction false} ReadsAll(cfg: Config, addresses: set<nat>, k0: nat, pool: seq<nat>, n: nat) returns (s: System)
    requires Cast(cfg, addresses, k0, pool) && n < |pool|
    ensures Reading(cfg, addresses, k0, pool, ReadingTrace(pool, n), s, n)
  {
    hide *;
    CastFacts(cfg, addresses, k0, pool);
    ReadingTraceIs(pool, n);
    if n == 0 {
      s := FirstRead(cfg, addresses, k0, pool);
      s := FirstWrite(cfg, addresses, k0, pool, [Job('R', pool[0], 1)], s);
    } else {
      s := ReadsAll(cfg, addresses, k0, pool, n - 1);
      s := ReadsOn(cfg, addresses, k0, pool, ReadingTrace(pool, n - 1), s, n - 1);
    }
  }

  lemma {:induction false} PrimesAll(cfg: Config, addresses: set<nat>, k0: nat, pool: seq<nat>, n: nat) returns (s: System)
    requires Cast(cfg, addresses, k0, pool) && n < cfg.numLinesInSet && n < |pool|
    ensures Primed(cfg, addresses, k0, pool, PrimingTrace(pool, n), s, n)
  {
    hide *;
    CastFacts(cfg, addresses, k0, pool);
    PrimingTraceIs(pool, n);
    if n == 0 {
      s := ReadsAll(cfg, addresses, k0, pool, |pool| - 1);
      s := ReadsAgain(cfg, addresses, k0, pool, ReadingTrace(pool, |pool| - 1), s);
    } else {
      s := PrimesAll(cfg, addresses, k0, pool, n - 1);
      s := PrimesOn(cfg, addresses, k0, pool, PrimingTrace(pool, n - 1), s, n - 1);
    }
  }

  lemma OverflowTraceIs(pool: seq<nat>)
    requires 2 <= |pool|
    ensures var last := |pool| - 1;
            OverflowTrace(pool) == PrimingTrace(pool, last - 1) + [Job('X', pool[last], 1)] + [Job('W', pool[0], 0)] + [Job('R', pool[last], 1)]
  {
    hide PrimingTrace;
  }

  /** At the end cache 1 has the second address's line under MESI, and not under MSI. */
  lemma OverflowRun(cfg: Config, addresses: set<nat>, k0: nat, pool: seq<nat>) returns (s: System)
    requires Cast(cfg, addresses, k0, pool) && 2 <= |pool|
    ensures cfg.Valid() && After(cfg, addresses, OverflowTrace(pool), s)
    ensures 2 <= |s.caches| && k0 < |s.caches[1].sets|
    ensures St(s.caches[1], k0, Tags(cfg, pool)[1]) == Invalid <==> cfg.protocol == MSI
  {
    hide *;
    CastFacts(cfg, addresses, k0, pool);
    OverflowTraceIs(pool);
    var w := cfg.numLinesInSet;
    var t0 := PrimingTrace(pool, w - 1);
    var t1 := t0 + [Job('X', pool[w], 1)];
    var t2 := t1 + [Job('W', pool[0], 0)];
    s := PrimesAll(cfg, addresses, k0, pool, w - 1);
    s := Parks(cfg, addresses, k0, pool, t0, s);
    if cfg.protocol == MSI {
      s := WritesOverBus(cfg, addresses, k0, pool, t1, s);
    } else {
      s := WritesSilently(cfg, addresses, k0, pool, t1, s);
    }
    s := LastRead(cfg, addresses, k0, pool, t2, s);
  }

  // ---------------------------------------------------------------------
  // The exact condition
  // ---------------------------------------------------------------------

  lemma SameTags(cfg: Config, pool: seq<nat>)
    requires cfg.Valid()
    ensures Msi(cfg).Valid() && Mesi(cfg).Valid() && Tags(Msi(cfg), pool) == Tags(Mesi(cfg), pool) == Tags(cfg, pool)
  {
    forall i | 0 <= i < |pool|
      ensures TagOf(Msi(cfg), pool[i]) == TagOf(Mesi(cfg), pool[i]) == TagOf(cfg, pool[i])
    {
      WidthsAgree(cfg, Job('R', pool[i], 0));
    }
  }

  lemma BothCasts(cfg: Config, addresses: set<nat>, k0: nat, pool: seq<nat>)
    requires cfg.Valid() && 2 <= cfg.numProcessors && 2 <= cfg.numLinesInSet && TagsIdentifySets(cfg, addresses)
    requires |pool| == cfg.numLinesInSet + 1 && k0 < cfg.NumSets() && Distinct(Tags(cfg, pool))
    requires forall i :: 0 <= i < |pool| ==> pool[i] in addresses && SetOf(cfg, pool[i]) == k0
    ensures Cast(Msi(cfg), addresses, k0, pool) && Cast(Mesi(cfg), addresses, k0, pool)
  {
    SameTags(cfg, pool);
    SameDecoding(cfg, addresses);
    SameWidths(cfg);
    forall i | 0 <= i < |pool|
      ensures SetOf(Msi(cfg), pool[i]) == SetOf(Mesi(cfg), pool[i]) == k0
    {
      WidthsAgree(cfg, Job('R', pool[i], 0));
    }
    hide SetOf, TagOf, Tags, TagsIdentifySets;
  }

  /** Two caches, two lines a set, and more tags in a set than that: the machines part. */
  lemma OverflowBreaksSimulation(cfg: Config, addresses: set<nat>, k0: nat, pool: seq<nat>)
    requires cfg.Valid() && 2 <= cfg.numProcessors && 2 <= cfg.numLinesInSet && TagsIdentifySets(cfg, addresses)
    requires |pool| == cfg.numLinesInSet + 1 && k0 < cfg.NumSets() && Distinct(Tags(cfg, pool))
    requires forall i :: 0 <= i < |pool| ==> pool[i] in addresses && SetOf(cfg, pool[i]) == k0
    ensures JobsInRange(cfg, OverflowTrace(pool)) && JobAddresses(OverflowTrace(pool)) <= addresses
    ensures var m, e := RunTrace(Msi(cfg), OverflowTrace(pool)), RunTrace(Mesi(cfg), OverflowTrace(pool));
            && 2 <= |m.caches| == |e.caches| && k0 < |m.caches[1].sets| && k0 < |e.caches[1].sets|
            && St(m.caches[1], k0, Tags(cfg, pool)[1]) == Invalid && St(e.caches[1], k0, Tags(cfg, pool)[1]) != Invalid
    ensures !SimilarAfter(cfg, OverflowTrace(pool))
  {
    BothCasts(cfg, addresses, k0, pool);
    SameTags(cfg, pool);
    var trace := OverflowTrace(pool);
    var m := OverflowRun(Msi(cfg), addresses, k0, pool);
    var e := OverflowRun(Mesi(cfg), addresses, k0, pool);
    assert JobsInRange(cfg, trace) && JobAddresses(trace) <= addresses && m == RunTrace(Msi(cfg), trace) && e == RunTrace(Mesi(cfg), trace) by {
      hide RunTrace, OverflowTrace;
    }
    hide RunTrace, OverflowTrace, After, Cast, Tags, St, Has, JobAddresses;
    if SimilarAfter(cfg, trace) {
      SimilarAt(cfg, m, e, 1, k0, Tags(cfg, pool)[1]);
    }
  }

  /** Addresses of one set with different tags. */
  lemma {:induction false} Gather(cfg: Config, addresses: set<nat>, k0: nat, n: nat) returns (pool: seq<nat>, tags: set<nat>)
    requires cfg.Valid() && n <= |TagsAt(cfg, addresses, k0)|
    ensures |pool| == n == |tags| && Distinct(Tags(cfg, pool)) && tags <= TagsAt(cfg, addresses, k0)
    ensures forall i :: 0 <= i < |pool| ==> pool[i] in addresses && SetOf(cfg, pool[i]) == k0 && Tags(cfg, pool)[i] in tags
  {
    if n == 0 {
      pool, tags := [], {};
    } else {
      var before, few := Gather(cfg, addresses, k0, n - 1);
      var t := MissingTag(few, TagsAt(cfg, addresses, k0));
      var a :| a in addresses && SetOf(cfg, a) == k0 && TagOf(cfg, a) == t;
      pool, tags := before + [a], few + {t};
      assert forall i :: 0 <= i < n - 1 ==> Tags(cfg, pool)[i] == Tags(cfg, before)[i];
      assert Tags(cfg, pool)[n - 1] == t;
    }
  }

  lemma SuitedTraceIsSimilar(cfg: Config, addresses: set<nat>, trace: seq<Job>)
    requires cfg.Valid() && TagsIdentifySets(cfg, addresses) && SetsSuffice(cfg, addresses)
    requires JobsInRange(cfg, trace) && JobAddresses(trace) <= addresses
    ensures SimilarAfter(cfg, trace)
  {
    assert NeverCrowded(cfg, trace) by {
      forall i: nat, k: nat
        ensures |TagsSeen(cfg, trace, i, k)| <= cfg.numLinesInSet
      {
        SeenAreAt(cfg, addresses, trace, i, k);
        FewerTags(TagsSeen(cfg, trace, i, k), TagsAt(cfg, addresses, k));
      }
    }
    assert TagsIdentifySets(cfg, JobAddresses(trace));
    assert trace[..|trace|] == trace;
    hide RunTrace, NeverCrowded, TagsIdentifySets, SetsSuffice, JobAddresses, Similar, Ready, OwnLines;
    RunsStayInStep(cfg, trace, |trace|);
  }

  lemma SeenAreAt(cfg: Config, addresses: set<nat>, trace: seq<Job>, i: nat, k: nat)
    requires cfg.Valid() && JobAddresses(trace) <= addresses
    ensures TagsSeen(cfg, trace, i, k) <= TagsAt(cfg, addresses, k)
  {
    hide SetOf, TagOf;
    forall t | t in TagsSeen(cfg, trace, i, k)
      ensures t in TagsAt(cfg, addresses, k)
    {
      var job :| job in trace && job.threadId == i && SetOf(cfg, job.address) == k && TagOf(cfg, job.address) == t;
      assert job.address in JobAddresses(trace);
    }
  }

  lemma FewerTags(few: set<nat>, many: set<nat>)
    requires few <= many
    ensures |few| <= |many|
  {
    assert many == few + (many - few);
  }

  /** MESI simulates MSI on every trace over these addresses. */
  ghost predicate AlwaysSimilar(cfg: Config, addresses: set<nat>)
    requires cfg.Valid()
  {
    forall trace :: JobsInRange(cfg, trace) && JobAddresses(trace) <= addresses ==> SimilarAfter(cfg, trace)
  }

  lemma RoomSuffices(cfg: Config, addresses: set<nat>)
    requires cfg.Valid() && TagsIdentifySets(cfg, addresses)
    requires cfg.numProcessors == 1 || cfg.numLinesInSet == 1 || SetsSuffice(cfg, addresses)
    ensures AlwaysSimilar(cfg, addresses)
  {
    hide SimilarAfter, TagsIdentifySets, SetsSuffice, JobAddresses, JobsInRange;
    forall trace | JobsInRange(cfg, trace) && JobAddresses(trace) <= addresses
      ensures SimilarAfter(cfg, trace)
    {
      if SetsSuffice(cfg, addresses) {
        SuitedTraceIsSimilar(cfg, addresses, trace);
      } else {
        TracesStaySimilar(cfg, addresses, trace);
      }
    }
  }

  lemma RoomIsNeeded(cfg: Config, addresses: set<nat>)
    requires cfg.Valid() && TagsIdentifySets(cfg, addresses) && 2 <= cfg.numProcessors && 2 <= cfg.numLinesInSet
    requires AlwaysSimilar(cfg, addresses)
    ensures SetsSuffice(cfg, addresses)
  {
    hide SimilarAfter, TagsIdentifySets, JobAddresses, JobsInRange, OverflowTrace;
    forall k: nat
      ensures |TagsAt(cfg, addresses, k)| <= cfg.numLinesInSet
    {
      if cfg.numLinesInSet < |TagsAt(cfg, addresses, k)| {
        var pool, tags := Gather(cfg, addresses, k, cfg.numLinesInSet + 1);
        assert SetOf(cfg, pool[0]) == k;
        OverflowBreaksSimulation(cfg, addresses, k, pool);
        assert false;
      }
    }
  }

  /** The exact condition: over addresses whose tags identify sets, MESI simulates MSI on every
      trace if and only if there is one cache, or one line a set, or room for every line. */
  lemma MesiSimulatesMsiIff(cfg: Config, addresses: set<nat>)
    requires cfg.Valid() && TagsIdentifySets(cfg, addresses)
    ensures AlwaysSimilar(cfg, addresses)
            <==> cfg.numProcessors == 1 || cfg.numLinesInSet == 1 || SetsSuffice(cfg, addresses)
  {
    hide AlwaysSimilar, TagsIdentifySets, SetsSuffice;
    if cfg.numProcessors == 1 || cfg.numLinesInSet == 1 || SetsSuffice(cfg, addresses) {
      RoomSuffices(cfg, addresses);
    }
    if AlwaysSimilar(cfg, addresses) && 2 <= cfg.numProcessors && 2 <= cfg.numLinesInSet {
      RoomIsNeeded(cfg, addresses);
    }
  }
}
