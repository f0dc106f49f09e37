/** The threads of one breadth-first step running at the same time: every schedule of their
    reads and writes ends in the result of a single scan. */
module BfsThreads {
  import opened Graphs
  import opened Bfs

  /** Where a thread is within the inner loop's body. */
  datatype Phase = Check | ReadParent | WriteDistance(held: int) | Mark | TestFlag | RaiseFlag

  /** `at` counts the frontier's edges, in scan order; each access is one step. */
  datatype Thread = Thread(at: nat, phase: Phase)

  datatype Machine = Machine(shared: Progress, threads: seq<Thread>)

  datatype Pair = Pair(node: nat, target: nat)

  function NodeWork(g: Csr, v: nat): (w: seq<Pair>)
    requires g.Valid() && v < g.NumNodes()
    ensures |w| == |g.Out(v)|
    ensures forall k :: 0 <= k < |w| ==> w[k] == Pair(v, g.Out(v)[k])
  {
    seq(|g.Out(v)|, k requires 0 <= k < |g.Out(v)| => Pair(v, g.Out(v)[k]))
  }

  predicate FrontierEdge(g: Csr, frontier: seq<bool>, v: nat, e: Pair)
    requires g.Valid() && |frontier| == g.NumNodes()
  {
    e.node < v && e.node < g.NumNodes() && e.target < g.NumNodes() && frontier[e.node] && g.Edge(e.node, e.target)
  }

  /** The edges leaving the frontier's nodes below `v`, in scan order. */
  function Work(g: Csr, frontier: seq<bool>, v: nat): (w: seq<Pair>)
    requires g.Valid() && v <= |frontier| == g.NumNodes()
    ensures forall k :: 0 <= k < |w| ==> FrontierEdge(g, frontier, v, w[k])
  {
    if v == 0 then []
    else if frontier[v - 1] then Work(g, frontier, v - 1) + NodeWork(g, v - 1)
    else Work(g, frontier, v - 1)
  }

  lemma {:induction false} WorkIsComplete(g: Csr, frontier: seq<bool>, v: nat, node: nat, target: nat)
    requires g.Valid() && node < v <= |frontier| == g.NumNodes() && frontier[node] && g.Edge(node, target)
    ensures Pair(node, target) in Work(g, frontier, v)
  {
    if node == v - 1 {
      var k :| 0 <= k < |g.Out(node)| && g.Out(node)[k] == target;
      assert Work(g, frontier, v)[|Work(g, frontier, v - 1)| + k] == Pair(node, target);
    } else {
      WorkIsComplete(g, frontier, v - 1, node, target);
    }
  }

  predicate Fits(work: seq<Pair>, s: Progress) {
    && |s.distances| == |s.newFrontier|
    && forall k :: 0 <= k < |work| ==> work[k].node < |s.distances| && work[k].target < |s.distances|
  }

  /** One access by one thread; a finished thread does nothing. */
  function Step(work: seq<Pair>, m: Machine, i: nat): (r: Machine)
    requires Fits(work, m.shared) && i < |m.threads|
    ensures Fits(work, r.shared) && |r.threads| == |m.threads|
  {
    var s, t := m.shared, m.threads[i];
    if t.at >= |work| then m
    else
      var v, u := work[t.at].node, work[t.at].target;
      match t.phase
      case Check =>
        m.(threads := m.threads[i := if s.distances[u] == NOT_VISITED then t.(phase := ReadParent) else Thread(t.at + 1, Check)])
      case ReadParent =>
        m.(threads := m.threads[i := t.(phase := WriteDistance(s.distances[v]))])
      case WriteDistance(held) =>
        Machine(s.(distances := s.distances[u := held + 1]), m.threads[i := t.(phase := Mark)])
      case Mark =>
        Machine(s.(newFrontier := s.newFrontier[u := true]), m.threads[i := t.(phase := TestFlag)])
      case TestFlag =>
        m.(threads := m.threads[i := if s.hasNewFrontier then Thread(t.at + 1, Check) else t.(phase := RaiseFlag)])
      case RaiseFlag =>
        Machine(s.(hasNewFrontier := true), m.threads[i := Thread(t.at + 1, Check)])
  }

  function Run(work: seq<Pair>, m: Machine, schedule: seq<nat>): (r: Machine)
    requires Fits(work, m.shared) && forall k :: 0 <= k < |schedule| ==> schedule[k] < |m.threads|
    ensures Fits(work, r.shared) && |r.threads| == |m.threads|
  {
    if |schedule| == 0 then m else Step(work, Run(work, m, schedule[..|schedule| - 1]), schedule[|schedule| - 1])
  }

  /** A successor of the frontier that the step has to visit. */
  predicate New(work: seq<Pair>, s: Progress, u: nat)
    requires Fits(work, s) && u < |s.distances|
  {
    s.distances[u] == NOT_VISITED && exists k :: 0 <= k < |work| && work[k].target == u
  }

  /** Thread `t` has visited `u` and still has to mark it. */
  predicate Owes(work: seq<Pair>, t: Thread, u: nat) {
    t.at < |work| && t.phase == Mark && work[t.at].target == u
  }

  /** Thread `t` has visited a node and still has to see the flag up. */
  predicate OwesFlag(work: seq<Pair>, t: Thread) {
    t.at < |work| && (t.phase == Mark || t.phase == TestFlag || t.phase == RaiseFlag)
  }

  /** What a thread knows where it stands. */
  predicate Knows(work: seq<Pair>, d: nat, s: Progress, t: Thread, now: Progress)
    requires Fits(work, s) && Fits(work, now) && |now.distances| == |s.distances|
  {
    && t.at <= |work|
    && (t.at == |work| ==> t.phase == Check)
    && (t.phase != Check ==> New(work, s, work[t.at].target))
    && (t.phase.WriteDistance? ==> t.phase.held == d)
    && (t.phase == Mark || t.phase == TestFlag || t.phase == RaiseFlag ==> now.distances[work[t.at].target] != NOT_VISITED)
    && (forall k :: 0 <= k < t.at ==> now.distances[work[k].target] != NOT_VISITED)
  }

  /** The invariant of every schedule: `s` is the state before the step, whose frontier is level `d`. */
  ghost predicate Racing(work: seq<Pair>, d: nat, s: Progress, m: Machine) {
    && Fits(work, s) && Fits(work, m.shared) && |m.shared.distances| == |s.distances|
    && (forall k :: 0 <= k < |work| ==> s.distances[work[k].node] == d)
    && (forall i :: 0 <= i < |m.threads| ==> Knows(work, d, s, m.threads[i], m.shared))
    && (forall u :: 0 <= u < |s.distances| ==> Settled(work, d, s, m, u))
    && (m.shared.hasNewFrontier ==> s.hasNewFrontier || exists u :: 0 <= u < |s.distances| && New(work, s, u))
  }

  /** A node is as before or visited at the next level; marks and flag only go up, and only for new nodes. */
  ghost predicate Moved(work: seq<Pair>, d: nat, s: Progress, m: Machine, u: nat)
    requires Fits(work, s) && Fits(work, m.shared) && u < |m.shared.distances| == |s.distances|
  {
    && (m.shared.distances[u] == s.distances[u] || (New(work, s, u) && m.shared.distances[u] == d + 1))
    && (s.newFrontier[u] ==> m.shared.newFrontier[u])
    && (m.shared.newFrontier[u] ==> s.newFrontier[u] || New(work, s, u))
    && (s.hasNewFrontier ==> m.shared.hasNewFrontier)
  }

  /** A node visited in this step is marked, or some thread still owes that. */
  ghost predicate MarkedOrOwed(work: seq<Pair>, s: Progress, m: Machine, u: nat)
    requires Fits(work, s) && Fits(work, m.shared) && u < |m.shared.distances| == |s.distances|
  {
    m.shared.distances[u] != s.distances[u] ==>
      m.shared.newFrontier[u] || exists i :: 0 <= i < |m.threads| && Owes(work, m.threads[i], u)
  }

  /** Once a node is visited the flag is up, or some thread still owes that. */
  ghost predicate FlaggedOrOwed(work: seq<Pair>, s: Progress, m: Machine, u: nat)
    requires Fits(work, s) && Fits(work, m.shared) && u < |m.shared.distances| == |s.distances|
  {
    m.shared.distances[u] != s.distances[u] ==>
      m.shared.hasNewFrontier || exists i :: 0 <= i < |m.threads| && OwesFlag(work, m.threads[i])
  }

  ghost predicate Settled(work: seq<Pair>, d: nat, s: Progress, m: Machine, u: nat)
    requires Fits(work, s) && Fits(work, m.shared) && u < |m.shared.distances| == |s.distances|
  {
    Moved(work, d, s, m, u) && MarkedOrOwed(work, s, m, u) && FlaggedOrOwed(work, s, m, u)
  }

  /** Nothing visited is ever unvisited, nothing marked unmarked. */
  predicate Later(a: Progress, b: Progress) {
    && |a.distances| == |b.distances| && |a.newFrontier| == |b.newFrontier| == |a.distances|
    && (forall u :: 0 <= u < |a.distances| && a.distances[u] != NOT_VISITED ==> b.distances[u] != NOT_VISITED)
  }

  lemma KnowsLater(work: seq<Pair>, d: nat, s: Progress, t: Thread, a: Progress, b: Progress)
    requires Fits(work, s) && Fits(work, a) && |a.distances| == |s.distances| && Knows(work, d, s, t, a) && Later(a, b)
    ensures Fits(work, b) && Knows(work, d, s, t, b)
  {
    hide New;
  }

  /** What the acting thread reads is as the invariant says. */
  lemma Reads(work: seq<Pair>, d: nat, s: Progress, m: Machine, i: nat)
    requires Racing(work, d, s, m) && i < |m.threads| && m.threads[i].at < |work|
    ensures var v, u := work[m.threads[i].at].node, work[m.threads[i].at].target;
            && m.shared.distances[v] == d
            && (m.shared.distances[u] == NOT_VISITED ==> New(work, s, u))
            && (m.threads[i].phase.WriteDistance? ==> m.threads[i].phase.held == d)
            && (m.threads[i].phase != Check ==> New(work, s, u) && (m.shared.distances[u] == NOT_VISITED || m.shared.distances[u] == d + 1))
            && (m.threads[i].phase in {Mark, TestFlag, RaiseFlag} ==> m.shared.distances[u] == d + 1)
  {
    var k := m.threads[i].at;
    var v, u := work[k].node, work[k].target;
    assert Settled(work, d, s, m, v) && Settled(work, d, s, m, u);
    assert Knows(work, d, s, m.threads[i], m.shared);
  }

  lemma StepMovesOn(work: seq<Pair>, d: nat, s: Progress, m: Machine, i: nat)
    requires Racing(work, d, s, m) && i < |m.threads|
    ensures var m' := Step(work, m, i);
            && Later(m.shared, m'.shared) && Knows(work, d, s, m'.threads[i], m'.shared)
            && (forall j :: 0 <= j < |m.threads| && j != i ==> m'.threads[j] == m.threads[j])
            && (m'.shared.hasNewFrontier ==> s.hasNewFrontier || exists u :: 0 <= u < |s.distances| && New(work, s, u))
  {
    assert Knows(work, d, s, m.threads[i], m.shared);
    if m.threads[i].at < |work| {
      Reads(work, d, s, m, i);
    }
    hide New, Settled;
  }

  /** A thread that still owes something after the step is a thread that owes it. */
  lemma StillOwed(work: seq<Pair>, threads: seq<Thread>, i: nat, u: nat)
    requires i < |threads|
    ensures Owes(work, threads[i], u) ==> exists j :: 0 <= j < |threads| && Owes(work, threads[j], u)
    ensures OwesFlag(work, threads[i]) ==> exists j :: 0 <= j < |threads| && OwesFlag(work, threads[j])
  {
  }

  lemma StepKeepsMoved(work: seq<Pair>, d: nat, s: Progress, m: Machine, i: nat, u: nat)
    requires Racing(work, d, s, m) && i < |m.threads| && u < |s.distances|
    ensures Moved(work, d, s, Step(work, m, i), u)
  {
    assert Settled(work, d, s, m, u);
    if m.threads[i].at < |work| {
      Reads(work, d, s, m, i);
    }
    hide New, Knows, MarkedOrOwed, FlaggedOrOwed, Settled;
  }

  lemma StepKeepsMarks(work: seq<Pair>, d: nat, s: Progress, m: Machine, i: nat, u: nat)
    requires Racing(work, d, s, m) && i < |m.threads| && u < |s.distances|
    ensures MarkedOrOwed(work, s, Step(work, m, i), u)
  {
    assert Settled(work, d, s, m, u);
    if m.threads[i].at < |work| {
      Reads(work, d, s, m, i);
    }
    hide New, Knows, Moved, FlaggedOrOwed, Settled;
    var m' := Step(work, m, i);
    StillOwed(work, m'.threads, i, u);
    if m.shared.distances[u] != s.distances[u] && !m.shared.newFrontier[u] {
      var j :| 0 <= j < |m.threads| && Owes(work, m.threads[j], u);
      StillOwed(work, m'.threads, j, u);
    }
  }

  lemma StepKeepsFlag(work: seq<Pair>, d: nat, s: Progress, m: Machine, i: nat, u: nat)
    requires Racing(work, d, s, m) && i < |m.threads| && u < |s.distances|
    ensures FlaggedOrOwed(work, s, Step(work, m, i), u)
  {
    assert Settled(work, d, s, m, u);
    hide New, Knows, Moved, MarkedOrOwed, Settled;
    var m' := Step(work, m, i);
    StillOwed(work, m'.threads, i, u);
    if m.shared.distances[u] != s.distances[u] && !m.shared.hasNewFrontier {
      var j :| 0 <= j < |m.threads| && OwesFlag(work, m.threads[j]);
      StillOwed(work, m'.threads, j, u);
    }
  }

  lemma StepKeepsRacing(work: seq<Pair>, d: nat, s: Progress, m: Machine, i: nat)
    requires Racing(work, d, s, m) && i < |m.threads|
    ensures Racing(work, d, s, Step(work, m, i))
  {
    var m' := Step(work, m, i);
    StepMovesOn(work, d, s, m, i);
    hide Step, New, Knows, Later, Moved, MarkedOrOwed, FlaggedOrOwed;
    forall j | 0 <= j < |m'.threads|
      ensures Knows(work, d, s, m'.threads[j], m'.shared)
    {
      if j != i {
        KnowsLater(work, d, s, m.threads[j], m.shared, m'.shared);
      }
    }
    forall u | 0 <= u < |s.distances|
      ensures Settled(work, d, s, m', u)
    {
      StepKeepsMoved(work, d, s, m, i, u);
      StepKeepsMarks(work, d, s, m, i, u);
      StepKeepsFlag(work, d, s, m, i, u);
    }
    assert |m'.shared.distances| == |s.distances| by { LaterSize(m.shared, m'.shared); }
  }

  lemma LaterSize(a: Progress, b: Progress)
    requires Later(a, b)
    ensures |a.distances| == |b.distances|
  {
  }

  lemma {:induction false} RunKeepsRacing(work: seq<Pair>, d: nat, s: Progress, m: Machine, schedule: seq<nat>)
    requires Racing(work, d, s, m) && forall k :: 0 <= k < |schedule| ==> schedule[k] < |m.threads|
    ensures Racing(work, d, s, Run(work, m, schedule))
  {
    assert Fits(work, m.shared);
    hide Racing, Step;
    if |schedule| > 0 {
      var n := |schedule| - 1;
      RunKeepsRacing(work, d, s, m, schedule[..n]);
      StepKeepsRacing(work, d, s, Run(work, m, schedule[..n]), schedule[n]);
    }
  }

  /** All frontier nodes are level `d`. */
  predicate AtLevel(g: Csr, frontier: seq<bool>, s: Progress, d: nat) {
    && Ready(g, frontier, s)
    && forall v :: 0 <= v < g.NumNodes() && frontier[v] ==> s.distances[v] == d
  }

  function Starting(s: Progress, numThreads: nat): Machine {
    Machine(s, seq(numThreads, _ => Thread(0, Check)))
  }

  predicate Finished(work: seq<Pair>, m: Machine) {
    forall i :: 0 <= i < |m.threads| ==> m.threads[i].at >= |work|
  }

  lemma StartIsRacing(g: Csr, frontier: seq<bool>, s: Progress, d: nat, numThreads: nat)
    requires AtLevel(g, frontier, s, d)
    ensures Racing(Work(g, frontier, g.NumNodes()), d, s, Starting(s, numThreads))
  {
  }

  /** The nodes to visit are the scan's. */
  lemma NewIsReached(g: Csr, frontier: seq<bool>, s: Progress, u: nat)
    requires Ready(g, frontier, s) && u < g.NumNodes()
    ensures Fits(Work(g, frontier, g.NumNodes()), s)
    ensures New(Work(g, frontier, g.NumNodes()), s, u) <==> Reached(g, frontier, s, u, g.NumNodes())
  {
    var n := g.NumNodes();
    var work := Work(g, frontier, n);
    if Reached(g, frontier, s, u, n) {
      WorkIsComplete(g, frontier, n, FirstParent(g, frontier, u, n), u);
      var k :| 0 <= k < |work| && work[k] == Pair(FirstParent(g, frontier, u, n), u);
      assert work[k].target == u;
    }
    if New(work, s, u) {
      var k :| 0 <= k < |work| && work[k].target == u;
      assert frontier[work[k].node] && g.Edge(work[k].node, u);
    }
  }

  /** When everybody is done nobody owes anything, so exactly the new nodes are visited and marked. */
  lemma FinishedNode(work: seq<Pair>, d: nat, s: Progress, m: Machine, u: nat)
    requires Racing(work, d, s, m) && Finished(work, m) && |m.threads| > 0 && u < |s.distances|
    ensures m.shared.distances[u] == if New(work, s, u) then d + 1 else s.distances[u]
    ensures m.shared.newFrontier[u] == (s.newFrontier[u] || New(work, s, u))
    ensures New(work, s, u) || s.hasNewFrontier ==> m.shared.hasNewFrontier
  {
    assert Settled(work, d, s, m, u);
    assert Knows(work, d, s, m.threads[0], m.shared);
  }

  /** Any schedule of any positive number of threads that lets all of them finish has the
      effect of one scan. */
  lemma EveryScheduleIsOneScan(g: Csr, frontier: seq<bool>, s: Progress, d: nat, numThreads: nat, schedule: seq<nat>)
    requires AtLevel(g, frontier, s, d) && 1 <= numThreads && forall k :: 0 <= k < |schedule| ==> schedule[k] < numThreads
    ensures Fits(Work(g, frontier, g.NumNodes()), s)
    ensures var work := Work(g, frontier, g.NumNodes());
            var end := Run(work, Starting(s, numThreads), schedule);
            Finished(work, end) ==> end.shared == Scanned(g, frontier, s)
  {
    var n := g.NumNodes();
    var work := Work(g, frontier, n);
    StartIsRacing(g, frontier, s, d, numThreads);
    RunKeepsRacing(work, d, s, Starting(s, numThreads), schedule);
    var end := Run(work, Starting(s, numThreads), schedule);
    if Finished(work, end) {
      RaceIsOneScan(g, frontier, s, d, end);
    }
  }

  lemma RaceIsOneScan(g: Csr, frontier: seq<bool>, s: Progress, d: nat, m: Machine)
    requires AtLevel(g, frontier, s, d) && Racing(Work(g, frontier, g.NumNodes()), d, s, m)
    requires Finished(Work(g, frontier, g.NumNodes()), m) && |m.threads| > 0
    ensures m.shared == Scanned(g, frontier, s)
  {
    var n, t := g.NumNodes(), Scanned(g, frontier, s);
    var work := Work(g, frontier, n);
    assert |m.shared.distances| == |m.shared.newFrontier| == n;
    FinishedNode(work, d, s, m, 0);
    hide Work, New, Scanned, Finished, Settled, Knows;
    forall u | 0 <= u < n
      ensures m.shared.distances[u] == t.distances[u] && m.shared.newFrontier[u] == t.newFrontier[u]
      ensures Reached(g, frontier, s, u, n) == New(work, s, u)
      ensures New(work, s, u) ==> m.shared.hasNewFrontier
    {
      FinishedNode(work, d, s, m, u);
      NewIsReached(g, frontier, s, u);
      ScannedAt(g, frontier, s, u);
    }
    assert m.shared.distances == t.distances && m.shared.newFrontier == t.newFrontier;
    assert m.shared.hasNewFrontier == t.hasNewFrontier by { FlagIs(g, frontier, s, m.shared.hasNewFrontier, t, work); }
  }

  lemma FlagIs(g: Csr, frontier: seq<bool>, s: Progress, flag: bool, t: Progress, work: seq<Pair>)
    requires Ready(g, frontier, s) && t == Scanned(g, frontier, s) && Fits(work, s)
    requires forall u :: 0 <= u < g.NumNodes() ==> Reached(g, frontier, s, u, g.NumNodes()) == New(work, s, u)
    requires s.hasNewFrontier ==> flag
    requires forall u :: 0 <= u < g.NumNodes() ==> New(work, s, u) ==> flag
    requires flag ==> s.hasNewFrontier || exists u :: 0 <= u < g.NumNodes() && New(work, s, u)
    ensures flag == t.hasNewFrontier
  {
    hide Reached, New;
  }

  // ---------------------------------------------------------------------
  // Threads do finish
  // ---------------------------------------------------------------------

  /** An upper bound on the accesses a thread still makes. */
  function Remaining(work: seq<Pair>, t: Thread): nat {
    if t.at >= |work| then 0
    else
      6 * (|work| - t.at)
      - (match t.phase case Check => 0 case ReadParent => 1 case WriteDistance(_) => 2 case Mark => 3 case TestFlag => 4 case RaiseFlag => 5)
  }

  /** How often the schedule picks thread `i`. */
  function Turns(schedule: seq<nat>, i: nat): nat {
    if |schedule| == 0 then 0
    else Turns(schedule[..|schedule| - 1], i) + if schedule[|schedule| - 1] == i then 1 else 0
  }

  /** Every turn of an unfinished thread brings it nearer its end. */
  lemma {:induction false} TurnsAreProgress(work: seq<Pair>, m: Machine, schedule: seq<nat>, i: nat)
    requires Fits(work, m.shared) && (forall k :: 0 <= k < |schedule| ==> schedule[k] < |m.threads|) && i < |m.threads|
    ensures Turns(schedule, i) < Remaining(work, m.threads[i]) ==>
              Remaining(work, Run(work, m, schedule).threads[i]) + Turns(schedule, i) <= Remaining(work, m.threads[i])
    ensures Remaining(work, m.threads[i]) <= Turns(schedule, i) ==> Run(work, m, schedule).threads[i].at >= |work|
  {
    if |schedule| > 0 {
      TurnsAreProgress(work, m, schedule[..|schedule| - 1], i);
    }
  }

  /** A schedule that gives every thread six turns per edge lets all of them finish. */
  lemma EnoughTurnsFinish(work: seq<Pair>, s: Progress, numThreads: nat, schedule: seq<nat>)
    requires Fits(work, s) && forall k :: 0 <= k < |schedule| ==> schedule[k] < numThreads
    requires forall i :: 0 <= i < numThreads ==> 6 * |work| <= Turns(schedule, i)
    ensures Finished(work, Run(work, Starting(s, numThreads), schedule))
  {
    forall i | 0 <= i < numThreads {
      TurnsAreProgress(work, Starting(s, numThreads), schedule, i);
    }
  }
}
