/** Level-synchronous breadth-first search: the frontier scan, why running it once per
    thread is harmless, and why the distances are shortest. */
module Bfs {
  import opened Graphs

  const NOT_VISITED := -1
  const ROOT := 0

  /** What a step reads and writes, besides the frontier. */
  datatype Progress = Progress(distances: seq<int>, newFrontier: seq<bool>, hasNewFrontier: bool)

  /** Sizes fit, and every frontier node has its distance already. */
  predicate Ready(g: Csr, frontier: seq<bool>, s: Progress) {
    && g.Valid()
    && |frontier| == |s.distances| == |s.newFrontier| == g.NumNodes()
    && (forall u :: 0 <= u < g.NumNodes() ==> NOT_VISITED <= s.distances[u])
    && (forall v :: 0 <= v < g.NumNodes() && frontier[v] ==> s.distances[v] != NOT_VISITED)
  }

  /** The first frontier node below `limit` with an edge to `u`; `limit` when there is none. */
  function FirstParent(g: Csr, frontier: seq<bool>, u: nat, limit: nat): (r: nat)
    requires g.Valid() && limit <= |frontier| == g.NumNodes()
    ensures r <= limit
    ensures forall v :: 0 <= v < r ==> !(frontier[v] && g.Edge(v, u))
    ensures r < limit ==> frontier[r] && g.Edge(r, u)
  {
    if limit == 0 then 0
    else
      var r := FirstParent(g, frontier, u, limit - 1);
      if r < limit - 1 then r
      else if frontier[limit - 1] && g.Edge(limit - 1, u) then limit - 1 else limit
  }

  /** Node `u` gets its distance while the nodes below `limit` are scanned. */
  predicate Reached(g: Csr, frontier: seq<bool>, s: Progress, u: nat, limit: nat)
    requires Ready(g, frontier, s) && limit <= g.NumNodes() && u < g.NumNodes()
  {
    s.distances[u] == NOT_VISITED && FirstParent(g, frontier, u, limit) < limit
  }

  function DistanceAfter(g: Csr, frontier: seq<bool>, s: Progress, u: nat, limit: nat): int
    requires Ready(g, frontier, s) && limit <= g.NumNodes() && u < g.NumNodes()
  {
    if Reached(g, frontier, s, u, limit) then s.distances[FirstParent(g, frontier, u, limit)] + 1 else s.distances[u]
  }

  /** One scan of the frontier: every unvisited successor gets the distance of its first parent plus one. */
  function Scanned(g: Csr, frontier: seq<bool>, s: Progress): (t: Progress)
    requires Ready(g, frontier, s)
    ensures Ready(g, frontier, t)
  {
    var n := g.NumNodes();
    Progress(
      seq(n, u requires 0 <= u < n => DistanceAfter(g, frontier, s, u, n)),
      seq(n, u requires 0 <= u < n => s.newFrontier[u] || Reached(g, frontier, s, u, n)),
      s.hasNewFrontier || exists u :: 0 <= u < n && Reached(g, frontier, s, u, n))
  }

  /** After a scan no successor of the frontier is unvisited, so a second scan finds nothing to do. */
  lemma ScanTwice(g: Csr, frontier: seq<bool>, s: Progress)
    requires Ready(g, frontier, s)
    ensures Scanned(g, frontier, Scanned(g, frontier, s)) == Scanned(g, frontier, s)
  {
    var n, t := g.NumNodes(), Scanned(g, frontier, s);
    forall u | 0 <= u < n
      ensures !Reached(g, frontier, t, u, n)
    {
      assert t.distances[u] == DistanceAfter(g, frontier, s, u, n);
    }
    assert Scanned(g, frontier, t).distances == t.distances;
    assert Scanned(g, frontier, t).newFrontier == t.newFrontier;
  }

  /** `k` scans of the same frontier, one after the other. */
  function Scans(g: Csr, frontier: seq<bool>, s: Progress, k: nat): (t: Progress)
    requires Ready(g, frontier, s)
    ensures Ready(g, frontier, t)
  {
    if k == 0 then s else Scanned(g, frontier, Scans(g, frontier, s, k - 1))
  }

  /** Any positive number of scans is one scan. */
  lemma {:induction false} ScansAreOneScan(g: Csr, frontier: seq<bool>, s: Progress, k: nat)
    requires Ready(g, frontier, s) && 1 <= k
    ensures Scans(g, frontier, s, k) == Scanned(g, frontier, s)
  {
    if k > 1 {
      ScansAreOneScan(g, frontier, s, k - 1);
      ScanTwice(g, frontier, s);
    } else {
      assert Scans(g, frontier, s, 0) == s;
    }
  }

  /** A node already visited, or reached through the first `k` edges of node `v`. */
  predicate ReachedVia(g: Csr, frontier: seq<bool>, s: Progress, u: nat, v: nat, k: nat)
    requires Ready(g, frontier, s) && v < g.NumNodes() && u < g.NumNodes() && k <= |g.Out(v)|
  {
    s.distances[u] == NOT_VISITED && (FirstParent(g, frontier, u, v) < v || u in g.Out(v)[..k])
  }

  ghost predicate ScannedUpTo(g: Csr, frontier: seq<bool>, s: Progress, v: nat, k: nat, t: Progress)
    requires Ready(g, frontier, s) && v < g.NumNodes() && k <= |g.Out(v)|
  {
    var n := g.NumNodes();
    && |t.distances| == |t.newFrontier| == n
    && (forall u :: 0 <= u < n ==>
          var reached := ReachedVia(g, frontier, s, u, v, k);
          && t.distances[u] == (if !reached then s.distances[u]
                                else if FirstParent(g, frontier, u, v) < v then s.distances[FirstParent(g, frontier, u, v)] + 1
                                else s.distances[v] + 1)
          && t.newFrontier[u] == (s.newFrontier[u] || reached))
    && (t.hasNewFrontier <==> s.hasNewFrontier || exists u :: 0 <= u < n && ReachedVia(g, frontier, s, u, v, k))
  }

  ghost predicate ScannedBelow(g: Csr, frontier: seq<bool>, s: Progress, v: nat, t: Progress)
    requires Ready(g, frontier, s) && v <= g.NumNodes()
  {
    var n := g.NumNodes();
    && |t.distances| == |t.newFrontier| == n
    && (forall u :: 0 <= u < n ==>
          && t.distances[u] == DistanceAfter(g, frontier, s, u, v)
          && t.newFrontier[u] == (s.newFrontier[u] || Reached(g, frontier, s, u, v)))
    && (t.hasNewFrontier <==> s.hasNewFrontier || exists u :: 0 <= u < n && Reached(g, frontier, s, u, v))
  }

  /** The body of the inner loop, for an edge from `v` to `u`. */
  function Visit(t: Progress, v: nat, u: nat): Progress
    requires v < |t.distances| && u < |t.distances| == |t.newFrontier|
  {
    if t.distances[u] == NOT_VISITED then
      Progress(t.distances[u := t.distances[v] + 1], t.newFrontier[u := true], true)
    else t
  }

  lemma NodeBegins(g: Csr, frontier: seq<bool>, s: Progress, v: nat, t: Progress)
    requires Ready(g, frontier, s) && v < g.NumNodes() && ScannedBelow(g, frontier, s, v, t)
    ensures ScannedUpTo(g, frontier, s, v, 0, t)
  {
    assert forall u :: 0 <= u < g.NumNodes() ==> ReachedVia(g, frontier, s, u, v, 0) == Reached(g, frontier, s, u, v);
  }

  lemma ParentOfOneMore(g: Csr, frontier: seq<bool>, u: nat, v: nat)
    requires g.Valid() && v < |frontier| == g.NumNodes()
    ensures FirstParent(g, frontier, u, v + 1)
            == if FirstParent(g, frontier, u, v) < v then FirstParent(g, frontier, u, v)
               else if frontier[v] && u in g.Out(v) then v else v + 1
  {
  }

  lemma NodeEndsFor(g: Csr, frontier: seq<bool>, s: Progress, v: nat, u: nat)
    requires Ready(g, frontier, s) && v < g.NumNodes() && u < g.NumNodes()
    ensures frontier[v] ==>
              && ReachedVia(g, frontier, s, u, v, |g.Out(v)|) == Reached(g, frontier, s, u, v + 1)
              && DistanceAfter(g, frontier, s, u, v + 1)
                 == if !ReachedVia(g, frontier, s, u, v, |g.Out(v)|) then s.distances[u]
                    else if FirstParent(g, frontier, u, v) < v then s.distances[FirstParent(g, frontier, u, v)] + 1
                    else s.distances[v] + 1
    ensures !frontier[v] ==>
              && Reached(g, frontier, s, u, v) == Reached(g, frontier, s, u, v + 1)
              && DistanceAfter(g, frontier, s, u, v) == DistanceAfter(g, frontier, s, u, v + 1)
  {
    ParentOfOneMore(g, frontier, u, v);
    assert g.Out(v)[..|g.Out(v)|] == g.Out(v);
    hide FirstParent, Csr.Out, Csr.Edge;
  }

  lemma NodeScanned(g: Csr, frontier: seq<bool>, s: Progress, v: nat, w: nat, t: Progress)
    requires Ready(g, frontier, s) && v < g.NumNodes() && frontier[v] && w == v + 1
    requires ScannedUpTo(g, frontier, s, v, |g.Out(v)|, t)
    ensures ScannedBelow(g, frontier, s, w, t)
  {
    hide Reached, ReachedVia, DistanceAfter, FirstParent, Csr.Out, Csr.Valid;
    forall u | 0 <= u < g.NumNodes()
      ensures ReachedVia(g, frontier, s, u, v, |g.Out(v)|) == Reached(g, frontier, s, u, w)
      ensures t.distances[u] == DistanceAfter(g, frontier, s, u, w)
    {
      NodeEndsFor(g, frontier, s, v, u);
    }
  }

  lemma NodeSkipped(g: Csr, frontier: seq<bool>, s: Progress, v: nat, w: nat, t: Progress)
    requires Ready(g, frontier, s) && v < g.NumNodes() && !frontier[v] && w == v + 1 && ScannedBelow(g, frontier, s, v, t)
    ensures ScannedBelow(g, frontier, s, w, t)
  {
    hide Reached, DistanceAfter, FirstParent, Csr.Out, Csr.Valid;
    forall u | 0 <= u < g.NumNodes()
      ensures Reached(g, frontier, s, u, v) == Reached(g, frontier, s, u, w)
      ensures DistanceAfter(g, frontier, s, u, v) == DistanceAfter(g, frontier, s, u, w)
    {
      NodeEndsFor(g, frontier, s, v, u);
    }
  }

  lemma ReachedViaOneMore(g: Csr, frontier: seq<bool>, s: Progress, v: nat, k: nat, next: nat, u: nat)
    requires Ready(g, frontier, s) && v < g.NumNodes() && k < |g.Out(v)| && next == k + 1 && u < g.NumNodes()
    ensures 0 <= g.Out(v)[k] < g.NumNodes()
    ensures ReachedVia(g, frontier, s, u, v, next)
            == (ReachedVia(g, frontier, s, u, v, k) || (u == g.Out(v)[k] && s.distances[u] == NOT_VISITED))
  {
    hide FirstParent;
    assert g.Out(v)[..next] == g.Out(v)[..k] + [g.Out(v)[k]];
  }

  lemma VisitExtends(g: Csr, frontier: seq<bool>, s: Progress, v: nat, k: nat, next: nat, t: Progress)
    requires Ready(g, frontier, s) && v < g.NumNodes() && k < |g.Out(v)| && frontier[v] && next == k + 1
    requires ScannedUpTo(g, frontier, s, v, k, t)
    ensures 0 <= g.Out(v)[k] < g.NumNodes()
    ensures ScannedUpTo(g, frontier, s, v, next, Visit(t, v, g.Out(v)[k]))
  {
    ReachedViaOneMore(g, frontier, s, v, k, next, 0);
    var w := g.Out(v)[k];
    hide FirstParent, ReachedVia, Csr.Out, Csr.Valid;
    forall u | 0 <= u < g.NumNodes()
      ensures ReachedVia(g, frontier, s, u, v, next)
              == (ReachedVia(g, frontier, s, u, v, k) || (u == w && s.distances[u] == NOT_VISITED))
    {
      ReachedViaOneMore(g, frontier, s, v, k, next, u);
    }
    assert t.distances[w] == NOT_VISITED ==> s.distances[w] == NOT_VISITED && !ReachedVia(g, frontier, s, w, v, k) by {
      UnvisitedMeansUnreached(g, frontier, s, v, k, t, w);
    }
  }

  /** A node that is still unvisited has not been reached. */
  lemma UnvisitedMeansUnreached(g: Csr, frontier: seq<bool>, s: Progress, v: nat, k: nat, t: Progress, w: nat)
    requires Ready(g, frontier, s) && v < g.NumNodes() && k <= |g.Out(v)| && frontier[v] && ScannedUpTo(g, frontier, s, v, k, t)
    requires w < g.NumNodes()
    ensures t.distances[w] == NOT_VISITED ==> s.distances[w] == NOT_VISITED && !ReachedVia(g, frontier, s, w, v, k)
    ensures t.distances[w] != NOT_VISITED ==> s.distances[w] != NOT_VISITED || ReachedVia(g, frontier, s, w, v, k)
  {
    hide Csr.Out, Csr.Valid, ReachedVia;
  }

  lemma ScanEnds(g: Csr, frontier: seq<bool>, s: Progress, t: Progress)
    requires Ready(g, frontier, s) && ScannedBelow(g, frontier, s, g.NumNodes(), t)
    ensures t == Scanned(g, frontier, s)
  {
    hide Reached, DistanceAfter;
    assert t.distances == Scanned(g, frontier, s).distances;
    assert t.newFrontier == Scanned(g, frontier, s).newFrontier;
  }

  /** `Visit`, on the arrays. */
  method VisitNode(v: nat, u: nat, newFrontier: array<bool>, distances: array<int>, hasNew: bool) returns (hasNewFrontier: bool)
    requires v < distances.Length && u < distances.Length == newFrontier.Length
    modifies newFrontier, distances
    ensures Progress(distances[..], newFrontier[..], hasNewFrontier)
            == Visit(old(Progress(distances[..], newFrontier[..], hasNew)), v, u)
  {
    hasNewFrontier := hasNew;
    if distances[u] == NOT_VISITED {
      distances[u] := distances[v] + 1;
      newFrontier[u] := true;
      if !hasNewFrontier {
        hasNewFrontier := true;
      }
    }
  }

  /** One edge of the inner loop. */
  method ScanEdge(g: Csr, v: nat, ngh: nat, newFrontier: array<bool>, distances: array<int>, hasNew: bool,
                  ghost frontier: seq<bool>, ghost s: Progress)
    returns (hasNewFrontier: bool)
    requires Ready(g, frontier, s) && v < g.NumNodes() && frontier[v] && g.starts[v] <= ngh < g.EndEdge(v)
    requires ScannedUpTo(g, frontier, s, v, ngh - g.starts[v], Progress(distances[..], newFrontier[..], hasNew))
    modifies newFrontier, distances
    ensures ScannedUpTo(g, frontier, s, v, ngh - g.starts[v] + 1, Progress(distances[..], newFrontier[..], hasNewFrontier))
  {
    VisitExtends(g, frontier, s, v, ngh - g.starts[v], ngh - g.starts[v] + 1, Progress(distances[..], newFrontier[..], hasNew));
    assert distances.Length == |distances[..]| == g.NumNodes() == |newFrontier[..]| == newFrontier.Length;
    var outgoing := g.edges[ngh];
    assert outgoing == g.Out(v)[ngh - g.starts[v]];
    hide *;
    hasNewFrontier := VisitNode(v, outgoing, newFrontier, distances, hasNew);
  }

  /** The inner loop: all edges of one frontier node. */
  method ScanNode(g: Csr, v: nat, newFrontier: array<bool>, distances: array<int>, hasNew: bool, ghost frontier: seq<bool>, ghost s: Progress)
    returns (hasNewFrontier: bool)
    requires Ready(g, frontier, s) && v < g.NumNodes() && frontier[v]
    requires ScannedUpTo(g, frontier, s, v, 0, Progress(distances[..], newFrontier[..], hasNew))
    modifies newFrontier, distances
    ensures ScannedUpTo(g, frontier, s, v, |g.Out(v)|, Progress(distances[..], newFrontier[..], hasNewFrontier))
  {
    hasNewFrontier := hasNew;
    var startEdge, endEdge := g.starts[v], g.EndEdge(v);
    assert |g.Out(v)| == endEdge - startEdge && 0 <= startEdge <= endEdge;
    hide *;
    for ngh := startEdge to endEdge
      invariant ScannedUpTo(g, frontier, s, v, ngh - startEdge, Progress(distances[..], newFrontier[..], hasNewFrontier))
    {
      hasNewFrontier := ScanEdge(g, v, ngh, newFrontier, distances, hasNewFrontier, frontier, s);
    }
  }

  /** One node of the outer loop. */
  method ScanOrSkip(g: Csr, v: nat, inFrontier: bool, newFrontier: array<bool>, distances: array<int>, hasNew: bool,
                    ghost frontier: seq<bool>, ghost s: Progress)
    returns (hasNewFrontier: bool)
    requires Ready(g, frontier, s) && v < g.NumNodes() && inFrontier == frontier[v]
    requires ScannedBelow(g, frontier, s, v, Progress(distances[..], newFrontier[..], hasNew))
    modifies newFrontier, distances
    ensures ScannedBelow(g, frontier, s, v + 1, Progress(distances[..], newFrontier[..], hasNewFrontier))
  {
    assert |frontier| == g.NumNodes();
    hide *;
    hasNewFrontier := hasNew;
    if inFrontier {
      NodeBegins(g, frontier, s, v, Progress(distances[..], newFrontier[..], hasNewFrontier));
      hasNewFrontier := ScanNode(g, v, newFrontier, distances, hasNewFrontier, frontier, s);
      NodeScanned(g, frontier, s, v, v + 1, Progress(distances[..], newFrontier[..], hasNewFrontier));
    } else {
      NodeSkipped(g, frontier, s, v, v + 1, Progress(distances[..], newFrontier[..], hasNewFrontier));
    }
  }

  lemma ScanBegins(g: Csr, frontier: seq<bool>, s: Progress)
    requires Ready(g, frontier, s)
    ensures |frontier| == g.NumNodes() && ScannedBelow(g, frontier, s, 0, s)
  {
  }

  /** One thread's work. */
  method TopDownThread(g: Csr, frontier: array<bool>, newFrontier: array<bool>, distances: array<int>, hasNew: bool)
    returns (hasNewFrontier: bool)
    requires frontier != newFrontier
    requires Ready(g, frontier[..], Progress(distances[..], newFrontier[..], hasNew))
    modifies newFrontier, distances
    ensures Progress(distances[..], newFrontier[..], hasNewFrontier)
            == Scanned(g, frontier[..], old(Progress(distances[..], newFrontier[..], hasNew)))
  {
    ghost var s, front := Progress(distances[..], newFrontier[..], hasNew), frontier[..];
    hasNewFrontier := hasNew;
    hide *;
    ScanBegins(g, front, s);
    for v := 0 to g.NumNodes()
      invariant ScannedBelow(g, front, s, v, Progress(distances[..], newFrontier[..], hasNewFrontier))
    {
      hasNewFrontier := ScanOrSkip(g, v, frontier[v], newFrontier, distances, hasNewFrontier, front, s);
    }
    ScanEnds(g, front, s, Progress(distances[..], newFrontier[..], hasNewFrontier));
  }

  /** All threads of a step, one per node, run one after the other on the same frontier.
      The step has `maxThreads` thread handles; `ok` says that they were enough. */
  method TopDownStep(g: Csr, frontier: array<bool>, newFrontier: array<bool>, distances: array<int>, hasNew: bool, maxThreads: nat)
    returns (hasNewFrontier: bool, ok: bool)
    requires frontier != newFrontier
    requires Ready(g, frontier[..], Progress(distances[..], newFrontier[..], hasNew))
    modifies newFrontier, distances
    ensures ok <==> g.NumNodes() <= maxThreads
    ensures ok ==> Progress(distances[..], newFrontier[..], hasNewFrontier)
                   == Scanned(g, frontier[..], old(Progress(distances[..], newFrontier[..], hasNew)))
  {
    ghost var s, front := Progress(distances[..], newFrontier[..], hasNew), frontier[..];
    hasNewFrontier := hasNew;
    hide Scanned, Ready;
    assert 1 <= g.NumNodes() by { assert Ready(g, front, s); HasNodes(g, front, s); }
    for i := 0 to g.NumNodes()
      invariant i <= maxThreads
      invariant frontier[..] == front
      invariant Progress(distances[..], newFrontier[..], hasNewFrontier) == Scans(g, front, s, i)
    {
      if i == maxThreads {
        return hasNewFrontier, false;
      }
      hasNewFrontier := TopDownThread(g, frontier, newFrontier, distances, hasNewFrontier);
    }
    ok := true;
    ScansAreOneScan(g, front, s, g.NumNodes());
  }

  lemma HasNodes(g: Csr, frontier: seq<bool>, s: Progress)
    requires Ready(g, frontier, s)
    ensures 1 <= g.NumNodes()
  {
  }

  // ---------------------------------------------------------------------
  // The rounds
  // ---------------------------------------------------------------------

  /** After `d` rounds: distances up to `d` are known and shortest, and the frontier is level `d`. */
  ghost predicate Levels(g: Csr, distances: seq<int>, frontier: seq<bool>, d: nat) {
    && g.Valid() && |distances| == |frontier| == g.NumNodes()
    && (forall u :: 0 <= u < g.NumNodes() && distances[u] != NOT_VISITED ==>
          0 <= distances[u] <= d && g.Shortest(ROOT, u, distances[u]))
    && (forall u, e: nat :: 0 <= u < g.NumNodes() && e <= d && g.WalkOf(ROOT, u, e) ==> distances[u] != NOT_VISITED)
    && (forall u :: 0 <= u < g.NumNodes() ==> (frontier[u] <==> distances[u] == d))
  }

  /** A new level starts from here. */
  ghost predicate Starting(g: Csr, distances: seq<int>, frontier: seq<bool>, d: nat, s: Progress) {
    && Levels(g, distances, frontier, d)
    && s.distances == distances && !s.hasNewFrontier && |s.newFrontier| == g.NumNodes()
    && (forall u :: 0 <= u < g.NumNodes() ==> !s.newFrontier[u])
  }

  lemma StartingIsReady(g: Csr, distances: seq<int>, frontier: seq<bool>, d: nat, s: Progress)
    requires Starting(g, distances, frontier, d, s)
    ensures Ready(g, frontier, s)
  {
    hide Csr.Shortest, Csr.WalkOf;
  }

  /** A node reached in this round is one step further than the frontier, and no nearer. */
  lemma NewDistanceIsShortest(g: Csr, distances: seq<int>, frontier: seq<bool>, d: nat, s: Progress, u: nat)
    requires Starting(g, distances, frontier, d, s) && Ready(g, frontier, s) && u < g.NumNodes()
    requires Reached(g, frontier, s, u, g.NumNodes())
    ensures DistanceAfter(g, frontier, s, u, g.NumNodes()) == d + 1 && g.Shortest(ROOT, u, d + 1)
  {
    hide FirstParent, Csr.WalkOf, Csr.Edge;
    var v := FirstParent(g, frontier, u, g.NumNodes());
    assert frontier[v] && distances[v] == d && g.Edge(v, u);
    WalkFurther(g, ROOT, v, u, d);
    assert forall e: nat :: e < d + 1 ==> !g.WalkOf(ROOT, u, e);
  }

  /** Every node with a walk of the new level's length has been reached by now. */
  lemma NewLevelIsComplete(g: Csr, distances: seq<int>, frontier: seq<bool>, d: nat, s: Progress, u: nat)
    requires Starting(g, distances, frontier, d, s) && Ready(g, frontier, s) && u < g.NumNodes() && g.WalkOf(ROOT, u, d + 1)
    ensures distances[u] != NOT_VISITED || Reached(g, frontier, s, u, g.NumNodes())
  {
    var b := WalkBefore(g, ROOT, u, d + 1);
    hide FirstParent, Csr.WalkOf, Csr.Edge;
    assert distances[b] != NOT_VISITED;
    if distances[b] < d {
      WalkFurther(g, ROOT, b, u, distances[b]);
      assert distances[u] != NOT_VISITED;
    } else {
      assert frontier[b] && g.Edge(b, u);
    }
  }

  lemma ScannedAt(g: Csr, frontier: seq<bool>, s: Progress, u: nat)
    requires Ready(g, frontier, s) && u < g.NumNodes()
    ensures var t := Scanned(g, frontier, s);
            t.distances[u] == DistanceAfter(g, frontier, s, u, g.NumNodes())
            && t.newFrontier[u] == (s.newFrontier[u] || Reached(g, frontier, s, u, g.NumNodes()))
  {
    hide Reached, DistanceAfter;
  }

  /** One node after the round. */
  lemma NodeAfterRound(g: Csr, distances: seq<int>, frontier: seq<bool>, d: nat, s: Progress, u: nat)
    requires Starting(g, distances, frontier, d, s) && Ready(g, frontier, s) && u < g.NumNodes()
    ensures var t := Scanned(g, frontier, s);
            && (t.distances[u] != NOT_VISITED ==> 0 <= t.distances[u] <= d + 1 && g.Shortest(ROOT, u, t.distances[u]))
            && (t.newFrontier[u] <==> t.distances[u] == d + 1)
            && (distances[u] != NOT_VISITED || Reached(g, frontier, s, u, g.NumNodes()) ==> t.distances[u] != NOT_VISITED)
  {
    ScannedAt(g, frontier, s, u);
    hide Scanned, Reached, FirstParent, Csr.WalkOf, Csr.Shortest, Csr.Valid;
    if Reached(g, frontier, s, u, g.NumNodes()) {
      NewDistanceIsShortest(g, distances, frontier, d, s, u);
    }
  }

  /** No node within `d + 1` steps is unvisited after the round. */
  lemma NodeInReach(g: Csr, distances: seq<int>, frontier: seq<bool>, d: nat, s: Progress, u: nat, e: nat)
    requires Starting(g, distances, frontier, d, s) && Ready(g, frontier, s) && u < g.NumNodes() && e <= d + 1 && g.WalkOf(ROOT, u, e)
    ensures Scanned(g, frontier, s).distances[u] != NOT_VISITED
  {
    NodeAfterRound(g, distances, frontier, d, s, u);
    hide Scanned, Reached, FirstParent, Csr.WalkOf, Csr.Shortest, Csr.Valid;
    if e == d + 1 {
      NewLevelIsComplete(g, distances, frontier, d, s, u);
    }
  }

  lemma OneMoreLevel(g: Csr, distances: seq<int>, frontier: seq<bool>, d: nat, s: Progress)
    requires Starting(g, distances, frontier, d, s) && Ready(g, frontier, s)
    ensures var t := Scanned(g, frontier, s); Levels(g, t.distances, t.newFrontier, d + 1)
  {
    var n, t := g.NumNodes(), Scanned(g, frontier, s);
    assert g.Valid() && |t.distances| == |t.newFrontier| == n;
    hide Scanned, Reached, FirstParent, Csr.WalkOf, Csr.Shortest, Csr.Valid, Starting, Ready;
    forall u | 0 <= u < n
      ensures t.distances[u] != NOT_VISITED ==> 0 <= t.distances[u] <= d + 1 && g.Shortest(ROOT, u, t.distances[u])
      ensures t.newFrontier[u] <==> t.distances[u] == d + 1
    {
      NodeAfterRound(g, distances, frontier, d, s, u);
    }
    forall u, e: nat | 0 <= u < n && e <= d + 1 && g.WalkOf(ROOT, u, e)
      ensures t.distances[u] != NOT_VISITED
    {
      NodeInReach(g, distances, frontier, d, s, u, e);
    }
  }

  /** The flag says whether the new frontier has a node. */
  lemma FlagIsFrontier(g: Csr, distances: seq<int>, frontier: seq<bool>, d: nat, s: Progress)
    requires Starting(g, distances, frontier, d, s) && Ready(g, frontier, s)
    ensures var t := Scanned(g, frontier, s);
            t.hasNewFrontier || forall u :: 0 <= u < |t.newFrontier| ==> !t.newFrontier[u]
  {
    hide Reached, FirstParent, DistanceAfter, Levels;
  }

  /** An empty level ends the search: nothing further is reachable. */
  lemma {:induction false} NothingBeyond(g: Csr, distances: seq<int>, frontier: seq<bool>, d: nat, u: nat, m: nat)
    requires Levels(g, distances, frontier, d) && forall v :: 0 <= v < g.NumNodes() ==> !frontier[v]
    requires u < g.NumNodes() && g.WalkOf(ROOT, u, m)
    ensures distances[u] != NOT_VISITED
    decreases m
  {
    if m > d {
      var b := WalkBefore(g, ROOT, u, m);
      NothingBeyond(g, distances, frontier, d, b, m - 1);
      WalkFurther(g, ROOT, b, u, distances[b]);
    }
  }

  function Unvisited(distances: seq<int>): nat {
    if |distances| == 0 then 0
    else (if distances[0] == NOT_VISITED then 1 else 0) + Unvisited(distances[1..])
  }

  /** Visiting nodes leaves fewer unvisited. */
  lemma {:induction false} FewerUnvisited(a: seq<int>, b: seq<int>)
    requires |a| == |b| && forall u :: 0 <= u < |a| && a[u] != NOT_VISITED ==> b[u] != NOT_VISITED
    ensures Unvisited(b) <= Unvisited(a)
    ensures (exists u :: 0 <= u < |a| && a[u] == NOT_VISITED && b[u] != NOT_VISITED) ==> Unvisited(b) < Unvisited(a)
  {
    if |a| > 0 {
      FewerUnvisited(a[1..], b[1..]);
      if exists u :: 0 <= u < |a| && a[u] == NOT_VISITED && b[u] != NOT_VISITED {
        var u :| 0 <= u < |a| && a[u] == NOT_VISITED && b[u] != NOT_VISITED;
        if u > 0 {
          assert a[1..][u - 1] == NOT_VISITED && b[1..][u - 1] != NOT_VISITED;
        }
      }
    }
  }

  lemma RoundVisits(g: Csr, frontier: seq<bool>, s: Progress)
    requires Ready(g, frontier, s) && !s.hasNewFrontier
    ensures var t := Scanned(g, frontier, s);
            Unvisited(t.distances) <= Unvisited(s.distances)
            && (t.hasNewFrontier ==> Unvisited(t.distances) < Unvisited(s.distances))
  {
    var n, t := g.NumNodes(), Scanned(g, frontier, s);
    FewerUnvisited(s.distances, t.distances);
    if t.hasNewFrontier {
      var u :| 0 <= u < n && Reached(g, frontier, s, u, n);
      assert s.distances[u] == NOT_VISITED && t.distances[u] != NOT_VISITED;
    }
  }

  lemma RootIsNode(g: Csr)
    requires g.Valid()
    ensures ROOT == 0 < g.NumNodes()
  {
  }

  lemma RootIsLevelZero(g: Csr, distances: seq<int>, frontier: seq<bool>)
    requires g.Valid() && |distances| == |frontier| == g.NumNodes()
    requires distances[ROOT] == 0 && frontier[ROOT]
    requires forall u :: 0 < u < g.NumNodes() ==> distances[u] == NOT_VISITED && !frontier[u]
    ensures Levels(g, distances, frontier, 0)
  {
    EmptyWalk(g, ROOT);
  }

  /** Everything one round does: the next level, and fewer unvisited nodes while there is one. */
  lemma OneRound(g: Csr, distances: seq<int>, frontier: seq<bool>, newFrontier: seq<bool>, d: nat)
    requires Levels(g, distances, frontier, d) && |newFrontier| == g.NumNodes()
    requires forall k :: 0 <= k < |newFrontier| ==> !newFrontier[k]
    ensures var s := Progress(distances, newFrontier, false);
            && Ready(g, frontier, s)
            && var t := Scanned(g, frontier, s);
            && Levels(g, t.distances, t.newFrontier, d + 1)
            && Unvisited(t.distances) <= Unvisited(distances)
            && (t.hasNewFrontier ==> Unvisited(t.distances) < Unvisited(distances))
            && (t.hasNewFrontier || forall u :: 0 <= u < |t.newFrontier| ==> !t.newFrontier[u])
  {
    hide Levels, Scanned, Unvisited;
    var s := Progress(distances, newFrontier, false);
    StartingIsReady(g, distances, frontier, d, s);
    OneMoreLevel(g, distances, frontier, d, s);
    FlagIsFrontier(g, distances, frontier, d, s);
    RoundVisits(g, frontier, s);
  }

  lemma NodeIsOver(g: Csr, distances: seq<int>, frontier: seq<bool>, d: nat, u: nat)
    requires Levels(g, distances, frontier, d) && (forall v :: 0 <= v < g.NumNodes() ==> !frontier[v]) && u < g.NumNodes()
    ensures if distances[u] == NOT_VISITED then forall m: nat :: !g.WalkOf(ROOT, u, m)
            else distances[u] >= 0 && g.Shortest(ROOT, u, distances[u])
  {
    if distances[u] == NOT_VISITED {
      forall m: nat | g.WalkOf(ROOT, u, m)
        ensures false
      {
        NothingBeyond(g, distances, frontier, d, u, m);
      }
    }
  }

  lemma SearchIsOver(g: Csr, distances: seq<int>, frontier: seq<bool>, d: nat)
    requires Levels(g, distances, frontier, d) && forall v :: 0 <= v < g.NumNodes() ==> !frontier[v]
    ensures |distances| == g.NumNodes()
    ensures forall u :: 0 <= u < g.NumNodes() ==>
              if distances[u] == NOT_VISITED then forall m: nat :: !g.WalkOf(ROOT, u, m)
              else distances[u] >= 0 && g.Shortest(ROOT, u, distances[u])
  {
    hide Csr.Shortest, Csr.WalkOf;
    forall u | 0 <= u < g.NumNodes()
      ensures if distances[u] == NOT_VISITED then forall m: nat :: !g.WalkOf(ROOT, u, m)
              else distances[u] >= 0 && g.Shortest(ROOT, u, distances[u])
    {
      NodeIsOver(g, distances, frontier, d, u);
    }
  }

  method ClearFrontier(frontier: array<bool>)
    modifies frontier
    ensures forall k :: 0 <= k < frontier.Length ==> !frontier[k]
  {
    for i := 0 to frontier.Length
      invariant forall k :: 0 <= k < i ==> !frontier[k]
    {
      frontier[i] := false;
    }
  }

  /** The whole search.  If there is a thread handle for every node (the program has 100),
      every node's distance is the length of a shortest walk from the root, and exactly the
      unreachable nodes stay unvisited; otherwise the first step runs out of handles. */
  method BfsTopDown(g: Csr, distances: array<int>, maxThreads: nat) returns (ok: bool)
    requires g.Valid() && distances.Length == g.NumNodes()
    modifies distances
    ensures ok <==> g.NumNodes() <= maxThreads
    ensures ok ==> forall u :: 0 <= u < g.NumNodes() ==>
              if distances[u] == NOT_VISITED then forall m: nat :: !g.WalkOf(ROOT, u, m)
              else distances[u] >= 0 && g.Shortest(ROOT, u, distances[u])
  {
    hide *;
    var n := g.NumNodes();
    RootIsNode(g);
    var frontier := new bool[n](_ => false);
    var newFrontier := new bool[n](_ => false);
    for i := 0 to n
      invariant forall k :: 0 <= k < i ==> distances[k] == NOT_VISITED
      invariant forall k :: 0 <= k < n ==> !frontier[k]
    {
      distances[i] := NOT_VISITED;
    }
    frontier[ROOT] := true;
    distances[ROOT] := 0;
    RootIsLevelZero(g, distances[..], frontier[..]);
    var hasNewFrontier := true;
    ok := true;
    ghost var d := 0;
    while hasNewFrontier
      invariant fresh(frontier) && fresh(newFrontier) && frontier != newFrontier
      invariant frontier.Length == newFrontier.Length == n
      invariant Levels(g, distances[..], frontier[..], d)
      invariant hasNewFrontier || forall v :: 0 <= v < n ==> !frontier[..][v]
      invariant d == 0 ==> hasNewFrontier
      invariant d > 0 ==> n <= maxThreads
      decreases Unvisited(distances[..]), hasNewFrontier
    {
      ClearFrontier(newFrontier);
      hasNewFrontier := false;
      OneRound(g, distances[..], frontier[..], newFrontier[..], d);
      hasNewFrontier, ok := TopDownStep(g, frontier, newFrontier, distances, hasNewFrontier, maxThreads);
      if !ok {
        return;
      }
      frontier, newFrontier := newFrontier, frontier;
      d := d + 1;
    }
    SearchIsOver(g, distances[..], frontier[..], d);
  }

}
