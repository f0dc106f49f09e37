/** Turning outgoing adjacency lists into incoming ones: count, prefix sums, scatter. */
module Transpose {
  import opened Graphs

  function Copies(i: int, n: nat): (r: seq<int>)
    ensures |r| == n && forall k :: 0 <= k < n ==> r[k] == i
  {
    seq(n, _ => i)
  }

  /** The sources of `t`'s incoming edges among the nodes below `i`: each node as often as it links to `t`. */
  function Sources(g: Csr, t: nat, i: nat): seq<int>
    requires g.Valid() && i <= g.NumNodes()
  {
    if i == 0 then [] else Sources(g, t, i - 1) + Copies(i - 1, multiset(g.Out(i - 1))[t])
  }

  /** The same, up to edge `k` of node `i`. */
  function SourcesAt(g: Csr, t: nat, i: nat, k: nat): seq<int>
    requires g.Valid() && i < g.NumNodes() && k <= |g.Out(i)|
  {
    Sources(g, t, i) + Copies(i, multiset(g.Out(i)[..k])[t])
  }

  /** The incoming lists of the nodes below `t`, one after the other. */
  function AllSources(g: Csr, t: nat): seq<int>
    requires g.Valid() && t <= g.NumNodes()
  {
    if t == 0 then [] else AllSources(g, t - 1) + Sources(g, t - 1, g.NumNodes())
  }

  function StartOf(g: Csr, t: nat): nat
    requires g.Valid() && t <= g.NumNodes()
  {
    |AllSources(g, t)|
  }

  function Transposed(g: Csr): Csr
    requires g.Valid()
  {
    Csr(seq(g.NumNodes(), t requires 0 <= t < g.NumNodes() => StartOf(g, t)), AllSources(g, g.NumNodes()))
  }

  // ---------------------------------------------------------------------
  // Sizes
  // ---------------------------------------------------------------------

  /** How many of `s` lie below `n`, value by value. */
  function CountBelow(s: seq<int>, n: nat): nat {
    if n == 0 then 0 else CountBelow(s, n - 1) + multiset(s)[n - 1]
  }

  lemma {:induction false} CountBelowAppend(s: seq<int>, x: int, n: nat)
    ensures CountBelow(s + [x], n) == CountBelow(s, n) + if 0 <= x < n then 1 else 0
  {
    if n > 0 {
      CountBelowAppend(s, x, n - 1);
      assert multiset(s + [x]) == multiset(s) + multiset{x};
    }
  }

  /** Counting value by value counts everything. */
  lemma {:induction false} CountsAll(s: seq<int>, n: nat)
    requires forall k :: 0 <= k < |s| ==> 0 <= s[k] < n
    ensures CountBelow(s, n) == |s|
  {
    if |s| == 0 {
      CountsNothing(n);
    } else {
      var m := |s| - 1;
      CountsAll(s[..m], n);
      CountBelowAppend(s[..m], s[m], n);
      assert s[..m] + [s[m]] == s;
    }
  }

  lemma {:induction false} CountsNothing(n: nat)
    ensures CountBelow([], n) == 0
  {
    if n > 0 {
      CountsNothing(n - 1);
    }
  }

  /** Incoming edges of the nodes below `t` from the nodes below `i`. */
  function Total(g: Csr, t: nat, i: nat): nat
    requires g.Valid() && i <= g.NumNodes()
  {
    if t == 0 then 0 else Total(g, t - 1, i) + |Sources(g, t - 1, i)|
  }

  lemma {:induction false} TotalOneMore(g: Csr, t: nat, i: nat)
    requires g.Valid() && i < g.NumNodes()
    ensures Total(g, t, i + 1) == Total(g, t, i) + CountBelow(g.Out(i), t)
  {
    hide Csr.Valid, Csr.Out;
    if t > 0 {
      TotalOneMore(g, t - 1, i);
    }
  }

  lemma {:induction false} NothingTotal(g: Csr, t: nat)
    requires g.Valid()
    ensures Total(g, t, 0) == 0
  {
    if t > 0 {
      NothingTotal(g, t - 1);
    }
  }

  /** Edges before node `i`. */
  function EdgesBefore(g: Csr, i: nat): int
    requires g.Valid() && i <= g.NumNodes()
  {
    if i == g.NumNodes() then |g.edges| else g.starts[i]
  }

  lemma OutSize(g: Csr, i: nat)
    requires g.Valid() && i < g.NumNodes()
    ensures |g.Out(i)| == EdgesBefore(g, i + 1) - EdgesBefore(g, i)
    ensures forall k :: 0 <= k < |g.Out(i)| ==> 0 <= g.Out(i)[k] < g.NumNodes()
  {
    assert g.starts[i] <= g.EndEdge(i);
  }

  lemma TotalStep(g: Csr, i: nat)
    requires g.Valid() && i < g.NumNodes()
    ensures Total(g, g.NumNodes(), i + 1) - Total(g, g.NumNodes(), i) == EdgesBefore(g, i + 1) - EdgesBefore(g, i)
  {
    hide *;
    OutSize(g, i);
    TotalOneMore(g, g.NumNodes(), i);
    CountsAll(g.Out(i), g.NumNodes());
  }

  lemma TotalAtFirst(g: Csr)
    requires g.Valid() && g.starts[0] == 0
    ensures Total(g, g.NumNodes(), 0) == EdgesBefore(g, 0)
  {
    NothingTotal(g, g.NumNodes());
    hide Total;
  }

  lemma {:induction false} TotalIsEdges(g: Csr, i: nat)
    requires g.Valid() && g.starts[0] == 0 && i <= g.NumNodes()
    ensures Total(g, g.NumNodes(), i) == EdgesBefore(g, i)
  {
    hide *;
    if i == 0 {
      TotalAtFirst(g);
    } else {
      TotalIsEdges(g, i - 1);
      TotalStep(g, i - 1);
    }
  }

  lemma {:induction false} StartIsTotal(g: Csr, t: nat)
    requires g.Valid() && t <= g.NumNodes()
    ensures StartOf(g, t) == Total(g, t, g.NumNodes())
  {
    if t > 0 {
      StartIsTotal(g, t - 1);
    }
  }

  /** Every edge has exactly one slot. */
  lemma SlotsAreEdges(g: Csr)
    requires g.Valid() && g.starts[0] == 0
    ensures StartOf(g, g.NumNodes()) == |g.edges|
  {
    StartIsTotal(g, g.NumNodes());
    TotalIsEdges(g, g.NumNodes());
  }

  lemma {:induction false} StartsGrow(g: Csr, t: nat, u: nat)
    requires g.Valid() && t <= u <= g.NumNodes()
    ensures StartOf(g, t) <= StartOf(g, u)
    ensures t < u ==> StartOf(g, t) + |Sources(g, t, g.NumNodes())| <= StartOf(g, u)
  {
    hide Csr.Valid, Sources;
    if t < u {
      StartsGrow(g, t, u - 1);
    }
  }

  lemma {:induction false} SourcesGrow(g: Csr, t: nat, i: nat, j: nat)
    requires g.Valid() && i <= j <= g.NumNodes()
    ensures |Sources(g, t, i)| <= |Sources(g, t, j)|
  {
    hide Csr.Valid, Csr.Out, Copies;
    if i < j {
      SourcesGrow(g, t, i, j - 1);
    }
  }

  lemma CountOneMore(s: seq<int>, k: nat, t: int)
    requires k < |s|
    ensures multiset(s[..k + 1])[t] == multiset(s[..k])[t] + if s[k] == t then 1 else 0
    ensures multiset(s[..k + 1])[t] <= multiset(s)[t]
  {
    assert s[..k + 1] == s[..k] + [s[k]];
    assert s == s[..k + 1] + s[k + 1..];
    assert multiset(s) == multiset(s[..k + 1]) + multiset(s[k + 1..]);
  }

  lemma CopiesOneMore(i: int, n: nat)
    ensures Copies(i, n + 1) == Copies(i, n) + [i]
  {
  }

  /** The edge at hand is one of its target's incoming edges. */
  lemma OneMoreSource(g: Csr, i: nat, k: nat, t: nat)
    requires g.Valid() && i < g.NumNodes() && k < |g.Out(i)|
    ensures SourcesAt(g, t, i, k + 1) == if t == g.Out(i)[k] then SourcesAt(g, t, i, k) + [i] else SourcesAt(g, t, i, k)
    ensures |SourcesAt(g, t, i, k + 1)| <= |Sources(g, t, g.NumNodes())|
  {
    hide Csr.Valid, Csr.Out, Copies;
    var s := g.Out(i);
    CountOneMore(s, k, t);
    CopiesOneMore(i, multiset(s[..k])[t]);
    SourcesGrow(g, t, i + 1, g.NumNodes());
    assert |Sources(g, t, i + 1)| == |Sources(g, t, i)| + multiset(s)[t];
    hide Sources;
    assert t == s[k] ==> Sources(g, t, i) + (Copies(i, multiset(s[..k])[t]) + [i]) == SourcesAt(g, t, i, k) + [i];
  }

  // ---------------------------------------------------------------------
  // The scatter
  // ---------------------------------------------------------------------

  /** Node `t`'s slots begin with the `filled` sources found so far. */
  ghost predicate Filled(g: Csr, t: nat, incoming: seq<int>, sources: seq<int>, filled: int)
    requires g.Valid() && t < g.NumNodes()
  {
    && filled == |sources| <= |Sources(g, t, g.NumNodes())|
    && StartOf(g, t) + filled <= |incoming|
    && incoming[StartOf(g, t)..StartOf(g, t) + filled] == sources
  }

  /** Up to edge `k` of node `i`, every node's slots are filled in order. */
  ghost predicate Scattered(g: Csr, i: nat, k: nat, incoming: seq<int>, scatter: seq<int>)
    requires g.Valid() && i < g.NumNodes() && k <= |g.Out(i)|
  {
    && |incoming| == |g.edges| && |scatter| == g.NumNodes()
    && forall t {:trigger SourcesAt(g, t, i, k)} :: 0 <= t < g.NumNodes() ==> Filled(g, t, incoming, SourcesAt(g, t, i, k), scatter[t])
  }

  ghost predicate ScatteredBelow(g: Csr, i: nat, incoming: seq<int>, scatter: seq<int>)
    requires g.Valid() && i <= g.NumNodes()
  {
    && |incoming| == |g.edges| && |scatter| == g.NumNodes()
    && forall t {:trigger Sources(g, t, i)} :: 0 <= t < g.NumNodes() ==> Filled(g, t, incoming, Sources(g, t, i), scatter[t])
  }

  /** The next edge's slot. */
  lemma SlotIsFree(g: Csr, i: nat, k: nat, incoming: seq<int>, scatter: seq<int>)
    requires g.Valid() && g.starts[0] == 0 && i < g.NumNodes() && k < |g.Out(i)| && Scattered(g, i, k, incoming, scatter)
    ensures 0 <= g.Out(i)[k] < g.NumNodes()
    ensures var t := g.Out(i)[k];
            && 0 <= scatter[t] < |Sources(g, t, g.NumNodes())|
            && StartOf(g, t) + scatter[t] < |incoming|
  {
    OutSize(g, i);
    hide Csr.Valid, Csr.Out, SourcesAt, StartOf;
    var t := g.Out(i)[k];
    OneMoreSource(g, i, k, t);
    assert Filled(g, t, incoming, SourcesAt(g, t, i, k), scatter[t]);
    StartsGrow(g, t, g.NumNodes());
    SlotsAreEdges(g);
  }

  /** Writing it leaves every other node's slots as they are. */
  lemma FillOne(g: Csr, i: nat, k: nat, incoming: seq<int>, scatter: seq<int>, t: nat)
    requires g.Valid() && g.starts[0] == 0 && i < g.NumNodes() && k < |g.Out(i)| && Scattered(g, i, k, incoming, scatter) && t < g.NumNodes()
    requires 0 <= g.Out(i)[k] < g.NumNodes()
    requires var w := g.Out(i)[k];
             0 <= scatter[w] < |Sources(g, w, g.NumNodes())| && StartOf(g, w) + scatter[w] < |incoming|
    ensures var w := g.Out(i)[k];
            Filled(g, t, incoming[StartOf(g, w) + scatter[w] := i], SourcesAt(g, t, i, k + 1), scatter[w := scatter[w] + 1][t])
  {
    hide Csr.Valid, Csr.Out, SourcesAt, StartOf;
    var w := g.Out(i)[k];
    OneMoreSource(g, i, k, t);
    assert Filled(g, t, incoming, SourcesAt(g, t, i, k), scatter[t]);
    var a, b, p := StartOf(g, t), StartOf(g, t) + scatter[t], StartOf(g, w) + scatter[w];
    var incoming' := incoming[p := i];
    if t == w {
      assert incoming'[a..b + 1] == incoming[a..b] + [i];
    } else if t < w {
      StartsGrow(g, t, w);
      assert incoming'[a..b] == incoming[a..b];
    } else {
      StartsGrow(g, w, t);
      assert incoming'[a..b] == incoming[a..b];
    }
  }

  lemma ScatterOne(g: Csr, i: nat, k: nat, next: nat, incoming: seq<int>, scatter: seq<int>)
    requires g.Valid() && g.starts[0] == 0 && i < g.NumNodes() && k < |g.Out(i)| && next == k + 1
    requires Scattered(g, i, k, incoming, scatter)
    ensures 0 <= g.Out(i)[k] < g.NumNodes() && |scatter| == g.NumNodes() && |incoming| == |g.edges|
    ensures var w := g.Out(i)[k];
            && 0 <= StartOf(g, w) + scatter[w] < |incoming|
            && Scattered(g, i, next, incoming[StartOf(g, w) + scatter[w] := i], scatter[w := scatter[w] + 1])
  {
    SlotIsFree(g, i, k, incoming, scatter);
    var w := g.Out(i)[k];
    assert |incoming| == |g.edges| && |scatter| == g.NumNodes();
    var incoming', scatter' := incoming[StartOf(g, w) + scatter[w] := i], scatter[w := scatter[w] + 1];
    hide Csr.Valid, Csr.Out, SourcesAt, StartOf, Filled;
    forall t | 0 <= t < g.NumNodes()
      ensures Filled(g, t, incoming', SourcesAt(g, t, i, next), scatter'[t])
    {
      FillOne(g, i, k, incoming, scatter, t);
    }
  }

  lemma SourcesAtEnds(g: Csr, t: nat, i: nat)
    requires g.Valid() && i < g.NumNodes()
    ensures SourcesAt(g, t, i, 0) == Sources(g, t, i)
    ensures SourcesAt(g, t, i, |g.Out(i)|) == Sources(g, t, i + 1)
  {
    hide Csr.Valid, Csr.Out;
    assert g.Out(i)[..|g.Out(i)|] == g.Out(i);
    assert Sources(g, t, i) + [] == Sources(g, t, i);
  }

  lemma ScatterNode(g: Csr, i: nat, incoming: seq<int>, scatter: seq<int>)
    requires g.Valid() && i < g.NumNodes() && ScatteredBelow(g, i, incoming, scatter)
    ensures Scattered(g, i, 0, incoming, scatter)
  {
    hide Csr.Valid, Csr.Out, SourcesAt, StartOf, Filled, Sources;
    forall t | 0 <= t < g.NumNodes()
      ensures SourcesAt(g, t, i, 0) == Sources(g, t, i)
    {
      SourcesAtEnds(g, t, i);
    }
  }

  lemma ScatteredNode(g: Csr, i: nat, next: nat, incoming: seq<int>, scatter: seq<int>)
    requires g.Valid() && i < g.NumNodes() && next == i + 1 && Scattered(g, i, |g.Out(i)|, incoming, scatter)
    ensures ScatteredBelow(g, next, incoming, scatter)
  {
    hide Csr.Valid, Csr.Out, SourcesAt, StartOf, Filled, Sources;
    forall t | 0 <= t < g.NumNodes()
      ensures Filled(g, t, incoming, Sources(g, t, next), scatter[t])
    {
      SourcesAtEnds(g, t, i);
    }
  }

  lemma ScatterBegins(g: Csr, incoming: seq<int>, scatter: seq<int>)
    requires g.Valid() && g.starts[0] == 0 && |incoming| == |g.edges| && |scatter| == g.NumNodes()
    requires forall t :: 0 <= t < g.NumNodes() ==> scatter[t] == 0
    ensures ScatteredBelow(g, 0, incoming, scatter)
  {
    hide Csr.Valid, StartOf;
    forall t | 0 <= t < g.NumNodes()
      ensures Filled(g, t, incoming, Sources(g, t, 0), scatter[t])
    {
      StartsGrow(g, t, g.NumNodes());
      SlotsAreEdges(g);
    }
  }

  lemma AllSourcesOneMore(g: Csr, t: nat, next: nat)
    requires g.Valid() && t < g.NumNodes() && next == t + 1
    ensures AllSources(g, next) == AllSources(g, t) + Sources(g, t, g.NumNodes())
    ensures StartOf(g, next) == StartOf(g, t) + |Sources(g, t, g.NumNodes())|
  {
    hide Csr.Valid, Sources;
  }

  lemma FilledSlots(g: Csr, t: nat, incoming: seq<int>, sources: seq<int>, filled: int)
    requires g.Valid() && t < g.NumNodes() && Filled(g, t, incoming, sources, filled)
    ensures StartOf(g, t) + |sources| <= |incoming|
    ensures incoming[..StartOf(g, t) + |sources|] == incoming[..StartOf(g, t)] + sources
  {
    hide Csr.Valid, Sources, StartOf;
    var a, b := StartOf(g, t), StartOf(g, t) + filled;
    assert incoming[..b] == incoming[..a] + incoming[a..b];
  }

  lemma NextSlots(g: Csr, incoming: seq<int>, scatter: seq<int>, t: nat, next: nat)
    requires g.Valid() && ScatteredBelow(g, g.NumNodes(), incoming, scatter) && t < g.NumNodes() && next == t + 1
    requires StartOf(g, t) <= |incoming| && incoming[..StartOf(g, t)] == AllSources(g, t)
    ensures StartOf(g, next) <= |incoming| && incoming[..StartOf(g, next)] == AllSources(g, next)
  {
    assert Filled(g, t, incoming, Sources(g, t, g.NumNodes()), scatter[t]);
    hide *;
    AllSourcesOneMore(g, t, next);
    FilledSlots(g, t, incoming, Sources(g, t, g.NumNodes()), scatter[t]);
  }

  /** Full slots, one node after the other, are the whole array. */
  lemma {:induction false} SlotsTogether(g: Csr, incoming: seq<int>, scatter: seq<int>, t: nat)
    requires g.Valid() && ScatteredBelow(g, g.NumNodes(), incoming, scatter) && t <= g.NumNodes()
    ensures StartOf(g, t) <= |incoming| && incoming[..StartOf(g, t)] == AllSources(g, t)
  {
    hide Csr.Valid, ScatteredBelow, Sources;
    if t > 0 {
      SlotsTogether(g, incoming, scatter, t - 1);
      hide *;
      NextSlots(g, incoming, scatter, t - 1, t);
    } else {
      assert AllSources(g, 0) == [];
    }
  }

  // ---------------------------------------------------------------------
  // Counting
  // ---------------------------------------------------------------------

  ghost predicate Counted(g: Csr, i: nat, k: nat, counts: seq<int>)
    requires g.Valid() && i < g.NumNodes() && k <= |g.Out(i)|
  {
    |counts| == g.NumNodes()
    && forall t {:trigger SourcesAt(g, t, i, k)} :: 0 <= t < g.NumNodes() ==> counts[t] == |SourcesAt(g, t, i, k)|
  }

  ghost predicate CountedBelow(g: Csr, i: nat, counts: seq<int>)
    requires g.Valid() && i <= g.NumNodes()
  {
    |counts| == g.NumNodes()
    && forall t {:trigger Sources(g, t, i)} :: 0 <= t < g.NumNodes() ==> counts[t] == |Sources(g, t, i)|
  }

  lemma CountNode(g: Csr, i: nat, counts: seq<int>)
    requires g.Valid() && i < g.NumNodes() && CountedBelow(g, i, counts)
    ensures Counted(g, i, 0, counts)
  {
    hide Csr.Valid, Csr.Out, SourcesAt, Sources;
    forall t | 0 <= t < g.NumNodes()
      ensures counts[t] == |SourcesAt(g, t, i, 0)|
    {
      SourcesAtEnds(g, t, i);
    }
  }

  lemma CountedNode(g: Csr, i: nat, next: nat, counts: seq<int>)
    requires g.Valid() && i < g.NumNodes() && next == i + 1 && Counted(g, i, |g.Out(i)|, counts)
    ensures CountedBelow(g, next, counts)
  {
    hide Csr.Valid, Csr.Out, SourcesAt, Sources;
    forall t | 0 <= t < g.NumNodes()
      ensures counts[t] == |Sources(g, t, next)|
    {
      SourcesAtEnds(g, t, i);
    }
  }

  lemma CountOne(g: Csr, i: nat, k: nat, next: nat, counts: seq<int>)
    requires g.Valid() && i < g.NumNodes() && k < |g.Out(i)| && next == k + 1 && Counted(g, i, k, counts)
    ensures 0 <= g.Out(i)[k] < g.NumNodes()
    ensures var w := g.Out(i)[k]; Counted(g, i, next, counts[w := counts[w] + 1])
  {
    OutSize(g, i);
    hide Csr.Valid, Csr.Out, SourcesAt, Sources;
    var w := g.Out(i)[k];
    forall t | 0 <= t < g.NumNodes()
      ensures counts[w := counts[w] + 1][t] == |SourcesAt(g, t, i, next)|
    {
      OneMoreSource(g, i, k, t);
    }
  }

  /** How many incoming edges each node has. */
  method CountIncoming(g: Csr) returns (counts: array<int>)
    requires g.Valid()
    ensures fresh(counts) && counts.Length == g.NumNodes()
    ensures forall t :: 0 <= t < g.NumNodes() ==> counts[t] == |Sources(g, t, g.NumNodes())|
  {
    counts := new int[g.NumNodes()](_ => 0);
    assert CountedBelow(g, 0, counts[..]);
    hide CountedBelow, Counted, Sources, SourcesAt;
    for i := 0 to g.NumNodes()
      invariant CountedBelow(g, i, counts[..])
    {
      CountNode(g, i, counts[..]);
      CountEdges(g, i, counts);
      CountedNode(g, i, i + 1, counts[..]);
    }
    CountsAre(g, counts[..]);
  }

  lemma CountsAre(g: Csr, counts: seq<int>)
    requires g.Valid() && CountedBelow(g, g.NumNodes(), counts)
    ensures |counts| == g.NumNodes() && forall t :: 0 <= t < g.NumNodes() ==> counts[t] == |Sources(g, t, g.NumNodes())|
  {
  }

  lemma EdgeAt(g: Csr, i: nat, j: nat)
    requires g.Valid() && i < g.NumNodes() && g.starts[i] <= j < g.EndEdge(i)
    ensures j < |g.edges| && j - g.starts[i] < |g.Out(i)| && g.Out(i)[j - g.starts[i]] == g.edges[j]
  {
  }

  method CountEdge(g: Csr, i: nat, j: nat, counts: array<int>)
    requires g.Valid() && i < g.NumNodes() && g.starts[i] <= j < g.EndEdge(i) && counts.Length == g.NumNodes()
    requires j - g.starts[i] < |g.Out(i)| && Counted(g, i, j - g.starts[i], counts[..])
    modifies counts
    ensures Counted(g, i, j - g.starts[i] + 1, counts[..])
  {
    EdgeAt(g, i, j);
    CountOne(g, i, j - g.starts[i], j - g.starts[i] + 1, counts[..]);
    hide *;
    var targetNode := g.edges[j];
    counts[targetNode] := counts[targetNode] + 1;
  }

  method CountEdges(g: Csr, i: nat, counts: array<int>)
    requires g.Valid() && i < g.NumNodes() && counts.Length == g.NumNodes() && Counted(g, i, 0, counts[..])
    modifies counts
    ensures Counted(g, i, |g.Out(i)|, counts[..])
  {
    var startEdge, endEdge := g.starts[i], g.EndEdge(i);
    assert |g.Out(i)| == endEdge - startEdge && 0 <= startEdge <= endEdge <= |g.edges|;
    hide *;
    for j := startEdge to endEdge
      invariant Counted(g, i, j - startEdge, counts[..])
    {
      CountEdge(g, i, j, counts);
    }
  }

  lemma NextStart(g: Csr, i: nat)
    requires g.Valid() && 1 <= i <= g.NumNodes()
    ensures StartOf(g, i) == StartOf(g, i - 1) + |Sources(g, i - 1, g.NumNodes())|
  {
    hide Csr.Valid, Sources;
  }

  lemma FirstStart(g: Csr)
    requires g.Valid()
    ensures g.NumNodes() >= 1 && StartOf(g, 0) == 0
  {
  }

  /** The prefix sums of the counts. */
  method BuildStarts(g: Csr, counts: array<int>) returns (starts: array<int>)
    requires g.Valid() && counts.Length == g.NumNodes()
    requires forall t :: 0 <= t < g.NumNodes() ==> counts[t] == |Sources(g, t, g.NumNodes())|
    ensures fresh(starts) && starts.Length == g.NumNodes()
    ensures forall t :: 0 <= t < g.NumNodes() ==> starts[t] == StartOf(g, t)
  {
    starts := new int[g.NumNodes()];
    hide *;
    FirstStart(g);
    starts[0] := 0;
    for i := 1 to g.NumNodes()
      invariant forall t :: 0 <= t < i ==> starts[t] == StartOf(g, t)
    {
      NextStart(g, i);
      starts[i] := starts[i - 1] + counts[i - 1];
    }
  }

  method WriteSlot(source: int, targetNode: nat, slot: nat, incoming: array<int>, scatter: array<int>)
    requires incoming != scatter && slot < incoming.Length && targetNode < scatter.Length
    modifies incoming, scatter
    ensures incoming[..] == old(incoming[..])[slot := source]
    ensures scatter[..] == old(scatter[..])[targetNode := old(scatter[..])[targetNode] + 1]
  {
    incoming[slot] := source;
    scatter[targetNode] := scatter[targetNode] + 1;
  }

  method ScatterEdge(g: Csr, i: nat, j: nat, starts: array<int>, incoming: array<int>, scatter: array<int>)
    requires g.Valid() && g.starts[0] == 0 && i < g.NumNodes() && g.starts[i] <= j < g.EndEdge(i)
    requires starts != incoming && starts != scatter && incoming != scatter
    requires starts.Length == scatter.Length == g.NumNodes() && incoming.Length == |g.edges|
    requires forall t :: 0 <= t < g.NumNodes() ==> starts[t] == StartOf(g, t)
    requires j - g.starts[i] < |g.Out(i)| && Scattered(g, i, j - g.starts[i], incoming[..], scatter[..])
    modifies incoming, scatter
    ensures Scattered(g, i, j - g.starts[i] + 1, incoming[..], scatter[..])
  {
    EdgeAt(g, i, j);
    ScatterOne(g, i, j - g.starts[i], j - g.starts[i] + 1, incoming[..], scatter[..]);
    hide *;
    var targetNode := g.edges[j];
    WriteSlot(i, targetNode, starts[targetNode] + scatter[targetNode], incoming, scatter);
  }

  method ScatterEdges(g: Csr, i: nat, starts: array<int>, incoming: array<int>, scatter: array<int>)
    requires g.Valid() && g.starts[0] == 0 && i < g.NumNodes() && starts != incoming && starts != scatter && incoming != scatter
    requires starts.Length == scatter.Length == g.NumNodes() && incoming.Length == |g.edges|
    requires forall t :: 0 <= t < g.NumNodes() ==> starts[t] == StartOf(g, t)
    requires Scattered(g, i, 0, incoming[..], scatter[..])
    modifies incoming, scatter
    ensures Scattered(g, i, |g.Out(i)|, incoming[..], scatter[..])
  {
    var startEdge, endEdge := g.starts[i], g.EndEdge(i);
    assert |g.Out(i)| == endEdge - startEdge && 0 <= startEdge <= endEdge <= |g.edges|;
    hide *;
    for j := startEdge to endEdge
      invariant Scattered(g, i, j - startEdge, incoming[..], scatter[..])
    {
      ScatterEdge(g, i, j, starts, incoming, scatter);
    }
  }

  method Scatter(g: Csr, starts: array<int>) returns (incoming: array<int>)
    requires g.Valid() && g.starts[0] == 0 && starts.Length == g.NumNodes()
    requires forall t :: 0 <= t < g.NumNodes() ==> starts[t] == StartOf(g, t)
    ensures fresh(incoming) && incoming[..] == AllSources(g, g.NumNodes())
  {
    incoming := new int[|g.edges|];
    var scatter := new int[g.NumNodes()](_ => 0);
    ScatterBegins(g, incoming[..], scatter[..]);
    hide ScatteredBelow, Scattered, Sources, SourcesAt, StartOf, AllSources, Csr.Valid;
    for i := 0 to g.NumNodes()
      invariant ScatteredBelow(g, i, incoming[..], scatter[..])
    {
      ScatterNode(g, i, incoming[..], scatter[..]);
      ScatterEdges(g, i, starts, incoming, scatter);
      ScatteredNode(g, i, i + 1, incoming[..], scatter[..]);
    }
    SlotsTogether(g, incoming[..], scatter[..], g.NumNodes());
    SlotsAreEdges(g);
    assert incoming[..][..|g.edges|] == incoming[..];
    assert StartOf(g, g.NumNodes()) == |g.edges|;
  }

  /** A loaded graph, whose incoming lists are built from its outgoing ones. */
  class Graph {
    const outgoing: Csr
    var incomingStarts: array<int>
    var incomingEdges: array<int>

    constructor (outgoing: Csr)
      ensures this.outgoing == outgoing
    {
      this.outgoing := outgoing;
      incomingStarts := new int[0];
      incomingEdges := new int[0];
    }

    method BuildIncomingEdges()
      requires outgoing.Valid() && outgoing.starts[0] == 0
      modifies this
      ensures fresh(incomingStarts) && fresh(incomingEdges)
      ensures Csr(incomingStarts[..], incomingEdges[..]) == Transposed(outgoing)
    {
      var nodeCounts := CountIncoming(outgoing);
      incomingStarts := BuildStarts(outgoing, nodeCounts);
      incomingEdges := Scatter(outgoing, incomingStarts);
      assert incomingStarts[..] == Transposed(outgoing).starts;
    }
  }

  // ---------------------------------------------------------------------
  // What the incoming lists say
  // ---------------------------------------------------------------------

  lemma TransposedSizes(g: Csr)
    requires g.Valid() && g.starts[0] == 0
    ensures var h := Transposed(g);
            && h.NumNodes() == g.NumNodes() && |h.edges| == |g.edges| && h.starts[0] == 0
            && forall t :: 0 <= t < g.NumNodes() ==> h.starts[t] == StartOf(g, t) && h.EndEdge(t) == StartOf(g, t + 1)
  {
    SlotsAreEdges(g);
    hide Csr.Valid, Sources;
  }

  lemma {:induction false} SourcesInRange(g: Csr, t: nat, i: nat)
    requires g.Valid() && i <= g.NumNodes()
    ensures forall k :: 0 <= k < |Sources(g, t, i)| ==> 0 <= Sources(g, t, i)[k] < i
  {
    hide Csr.Valid, Csr.Out;
    if i > 0 {
      SourcesInRange(g, t, i - 1);
    }
  }

  lemma {:induction false} AllSourcesInRange(g: Csr, t: nat)
    requires g.Valid() && t <= g.NumNodes()
    ensures forall k :: 0 <= k < |AllSources(g, t)| ==> 0 <= AllSources(g, t)[k] < g.NumNodes()
  {
    hide Csr.Valid, Sources;
    if t > 0 {
      AllSourcesInRange(g, t - 1);
      SourcesInRange(g, t - 1, g.NumNodes());
    }
  }

  /** The result is a well-formed graph of the same size. */
  lemma TransposedIsValid(g: Csr)
    requires g.Valid() && g.starts[0] == 0
    ensures Transposed(g).Valid() && Transposed(g).starts[0] == 0
    ensures Transposed(g).NumNodes() == g.NumNodes() && |Transposed(g).edges| == |g.edges|
  {
    var n, h := g.NumNodes(), Transposed(g);
    TransposedSizes(g);
    AllSourcesInRange(g, n);
    SlotsAreEdges(g);
    assert n >= 1;
    forall t | 0 <= t < n
      ensures 0 <= h.starts[t] <= h.EndEdge(t) <= |h.edges|
    {
      StartsGrow(g, t, t + 1);
      StartsGrow(g, t + 1, n);
    }
    hide AllSources, StartOf;
  }

  lemma {:induction false} SliceOfAll(g: Csr, t: nat, u: nat)
    requires g.Valid() && t < u <= g.NumNodes()
    ensures StartOf(g, t) <= StartOf(g, t + 1) <= StartOf(g, u)
    ensures AllSources(g, u)[StartOf(g, t)..StartOf(g, t + 1)] == Sources(g, t, g.NumNodes())
  {
    hide Csr.Valid, Sources;
    if t + 1 < u {
      SliceOfAll(g, t, u - 1);
      var a, b := StartOf(g, t), StartOf(g, t + 1);
      assert AllSources(g, u)[a..b] == AllSources(g, u - 1)[a..b];
    }
  }

  /** Node `t`'s incoming list. */
  lemma IncomingList(g: Csr, t: nat)
    requires g.Valid() && g.starts[0] == 0 && t < g.NumNodes()
    ensures Transposed(g).Valid() && Transposed(g).NumNodes() == g.NumNodes()
    ensures Transposed(g).Out(t) == Sources(g, t, g.NumNodes())
  {
    TransposedIsValid(g);
    TransposedSizes(g);
    SliceOfAll(g, t, g.NumNodes());
    hide Csr.Valid, Sources, AllSources, StartOf;
  }

  lemma CountsAdd(a: seq<int>, b: seq<int>, x: int)
    ensures multiset(a + b)[x] == multiset(a)[x] + multiset(b)[x]
  {
  }

  lemma {:induction false} SourceMultiplicity(g: Csr, t: nat, i: nat, node: nat)
    requires g.Valid() && i <= g.NumNodes() && node < g.NumNodes()
    ensures multiset(Sources(g, t, i))[node] == if node < i then multiset(g.Out(node))[t] else 0
  {
    hide Csr.Valid, Csr.Out;
    if i > 0 {
      var n := multiset(g.Out(i - 1))[t];
      SourceMultiplicity(g, t, i - 1, node);
      CopiesMultiplicity(i - 1, n, node);
      assert Sources(g, t, i) == Sources(g, t, i - 1) + Copies(i - 1, n);
      hide *;
      CountsAdd(Sources(g, t, i - 1), Copies(i - 1, n), node);
    }
  }

  lemma {:induction false} CopiesMultiplicity(i: int, n: nat, x: int)
    ensures multiset(Copies(i, n))[x] == if x == i then n else 0
  {
    if n > 0 {
      CopiesMultiplicity(i, n - 1, x);
      CopiesOneMore(i, n - 1);
    } else {
      assert Copies(i, 0) == [];
    }
  }

  lemma {:induction false} SourcesAreOrdered(g: Csr, t: nat, i: nat)
    requires g.Valid() && i <= g.NumNodes()
    ensures forall a, b :: 0 <= a < b < |Sources(g, t, i)| ==> Sources(g, t, i)[a] <= Sources(g, t, i)[b]
  {
    hide Csr.Valid, Csr.Out;
    if i > 0 {
      SourcesAreOrdered(g, t, i - 1);
      SourcesInRange(g, t, i - 1);
    }
  }

  /** Edges are reversed with their multiplicity, and every incoming list is in source order. */
  lemma TransposeReversesEdges(g: Csr, i: nat, t: nat)
    requires g.Valid() && g.starts[0] == 0 && i < g.NumNodes() && t < g.NumNodes()
    ensures Transposed(g).Valid() && Transposed(g).NumNodes() == g.NumNodes()
    ensures multiset(Transposed(g).Out(t))[i] == multiset(g.Out(i))[t]
    ensures Transposed(g).Edge(t, i) <==> g.Edge(i, t)
    ensures var list := Transposed(g).Out(t); forall a, b :: 0 <= a < b < |list| ==> list[a] <= list[b]
  {
    IncomingList(g, t);
    SourceMultiplicity(g, t, g.NumNodes(), i);
    SourcesAreOrdered(g, t, g.NumNodes());
    hide Transposed, Csr.Valid, Csr.Out, Sources;
    assert i in Transposed(g).Out(t) <==> i in multiset(Transposed(g).Out(t));
    assert t in g.Out(i) <==> t in multiset(g.Out(i));
  }

  lemma OutInRange(g: Csr, i: nat, x: int)
    requires g.Valid() && i < g.NumNodes() && multiset(g.Out(i))[x] > 0
    ensures 0 <= x < g.NumNodes()
  {
    assert x in g.Out(i);
  }

  /** Transposing twice restores every adjacency list up to order; the order becomes ascending. */
  lemma TransposeTwice(g: Csr, i: nat)
    requires g.Valid() && g.starts[0] == 0 && i < g.NumNodes()
    ensures Transposed(g).Valid() && Transposed(Transposed(g)).Valid()
    ensures Transposed(Transposed(g)).NumNodes() == g.NumNodes()
    ensures multiset(Transposed(Transposed(g)).Out(i)) == multiset(g.Out(i))
  {
    TransposedIsValid(g);
    var h := Transposed(g);
    TransposedIsValid(h);
    var k := Transposed(h);
    hide Transposed, Csr.Valid, Csr.Out;
    forall x
      ensures multiset(k.Out(i))[x] == multiset(g.Out(i))[x]
    {
      if 0 <= x < g.NumNodes() {
        TransposeReversesEdges(h, x, i);
        TransposeReversesEdges(g, i, x);
      } else {
        if multiset(k.Out(i))[x] > 0 {
          OutInRange(k, i, x);
        }
        if multiset(g.Out(i))[x] > 0 {
          OutInRange(g, i, x);
        }
      }
    }
  }

  // ---------------------------------------------------------------------
  // Every slot is written once
  // ---------------------------------------------------------------------

  /** Where the scatter puts edge `k` of node `i`. */
  function Slot(g: Csr, i: nat, k: nat): int
    requires g.Valid() && i < g.NumNodes() && k < |g.Out(i)|
  {
    OutSize(g, i);
    StartOf(g, g.Out(i)[k]) + |SourcesAt(g, g.Out(i)[k], i, k)|
  }

  lemma PrefixCounts(s: seq<int>, a: nat, b: nat, t: int)
    requires a <= b <= |s|
    ensures multiset(s[..a])[t] <= multiset(s[..b])[t]
  {
    assert s[..b] == s[..a] + s[a..b];
    assert multiset(s[..b]) == multiset(s[..a]) + multiset(s[a..b]);
  }

  /** Later edges find more sources in place. */
  lemma SourcesAtGrow(g: Csr, t: nat, i: nat, k: nat, j: nat, l: nat)
    requires g.Valid() && i < g.NumNodes() && k <= |g.Out(i)| && j < g.NumNodes() && l <= |g.Out(j)|
    requires i < j || (i == j && k <= l)
    ensures |SourcesAt(g, t, i, k)| <= |SourcesAt(g, t, j, l)|
  {
    hide Csr.Valid, Csr.Out;
    if i == j {
      PrefixCounts(g.Out(i), k, l, t);
    } else {
      PrefixCounts(g.Out(i), k, |g.Out(i)|, t);
      assert g.Out(i)[..|g.Out(i)|] == g.Out(i);
      SourcesGrow(g, t, i + 1, j);
    }
  }

  /** Two different edges never share a slot, and there are as many edges as slots. */
  lemma SlotsAreDistinct(g: Csr, i: nat, k: nat, j: nat, l: nat)
    requires g.Valid() && g.starts[0] == 0
    requires i < g.NumNodes() && k < |g.Out(i)| && j < g.NumNodes() && l < |g.Out(j)|
    requires i < j || (i == j && k < l)
    ensures 0 <= Slot(g, i, k) < |g.edges| && 0 <= Slot(g, j, l) < |g.edges| && Slot(g, i, k) != Slot(g, j, l)
  {
    OutSize(g, i);
    OutSize(g, j);
    hide Csr.Valid, Csr.Out, SourcesAt, StartOf;
    var t, u := g.Out(i)[k], g.Out(j)[l];
    OneMoreSource(g, i, k, t);
    OneMoreSource(g, j, l, u);
    SlotsAreEdges(g);
    StartsGrow(g, t, g.NumNodes());
    StartsGrow(g, u, g.NumNodes());
    if t == u {
      SourcesAtGrow(g, t, i, k + 1, j, l);
    } else if t < u {
      StartsGrow(g, t, u);
    } else {
      StartsGrow(g, u, t);
    }
  }
}
