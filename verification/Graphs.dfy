/** Directed graphs in compressed adjacency form, as the graph loader leaves them. */
module Graphs {

  /** Node `v`'s outgoing edges are `edges[starts[v]..EndEdge(v)]`. */
  datatype Csr = Csr(starts: seq<int>, edges: seq<int>)
  {
    function NumNodes(): nat { |starts| }

    function EndEdge(v: nat): int
      requires v < NumNodes()
    {
      if v == NumNodes() - 1 then |edges| else starts[v + 1]
    }

    predicate Valid() {
      && 1 <= NumNodes()
      && (forall v {:trigger EndEdge(v)} :: 0 <= v < NumNodes() ==> 0 <= starts[v] <= EndEdge(v) <= |edges|)
      && (forall j :: 0 <= j < |edges| ==> 0 <= edges[j] < NumNodes())
    }

    function Out(v: nat): seq<int>
      requires Valid() && v < NumNodes()
    {
      var end := EndEdge(v);
      edges[starts[v]..end]
    }

    predicate Edge(u: nat, v: nat)
      requires Valid() && u < NumNodes()
    {
      v in Out(u)
    }

    /** A nonempty sequence of nodes, each linked to the next. */
    ghost predicate Walk(p: seq<nat>)
      requires Valid()
    {
      && |p| > 0
      && (forall k :: 0 <= k < |p| ==> p[k] < NumNodes())
      && (forall k :: 0 <= k < |p| - 1 ==> Edge(p[k], p[k + 1]))
    }

    /** A walk with `d` edges leads from `a` to `b`. */
    ghost predicate WalkOf(a: nat, b: nat, d: nat)
      requires Valid()
    {
      exists p :: Walk(p) && |p| == d + 1 && p[0] == a && p[d] == b
    }

    /** `d` is the length of a shortest walk from `a` to `b`. */
    ghost predicate Shortest(a: nat, b: nat, d: nat)
      requires Valid()
    {
      WalkOf(a, b, d) && forall e: nat :: e < d ==> !WalkOf(a, b, e)
    }
  }

  lemma EmptyWalk(g: Csr, a: nat)
    requires g.Valid() && a < g.NumNodes()
    ensures g.WalkOf(a, a, 0)
  {
    assert g.Walk([a]);
  }

  lemma WalkFurther(g: Csr, a: nat, b: nat, c: nat, d: nat)
    requires g.Valid() && g.WalkOf(a, b, d) && b < g.NumNodes() && c < g.NumNodes() && g.Edge(b, c)
    ensures g.WalkOf(a, c, d + 1)
  {
    var p :| g.Walk(p) && |p| == d + 1 && p[0] == a && p[d] == b;
    var q := p + [c];
    forall k | 0 <= k < |q| - 1
      ensures g.Edge(q[k], q[k + 1])
    {
      if k < d {
        assert g.Edge(p[k], p[k + 1]);
      }
    }
    assert g.Walk(q);
  }

  /** The last step of a walk. */
  lemma WalkBefore(g: Csr, a: nat, c: nat, d: nat) returns (b: nat)
    requires g.Valid() && 1 <= d && g.WalkOf(a, c, d)
    ensures b < g.NumNodes() && c < g.NumNodes() && g.WalkOf(a, b, d - 1) && g.Edge(b, c)
  {
    var p :| g.Walk(p) && |p| == d + 1 && p[0] == a && p[d] == c;
    b := p[d - 1];
    assert g.Walk(p[..d]) && p[..d][d - 1] == b;
    assert g.Edge(p[d - 1], p[d - 1 + 1]);
  }
}
