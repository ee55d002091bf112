/** The directed weighted graph the router builds and the route search
    reads: a fixed number of vertices and a growing list of edges, each
    identified by its position in the list. */
module Graphs {

  datatype Edge = Edge(from: nat, to: nat, weight: real)

  datatype Graph = Graph(vertexCount: nat, edges: seq<Edge>)

  /** A graph of n vertices and no edges. */
  function NewGraph(n: nat): (g: Graph)
    ensures g.vertexCount == n && g.edges == []
  {
    Graph(n, [])
  }

  /** `AddEdge`: append the edge and return its id, the number of edges
      before it. */
  function AddEdge(g: Graph, e: Edge): (r: (Graph, nat))
    ensures r.0.vertexCount == g.vertexCount
    ensures r.1 == |g.edges| && |r.0.edges| == |g.edges| + 1
    ensures r.0.edges[r.1] == e && r.0.edges[..r.1] == g.edges
  {
    (Graph(g.vertexCount, g.edges + [e]), |g.edges|)
  }

  /** Every edge joins two vertices of the graph. */
  predicate EndpointsInRange(g: Graph)
  {
    forall k | 0 <= k < |g.edges| :: g.edges[k].from < g.vertexCount && g.edges[k].to < g.vertexCount
  }

  /** The result of a route search: its total weight and the ids of the
      edges it takes. */
  datatype RouteInfo = RouteInfo(weight: real, edges: seq<nat>)

  /** Entries base, base+1, ... of a map from edge ids overwritten by the
      values xs in order, as `m[id] = value` does for freshly added edges. */
  function Record<X>(m: map<nat, X>, base: nat, xs: seq<X>): map<nat, X>
    decreases |xs|
  {
    if xs == [] then m else Record(m, base, xs[..|xs| - 1])[base + |xs| - 1 := xs[|xs| - 1]]
  }

  /** What Record stores: the new values at their ids, the old entries
      elsewhere. */
  lemma {:induction false} RecordLookup<X>(m: map<nat, X>, base: nat, xs: seq<X>, k: nat)
    ensures k in Record(m, base, xs) <==> k in m || base <= k < base + |xs|
    ensures base <= k < base + |xs| ==> Record(m, base, xs)[k] == xs[k - base]
    ensures k in m && !(base <= k < base + |xs|) ==> Record(m, base, xs)[k] == m[k]
    decreases |xs|
  {
    if xs != [] {
      RecordLookup(m, base, xs[..|xs| - 1], k);
    }
  }

  /** Recording a + b is recording a, then b after it. */
  lemma {:induction false} RecordAppend<X>(m: map<nat, X>, base: nat, a: seq<X>, b: seq<X>)
    ensures Record(m, base, a + b) == Record(Record(m, base, a), base + |a|, b)
    decreases |b|
  {
    if b != [] {
      var n := |b|;
      assert (a + b)[..|a + b| - 1] == a + b[..n - 1];
      RecordAppend(m, base, a, b[..n - 1]);
    } else {
      assert a + b == a;
    }
  }
}
