/**
 * The part of a networkx `Graph` the Python scripts under data/ rely on:
 * `add_edge` with and without a weight, the nodes in insertion order,
 * and one stored edge per unordered pair of ends.
 */
module Nx {
  import opened Wrappers

  /** A stored edge: its ends in the order first added, and its `weight` attribute if set. */
  datatype Edge<N> = Edge(u: N, v: N, weight: Option<int>)

  datatype Graph<N> = Graph(nodes: seq<N>, edges: seq<Edge<N>>)

  /** An edge to add: its two ends and the weight given, if any. */
  type Added<N> = (N, N, Option<int>)

  /** The edge joins a and b, in either direction. */
  predicate Joins<N(==)>(e: Edge<N>, a: N, b: N)
  {
    (e.u == a && e.v == b) || (e.u == b && e.v == a)
  }

  predicate HasEdge<N(==)>(g: Graph<N>, a: N, b: N)
  {
    exists i :: 0 <= i < |g.edges| && Joins(g.edges[i], a, b)
  }

  /** Some edge of `es` joins a and b, in either direction. */
  ghost predicate Adds<N>(es: seq<Added<N>>, a: N, b: N)
  {
    exists k :: 0 <= k < |es| && ((es[k].0 == a && es[k].1 == b) || (es[k].0 == b && es[k].1 == a))
  }

  /** Some edge of `es` has x as an end. */
  ghost predicate Touches<N>(es: seq<Added<N>>, x: N)
  {
    exists k :: 0 <= k < |es| && (es[k].0 == x || es[k].1 == x)
  }

  lemma AddsCons<N>(es: seq<Added<N>>, a: N, b: N)
    requires |es| > 0
    ensures Adds(es, a, b) <==> ((es[0].0 == a && es[0].1 == b) || (es[0].0 == b && es[0].1 == a)) || Adds(es[1..], a, b)
  {
    if Adds(es[1..], a, b) {
      var k :| 0 <= k < |es[1..]| && ((es[1..][k].0 == a && es[1..][k].1 == b) || (es[1..][k].0 == b && es[1..][k].1 == a));
      assert es[k + 1] == es[1..][k];
    }
    if Adds(es, a, b) {
      var k :| 0 <= k < |es| && ((es[k].0 == a && es[k].1 == b) || (es[k].0 == b && es[k].1 == a));
      if k > 0 {
        assert es[1..][k - 1] == es[k];
      }
    }
  }

  lemma AddsSnoc<N>(es: seq<Added<N>>, e: Added<N>, a: N, b: N)
    ensures Adds(es + [e], a, b) <==> Adds(es, a, b) || (e.0 == a && e.1 == b) || (e.0 == b && e.1 == a)
  {
    var all := es + [e];
    if Adds(es, a, b) {
      var k :| 0 <= k < |es| && ((es[k].0 == a && es[k].1 == b) || (es[k].0 == b && es[k].1 == a));
      assert all[k] == es[k];
    }
    if (e.0 == a && e.1 == b) || (e.0 == b && e.1 == a) {
      assert all[|es|] == e;
    }
    if Adds(all, a, b) {
      var k :| 0 <= k < |all| && ((all[k].0 == a && all[k].1 == b) || (all[k].0 == b && all[k].1 == a));
      if k < |es| {
        assert all[k] == es[k];
      }
    }
  }

  lemma TouchesCons<N>(es: seq<Added<N>>, x: N)
    requires |es| > 0
    ensures Touches(es, x) <==> es[0].0 == x || es[0].1 == x || Touches(es[1..], x)
  {
    if Touches(es[1..], x) {
      var k :| 0 <= k < |es[1..]| && (es[1..][k].0 == x || es[1..][k].1 == x);
      assert es[k + 1] == es[1..][k];
    }
    if Touches(es, x) {
      var k :| 0 <= k < |es| && (es[k].0 == x || es[k].1 == x);
      if k > 0 {
        assert es[1..][k - 1] == es[k];
      }
    }
  }

  predicate Distinct<N(==)>(s: seq<N>)
  {
    forall i, j :: 0 <= i < j < |s| ==> s[i] != s[j]
  }

  /** Every edge's ends are nodes. */
  predicate EndsKnown<N(==)>(g: Graph<N>)
  {
    forall i :: 0 <= i < |g.edges| ==> g.edges[i].u in g.nodes && g.edges[i].v in g.nodes
  }

  /** No unordered pair is stored twice. */
  predicate NoParallel<N(==)>(edges: seq<Edge<N>>)
  {
    forall i, j :: 0 <= i < j < |edges| ==> !Joins(edges[j], edges[i].u, edges[i].v)
  }

  /**
   * What networkx keeps true: the nodes are distinct, every edge's ends
   * are nodes, and no unordered pair is stored twice.
   */
  predicate Simple<N(==)>(g: Graph<N>)
  {
    Distinct(g.nodes) && EndsKnown(g) && NoParallel(g.edges)
  }

  /** `nx.Graph()`. */
  function Empty<N>(): (r: Graph<N>)
    ensures |r.nodes| == 0 && |r.edges| == 0
  {
    Graph([], [])
  }

  /** A node appended unless it is already there. */
  function AddNode<N(==)>(nodes: seq<N>, x: N): (r: seq<N>)
    ensures x in r && nodes <= r && |r| <= |nodes| + 1
    ensures Distinct(nodes) ==> Distinct(r)
  {
    if x in nodes then nodes else nodes + [x]
  }

  /** A node is in the extended list exactly when it was there or it is the one added. */
  lemma AddNodeMembers<N>(nodes: seq<N>, x: N, y: N)
    ensures y in AddNode(nodes, x) <==> y in nodes || y == x
  {
    if x !in nodes && y in AddNode(nodes, x) && y != x {
      var i :| 0 <= i < |nodes| + 1 && (nodes + [x])[i] == y;
      assert nodes[i] == y;
    }
  }

  /** The index of the edge joining a and b, if there is one. */
  function Find<N(==)>(edges: seq<Edge<N>>, a: N, b: N): (r: Option<nat>)
    ensures r.None? <==> forall i :: 0 <= i < |edges| ==> !Joins(edges[i], a, b)
    ensures r.Some? ==> r.value < |edges| && Joins(edges[r.value], a, b)
  {
    if |edges| == 0 then None
    else if Joins(edges[|edges| - 1], a, b) then Some(|edges| - 1)
    else Find(edges[..|edges| - 1], a, b)
  }

  /**
   * `g.add_edge(a, b)`, or `g.add_edge(a, b, weight=w)` when w is given:
   * missing ends become nodes; a new pair becomes a new edge; for a pair
   * already joined only a given weight changes, the edge keeps its place.
   */
  function AddEdge<N(==)>(g: Graph<N>, a: N, b: N, w: Option<int>): (r: Graph<N>)
    ensures g.nodes <= r.nodes && a in r.nodes && b in r.nodes
    ensures |r.edges| == |g.edges| || |r.edges| == |g.edges| + 1
    ensures forall i :: 0 <= i < |g.edges| ==> r.edges[i].u == g.edges[i].u && r.edges[i].v == g.edges[i].v
  {
    var nodes := AddNode(AddNode(g.nodes, a), b);
    match Find(g.edges, a, b)
    case None => Graph(nodes, g.edges + [Edge(a, b, w)])
    case Some(i) =>
      Graph(nodes, if w.Some? then g.edges[i := g.edges[i].(weight := w)] else g.edges)
  }

  /** The ends of the edges after `add_edge`: the old pairs and the new one, no other. */
  lemma AddEdgeJoins<N>(g: Graph<N>, a: N, b: N, w: Option<int>, x: N, y: N)
    ensures HasEdge(AddEdge(g, a, b, w), x, y) <==> HasEdge(g, x, y) || (x == a && y == b) || (x == b && y == a)
  {
    var r := AddEdge(g, a, b, w);
    var f := Find(g.edges, a, b);
    if HasEdge(r, x, y) {
      var i :| 0 <= i < |r.edges| && Joins(r.edges[i], x, y);
      if i < |g.edges| {
        assert Joins(g.edges[i], x, y);
      }
    }
    if HasEdge(g, x, y) {
      var i :| 0 <= i < |g.edges| && Joins(g.edges[i], x, y);
      assert Joins(r.edges[i], x, y);
    }
    if (x == a && y == b) || (x == b && y == a) {
      if f.None? {
        assert Joins(r.edges[|g.edges|], x, y);
      } else {
        assert Joins(r.edges[f.value], x, y);
      }
    }
  }

  /** The nodes after `add_edge`: the old ones and the two ends, no other. */
  lemma AddEdgeNodes<N>(g: Graph<N>, a: N, b: N, w: Option<int>, x: N)
    ensures x in AddEdge(g, a, b, w).nodes <==> x in g.nodes || x == a || x == b
  {
    AddNodeMembers(g.nodes, a, x);
    AddNodeMembers(AddNode(g.nodes, a), b, x);
  }

  lemma AddEdgeEndsKnown<N>(g: Graph<N>, a: N, b: N, w: Option<int>)
    requires EndsKnown(g)
    ensures EndsKnown(AddEdge(g, a, b, w))
  {
    var r := AddEdge(g, a, b, w);
    forall i | 0 <= i < |r.edges|
      ensures r.edges[i].u in r.nodes && r.edges[i].v in r.nodes
    {
      if i < |g.edges| {
        assert g.edges[i].u in g.nodes && g.edges[i].v in g.nodes;
      }
    }
  }

  /** A pair not yet joined can be appended without storing a pair twice. */
  lemma AppendNoParallel<N>(edges: seq<Edge<N>>, e: Edge<N>)
    requires NoParallel(edges)
    requires forall i :: 0 <= i < |edges| ==> !Joins(edges[i], e.u, e.v)
    ensures NoParallel(edges + [e])
  {
    var r := edges + [e];
    forall i, j | 0 <= i < j < |r|
      ensures !Joins(r[j], r[i].u, r[i].v)
    {
      if j == |edges| {
        assert !Joins(edges[i], e.u, e.v);
      } else {
        assert !Joins(edges[j], edges[i].u, edges[i].v);
      }
    }
  }

  /** A weight change keeps every pair where it was. */
  lemma ReweighNoParallel<N>(edges: seq<Edge<N>>, k: nat, w: Option<int>)
    requires NoParallel(edges) && k < |edges|
    ensures NoParallel(edges[k := edges[k].(weight := w)])
  {
    var r := edges[k := edges[k].(weight := w)];
    forall i, j | 0 <= i < j < |r|
      ensures !Joins(r[j], r[i].u, r[i].v)
    {
      assert !Joins(edges[j], edges[i].u, edges[i].v);
    }
  }

  /** `add_edge` keeps the nodes distinct, the ends known and the pairs unique. */
  lemma AddEdgeSimple<N>(g: Graph<N>, a: N, b: N, w: Option<int>)
    requires Simple(g)
    ensures Simple(AddEdge(g, a, b, w))
  {
    AddEdgeEndsKnown(g, a, b, w);
    match Find(g.edges, a, b)
    case None => AppendNoParallel(g.edges, Edge(a, b, w));
    case Some(k) =>
      if w.Some? {
        ReweighNoParallel(g.edges, k, w);
      }
  }

  /** Every edge added in turn, each with its weight. */
  function AddEdges<N(==)>(g: Graph<N>, es: seq<Added<N>>): (r: Graph<N>)
    ensures g.nodes <= r.nodes
    decreases |es|
  {
    if |es| == 0 then g else AddEdges(AddEdge(g, es[0].0, es[0].1, es[0].2), es[1..])
  }

  /** Adding the edges and then one more is adding the extended sequence. */
  lemma {:induction false} AddEdgesSnoc<N>(g: Graph<N>, es: seq<Added<N>>, e: Added<N>)
    ensures AddEdges(g, es + [e]) == AddEdge(AddEdges(g, es), e.0, e.1, e.2)
    decreases |es|
  {
    if |es| > 0 {
      assert (es + [e])[1..] == es[1..] + [e];
      AddEdgesSnoc(AddEdge(g, es[0].0, es[0].1, es[0].2), es[1..], e);
    } else {
      assert (es + [e])[1..] == [];
    }
  }

  /** Adding a sequence of edges keeps the graph simple. */
  lemma {:induction false} AddEdgesSimple<N>(g: Graph<N>, es: seq<Added<N>>)
    requires Simple(g)
    ensures Simple(AddEdges(g, es))
    decreases |es|
  {
    if |es| > 0 {
      AddEdgeSimple(g, es[0].0, es[0].1, es[0].2);
      AddEdgesSimple(AddEdge(g, es[0].0, es[0].1, es[0].2), es[1..]);
    }
  }

  /**
   * After adding a sequence of edges, a pair is joined exactly when it
   * was joined before or some added edge joins it.
   */
  lemma {:induction false} AddEdgesJoins<N>(g: Graph<N>, es: seq<Added<N>>, x: N, y: N)
    ensures HasEdge(AddEdges(g, es), x, y) <==> HasEdge(g, x, y) || Adds(es, x, y)
    decreases |es|
  {
    if |es| > 0 {
      var g1 := AddEdge(g, es[0].0, es[0].1, es[0].2);
      AddEdgesJoins(g1, es[1..], x, y);
      AddEdgeJoins(g, es[0].0, es[0].1, es[0].2, x, y);
      AddsCons(es, x, y);
    }
  }

  /** After adding a sequence of edges, the nodes are the old ones and the ends of the added edges. */
  lemma {:induction false} AddEdgesNodes<N>(g: Graph<N>, es: seq<Added<N>>, x: N)
    ensures x in AddEdges(g, es).nodes <==> x in g.nodes || Touches(es, x)
    decreases |es|
  {
    if |es| > 0 {
      var g1 := AddEdge(g, es[0].0, es[0].1, es[0].2);
      AddEdgesNodes(g1, es[1..], x);
      AddEdgeNodes(g, es[0].0, es[0].1, es[0].2, x);
      TouchesCons(es, x);
    }
  }
}
