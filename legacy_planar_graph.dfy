/**
 * The older `PlanarGraph` (src/structure/planar/planar_graph.rs): like the
 * newer one it stores every directed edge once in `lines` and lists edge
 * positions per vertex, but it also keeps an explicit edge counter `m`,
 * and its dual is a graph of basic edges.
 */
module LegacyPlanarGraphs {
  import opened AdjLists
  import Edges
  import Graphs
  import Points
  import LegacyPlanarEdges

  type PlanarEdgeImpl = LegacyPlanarEdges.PlanarEdgeImpl

  /** `PlanarEdgeImpl::to` as a function value. */
  function To(e: PlanarEdgeImpl): nat { e.to }

  class PlanarGraph {
    var points: seq<Points.Point>
    var lines: seq<PlanarEdgeImpl>
    var adj: seq<seq<nat>>
    const dual: Graphs.UndirectedGraph<Edges.BasicEdge>
    /** `m`: the edge counter, bumped by `add_edge`. */
    var m: nat

    /** Every listed position points into `lines`. */
    ghost predicate Indexed()
      reads this
    {
      forall u, i :: 0 <= u < |adj| && 0 <= i < |adj[u]| ==> adj[u][i] < |lines|
    }

    /**
     * The shape `add_edge` keeps: two lines per counted edge, the second
     * the reversal of the first, every listed position an edge leaving its
     * own vertex, and one position per line.
     */
    ghost predicate Valid()
      reads this
    {
      Shaped(lines, adj, m)
    }

    /** `new(points, lines, adj_list, dual, m)`: the parts stored as given. */
    constructor (points: seq<Points.Point>, lines: seq<PlanarEdgeImpl>, adj: seq<seq<nat>>,
                 dual: Graphs.UndirectedGraph<Edges.BasicEdge>, m: nat)
      ensures this.points == points && this.lines == lines && this.adj == adj
      ensures this.dual == dual && this.m == m
    {
      this.points := points;
      this.lines := lines;
      this.adj := adj;
      this.dual := dual;
      this.m := m;
    }

    /** `n()`: the number of points. */
    function N(): (r: nat)
      reads this
      ensures r == |points|
    {
      |points|
    }

    /** `f()`: the faces are the vertices of the dual, one list each. */
    function F(): (r: nat)
      reads this, dual
      ensures r == dual.n
      ensures dual.Valid() ==> r == |dual.adj|
    {
      dual.n
    }

    /** `N(u)`: the lines listed for u, in the order of u's list. */
    function Neighbourhood(u: nat): (r: seq<PlanarEdgeImpl>)
      reads this
      requires u < |adj| && Indexed()
      ensures |r| == |adj[u]|
      ensures forall i :: 0 <= i < |r| ==> r[i] == lines[adj[u][i]]
      ensures Valid() ==> forall e :: e in r ==> e.from == u
    {
      var idx, ls := adj[u], lines;
      seq(|idx|, i requires 0 <= i < |idx| => ls[idx[i]])
    }

    /**
     * `add_edge(e)`: e and then its reversal appended to the lines, their
     * positions to the lists of e's tail and head, and the counter bumped.
     */
    method AddEdge(e: PlanarEdgeImpl)
      requires e.from < |adj| && e.to < |adj|
      modifies this
      ensures points == old(points)
      ensures lines == old(lines) + [e, LegacyPlanarEdges.Reverse(e)]
      ensures adj == Push(Push(old(adj), e.from, |old(lines)|), e.to, |old(lines)| + 1)
      ensures m == old(m) + 1
      ensures old(Valid()) ==> Valid()
    {
      AddEdgeKeeps(lines, adj, m, e);
      adj := Push(Push(adj, e.from, |lines|), e.to, |lines| + 1);
      lines := lines + [e, LegacyPlanarEdges.Reverse(e)];
      m := m + 1;
    }

    /** `is_adjacent(u, v)`: some line listed for u arrives at v. */
    function IsAdjacent(u: nat, v: nat): (r: bool)
      reads this
      requires u < |adj| && Indexed()
      ensures r <==> exists i :: 0 <= i < |adj[u]| && lines[adj[u][i]].to == v
    {
      AnyTo(Neighbourhood(u), To, v)
    }
  }

  /** The shape of `Valid`, on values. */
  ghost predicate Shaped(lines: seq<PlanarEdgeImpl>, adj: seq<seq<nat>>, m: nat)
  {
    && |lines| == 2 * m
    && (forall i :: 0 <= i < |lines| && i % 2 == 1 ==> lines[i] == LegacyPlanarEdges.Reverse(lines[i - 1]))
    && (forall u, i :: 0 <= u < |adj| && 0 <= i < |adj[u]| ==> adj[u][i] < |lines| && lines[adj[u][i]].from == u)
    && TotalLen(adj) == |lines|
  }

  /** `add_edge` keeps the shape, with the counter one higher. */
  lemma AddEdgeKeeps(lines: seq<PlanarEdgeImpl>, adj: seq<seq<nat>>, m: nat, e: PlanarEdgeImpl)
    requires e.from < |adj| && e.to < |adj|
    ensures Shaped(lines, adj, m) ==>
      Shaped(lines + [e, LegacyPlanarEdges.Reverse(e)], Push(Push(adj, e.from, |lines|), e.to, |lines| + 1), m + 1)
  {
    var ls := lines + [e, LegacyPlanarEdges.Reverse(e)];
    var one: seq<seq<nat>> := Push(adj, e.from, |lines|);
    var two: seq<seq<nat>> := Push(one, e.to, |lines| + 1);
    TotalLenPush<nat>(adj, e.from, |lines|);
    TotalLenPush<nat>(one, e.to, |lines| + 1);
    if Shaped(lines, adj, m) {
      forall u, i | 0 <= u < |two| && 0 <= i < |two[u]|
        ensures two[u][i] < |ls| && ls[two[u][i]].from == u
      {
        if u == e.to && i == |two[u]| - 1 {
        } else if u == e.from && i == |one[u]| - 1 {
          assert two[u][i] == one[u][i];
        } else {
          assert two[u][i] == adj[u][i];
        }
      }
      forall i | 0 <= i < |ls| && i % 2 == 1
        ensures ls[i] == LegacyPlanarEdges.Reverse(ls[i - 1])
      {
        if i < |lines| {
          assert ls[i] == lines[i] && ls[i - 1] == lines[i - 1];
        }
      }
      assert TotalLen(two) == |ls|;
    }
  }
}
