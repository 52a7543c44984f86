/**
 * `PlanarGraph` (src/structure/graph/planar/planar_graph.rs): an embedded
 * graph that stores every directed edge once in `lines`, lists for every
 * vertex the positions of the edges leaving it, and keeps its dual graph.
 */
module PlanarGraphs {
  import opened Wrappers
  import opened AdjLists
  import Points
  import Edges
  import Graphs
  import PlanarEdges

  type PlanarEdge = PlanarEdges.PlanarEdge

  /** `PlanarEdge::to` as a function value. */
  function To(e: PlanarEdge): nat { e.to }

  class PlanarGraph {
    var points: seq<Points.Point>
    /** `lines`: every directed edge, each undirected edge as two neighbours. */
    var lines: seq<PlanarEdge>
    /** `adj_list`: for every vertex, the positions in `lines` of the edges leaving it. */
    var adj: seq<seq<nat>>
    const dual: Graphs.UndirectedGraph<PlanarEdge>

    /** Every listed position points into `lines`. */
    ghost predicate Indexed()
      reads this
    {
      forall u, i :: 0 <= u < |adj| && 0 <= i < |adj[u]| ==> adj[u][i] < |lines|
    }

    /**
     * The shape `add_edge` keeps: lines come in pairs of an edge and its
     * reversal, every listed position is an edge leaving its own vertex, and
     * the lists hold as many positions as there are lines.
     */
    ghost predicate Valid()
      reads this
    {
      Shaped(lines, adj)
    }

    /** `new(points, lines, adj_list, dual)`: the four parts stored as given. */
    constructor (points: seq<Points.Point>, lines: seq<PlanarEdge>, adj: seq<seq<nat>>, dual: Graphs.UndirectedGraph<PlanarEdge>)
      ensures this.points == points && this.lines == lines && this.adj == adj && this.dual == dual
    {
      this.points := points;
      this.lines := lines;
      this.adj := adj;
      this.dual := dual;
    }

    /** `n()`: the number of points. */
    function N(): (r: nat)
      reads this
      ensures r == |points|
    {
      |points|
    }

    /**
     * `m()`: every undirected edge is stored as two lines, so in a valid
     * graph the count is exact: two lines and two list entries per edge.
     */
    function M(): (r: nat)
      reads this
      ensures 2 * r <= |lines| < 2 * r + 2
      ensures Valid() ==> 2 * r == |lines| && 2 * r == TotalLen(adj)
    {
      |lines| / 2
    }

    /** `f()`: the faces are the vertices of the dual, one list each. */
    function F(): (r: nat)
      reads this, dual
      ensures r == dual.n
      ensures dual.Valid() ==> r == |dual.adj|
    {
      dual.n
    }

    /** `N(u)`: the lines listed for u, in the order of u's list. */
    function Neighbourhood(u: nat): (r: seq<PlanarEdge>)
      reads this
      requires u < |adj| && Indexed()
      ensures |r| == |adj[u]|
      ensures forall i :: 0 <= i < |r| ==> r[i] == lines[adj[u][i]]
      ensures Valid() ==> forall e :: e in r ==> e.from == u
    {
      var idx, ls := adj[u], lines;
      seq(|idx|, i requires 0 <= i < |idx| => ls[idx[i]])
    }

    /**
     * `add_edge(e)`: e and then its reversal are appended to the lines, and
     * their positions to the lists of e's tail and e's head.
     */
    method AddEdge(e: PlanarEdge)
      requires e.from < |adj| && e.to < |adj|
      modifies this
      ensures points == old(points)
      ensures lines == old(lines) + [e, PlanarEdges.Reverse(e)]
      ensures adj == Push(Push(old(adj), e.from, |old(lines)|), e.to, |old(lines)| + 1)
      ensures M() == old(M()) + 1
      ensures old(Valid()) ==> Valid()
    {
      ShapedAddEdge(lines, adj, e);
      adj := Push(Push(adj, e.from, |lines|), e.to, |lines| + 1);
      lines := lines + [e, PlanarEdges.Reverse(e)];
    }

    /** `is_adjacent(u, v)`: some line listed for u arrives at v. */
    function IsAdjacent(u: nat, v: nat): (r: bool)
      reads this
      requires u < |adj| && Indexed()
      ensures r <==> exists i :: 0 <= i < |adj[u]| && lines[adj[u][i]].to == v
    {
      AnyTo(Neighbourhood(u), To, v)
    }

    /** `find_edges(u, v)`: the lines from u to v, in the order of u's list. */
    function FindEdges(u: nat, v: nat): (r: seq<PlanarEdge>)
      reads this
      requires u < |adj| && Indexed()
      ensures forall x :: x in r <==> x in Neighbourhood(u) && x.to == v
    {
      EdgesTo(Neighbourhood(u), To, v)
    }

    /**
     * `delete_edges(r)`: a fresh n-vertex graph holding, through `add_edge`,
     * every line such that neither it nor its reversal is in r.
     */
    method DeleteEdges(r: seq<PlanarEdge>) returns (g: Graphs.UndirectedGraph<PlanarEdge>)
      requires Graphs.AllFit(PlanarEdges.Ops(), |points|, lines)
      ensures Graphs.AllFit(PlanarEdges.Ops(), |points|, Kept(lines, r))
      ensures fresh(g) && g.Valid() && g.ops == PlanarEdges.Ops() && g.n == |points|
      ensures g.adj == Graphs.AddAllEdges(PlanarEdges.Ops(), EmptyLists(|points|), Kept(lines, r))
      ensures g.m == |Kept(lines, r)|
      ensures Valid() ==> g.m % 2 == 0
    {
      if Valid() {
        KeptInPairs(lines, r);
      }
      g := new Graphs.UndirectedGraph(PlanarEdges.Ops(), |points|);
      PlanarEdges.OpsLawful();
      AddKept(g, lines, r);
    }
  }

  /**
   * The shape `add_edge` keeps: lines come in pairs of an edge and its
   * reversal, every listed position is an edge leaving its own vertex, and
   * the lists hold as many positions as there are lines.
   */
  ghost predicate Shaped(lines: seq<PlanarEdge>, adj: seq<seq<nat>>)
  {
    && Paired(lines)
    && (forall u, i :: 0 <= u < |adj| && 0 <= i < |adj[u]| ==> adj[u][i] < |lines| && lines[adj[u][i]].from == u)
    && TotalLen(adj) == |lines|
  }

  /** `add_edge` keeps the shape. */
  lemma ShapedAddEdge(lines: seq<PlanarEdge>, adj: seq<seq<nat>>, e: PlanarEdge)
    requires e.from < |adj| && e.to < |adj|
    ensures Shaped(lines, adj) ==>
      Shaped(lines + [e, PlanarEdges.Reverse(e)], Push(Push(adj, e.from, |lines|), e.to, |lines| + 1))
  {
    var ls := lines + [e, PlanarEdges.Reverse(e)];
    var one: seq<seq<nat>> := Push(adj, e.from, |lines|);
    var two: seq<seq<nat>> := Push(one, e.to, |lines| + 1);
    TotalLenPush<nat>(adj, e.from, |lines|);
    TotalLenPush<nat>(one, e.to, |lines| + 1);
    if Shaped(lines, adj) {
      forall u, i | 0 <= u < |two| && 0 <= i < |two[u]|
        ensures two[u][i] < |ls| && ls[two[u][i]].from == u
      {
        if u == e.to && i == |two[u]| - 1 {
        } else if u == e.from && i == |one[u]| - 1 {
          assert two[u][i] == one[u][i];
        } else {
          assert two[u][i] == adj[u][i];
        }
      }
      forall i | 0 <= i < |ls| && i % 2 == 1
        ensures ls[i] == PlanarEdges.Reverse(ls[i - 1])
      {
        if i < |lines| {
          assert ls[i] == lines[i] && ls[i - 1] == lines[i - 1];
        }
      }
      assert |ls| % 2 == 0;
      assert TotalLen(two) == |ls|;
    }
  }

  /** The loop of `delete_edges`: every kept line added with `add_edge`, in order. */
  method AddKept(g: Graphs.UndirectedGraph<PlanarEdge>, lines: seq<PlanarEdge>, r: seq<PlanarEdge>)
    requires g.Valid() && Edges.Lawful(g.ops) && g.adj == EmptyLists(g.n) && g.m == 0
    requires Graphs.AllFit(g.ops, g.n, lines)
    modifies g
    ensures Graphs.AllFit(g.ops, g.n, Kept(lines, r))
    ensures g.Valid() && g.n == old(g.n)
    ensures g.adj == Graphs.AddAllEdges(g.ops, EmptyLists(g.n), Kept(lines, r))
    ensures g.m == |Kept(lines, r)|
  {
    var kept: seq<PlanarEdge> := [];
    var i := 0;
    while i < |lines|
      invariant 0 <= i <= |lines|
      invariant kept == Kept(lines[..i], r)
      invariant g.Valid() && g.n == old(g.n) && g.m == |kept|
      invariant Graphs.AllFit(g.ops, g.n, kept)
      invariant g.adj == Graphs.AddAllEdges(g.ops, EmptyLists(g.n), kept)
      modifies g
    {
      KeptStep(lines, r, i);
      kept := KeepLine(g, lines[i], r, kept);
      i := i + 1;
    }
    assert lines[..i] == lines;
  }

  /** One turn of the loop of `delete_edges`: e added when it is kept. */
  method KeepLine(g: Graphs.UndirectedGraph<PlanarEdge>, e: PlanarEdge, r: seq<PlanarEdge>, kept: seq<PlanarEdge>)
      returns (next: seq<PlanarEdge>)
    requires g.Valid() && Edges.Lawful(g.ops) && Graphs.Fits(g.ops, g.n, e)
    requires Graphs.AllFit(g.ops, g.n, kept) && g.m == |kept|
    requires g.adj == Graphs.AddAllEdges(g.ops, EmptyLists(g.n), kept)
    modifies g
    ensures next == kept + (if Keeps(e, r) then [e] else [])
    ensures g.Valid() && g.n == old(g.n) && g.m == |next|
    ensures Graphs.AllFit(g.ops, g.n, next)
    ensures g.adj == Graphs.AddAllEdges(g.ops, EmptyLists(g.n), next)
  {
    next := kept;
    if Keeps(e, r) {
      g.AddEdge(e);
      assert (kept + [e])[..|kept|] == kept;
      next := kept + [e];
    }
  }

  /** `delete_edges` keeps e when neither e nor its reversal is to be deleted. */
  predicate Keeps(e: PlanarEdge, r: seq<PlanarEdge>)
  {
    e !in r && PlanarEdges.Reverse(e) !in r
  }

  /** The lines `delete_edges` keeps, in order. */
  function Kept(lines: seq<PlanarEdge>, r: seq<PlanarEdge>): (k: seq<PlanarEdge>)
    ensures |k| <= |lines|
  {
    if |lines| == 0 then []
    else
      var e := lines[|lines| - 1];
      Kept(lines[..|lines| - 1], r) + (if Keeps(e, r) then [e] else [])
  }

  /** One more line: `Kept` grows by that line or not at all. */
  lemma KeptStep(lines: seq<PlanarEdge>, r: seq<PlanarEdge>, i: nat)
    requires i < |lines|
    ensures Kept(lines[..i + 1], r) ==
      Kept(lines[..i], r) + (if Keeps(lines[i], r) then [lines[i]] else [])
  {
    assert lines[..i + 1][..i] == lines[..i];
  }

  /** A line is kept exactly when it is stored and neither it nor its reversal is in r. */
  lemma {:induction false} KeptMembers(lines: seq<PlanarEdge>, r: seq<PlanarEdge>, e: PlanarEdge)
    ensures e in Kept(lines, r) <==> e in lines && e !in r && PlanarEdges.Reverse(e) !in r
  {
    if |lines| > 0 {
      var init := lines[..|lines| - 1];
      KeptMembers(init, r, e);
      assert lines == init + [lines[|lines| - 1]];
    }
  }

  /** Lines that come in pairs of an edge and its reversal, as `add_edge` stores them. */
  ghost predicate Paired(lines: seq<PlanarEdge>)
  {
    && |lines| % 2 == 0
    && forall i :: 0 <= i < |lines| && i % 2 == 1 ==> lines[i] == PlanarEdges.Reverse(lines[i - 1])
  }

  /** e is kept exactly when its reversal is. */
  lemma KeepsReverse(e: PlanarEdge, r: seq<PlanarEdge>)
    ensures Keeps(PlanarEdges.Reverse(e), r) <==> Keeps(e, r)
  {
    PlanarEdges.ReverseInvolution(e);
  }

  /** Paired lines are kept or dropped two at a time. */
  lemma {:induction false} KeptPrefixEven(lines: seq<PlanarEdge>, r: seq<PlanarEdge>, k: nat)
    requires Paired(lines) && 2 * k <= |lines|
    ensures |Kept(lines[..2 * k], r)| % 2 == 0
  {
    if k > 0 {
      var j := 2 * k - 2;
      KeptPrefixEven(lines, r, k - 1);
      KeptPairStep(lines, r, j);
    }
  }

  /** The pair of lines at j and j + 1 adds two kept lines or none. */
  lemma KeptPairStep(lines: seq<PlanarEdge>, r: seq<PlanarEdge>, j: nat)
    requires Paired(lines) && j % 2 == 0 && j + 1 < |lines|
    ensures |Kept(lines[..j + 2], r)| == |Kept(lines[..j], r)| + (if Keeps(lines[j], r) then 2 else 0)
  {
    KeptStep(lines, r, j);
    KeptStep(lines, r, j + 1);
    PairedAt(lines, j);
    KeepsReverse(lines[j], r);
  }

  /** In paired lines, the line after an even position is its reversal. */
  lemma PairedAt(lines: seq<PlanarEdge>, j: nat)
    requires Paired(lines) && j % 2 == 0 && j + 1 < |lines|
    ensures lines[j + 1] == PlanarEdges.Reverse(lines[j])
  {
    assert (j + 1) % 2 == 1;
  }

  /**
   * The quirk of `delete_edges`: it adds every stored line, and both
   * orientations of an edge are stored, so the graph it builds holds each
   * surviving edge twice — an even number of `add_edge` calls, closed under
   * reversal.
   */
  lemma KeptInPairs(lines: seq<PlanarEdge>, r: seq<PlanarEdge>)
    requires Paired(lines)
    ensures |Kept(lines, r)| % 2 == 0
    ensures forall e :: e in Kept(lines, r) ==> PlanarEdges.Reverse(e) in Kept(lines, r)
  {
    KeptPrefixEven(lines, r, |lines| / 2);
    assert lines[..2 * (|lines| / 2)] == lines;
    forall e | e in Kept(lines, r)
      ensures PlanarEdges.Reverse(e) in Kept(lines, r)
    {
      KeptReverse(lines, r, e);
    }
  }

  /** The reversal of a kept line is kept too. */
  lemma KeptReverse(lines: seq<PlanarEdge>, r: seq<PlanarEdge>, e: PlanarEdge)
    requires Paired(lines) && e in Kept(lines, r)
    ensures PlanarEdges.Reverse(e) in Kept(lines, r)
  {
    KeptMembers(lines, r, e);
    KeptMembers(lines, r, PlanarEdges.Reverse(e));
    KeepsReverse(e, r);
    var i :| 0 <= i < |lines| && lines[i] == e;
    if i % 2 == 1 {
      PairedAt(lines, i - 1);
      PlanarEdges.ReverseInvolution(lines[i - 1]);
    } else {
      PairedAt(lines, i);
    }
  }

  /** `is_adjacent(u, v)` holds exactly when `find_edges(u, v)` is non-empty. */
  lemma IsAdjacentFindEdges(g: PlanarGraph, u: nat, v: nat)
    requires u < |g.adj| && g.Indexed()
    ensures g.IsAdjacent(u, v) <==> g.FindEdges(u, v) != []
  {
    AnyToEdgesTo(g.Neighbourhood(u), To, v);
  }
}
