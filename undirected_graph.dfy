/**
 * The generic `UndirectedGraph<W, E>` (src/structure/graph/undirected_graph.rs):
 * adjacency lists of edges of any type that implements the `Edge` trait,
 * with an edge counter m.  Every undirected edge is stored twice, once in
 * each direction; `add_directed_edge` stores one direction only.
 */
module Graphs {
  import opened Wrappers
  import Text
  import Edges
  import Rows
  import opened AdjLists

  /** Where `add_edge` pushes e's reversal: at the reversal's own tail. */
  function BackOf<E>(ops: Edges.EdgeOps<E>, e: E): nat
  {
    ops.from(ops.reverse(e))
  }

  /** `add_edge(e)` on the lists: e at its tail, then its reversal at the reversal's tail. */
  function AddEdgeAdj<E>(ops: Edges.EdgeOps<E>, adj: seq<seq<E>>, e: E): (r: seq<seq<E>>)
    requires ops.from(e) < |adj| && BackOf(ops, e) < |adj|
    ensures |r| == |adj|
  {
    Push(Push(adj, ops.from(e), e), BackOf(ops, e), ops.reverse(e))
  }

  /** Both of e's pushes land inside n lists. */
  predicate Fits<E>(ops: Edges.EdgeOps<E>, n: nat, e: E)
  {
    ops.from(e) < n && BackOf(ops, e) < n
  }

  predicate AllFit<E>(ops: Edges.EdgeOps<E>, n: nat, edges: seq<E>)
  {
    forall i :: 0 <= i < |edges| ==> Fits(ops, n, edges[i])
  }

  /** The lists after `add_edge` of every edge, in order. */
  function AddAllEdges<E>(ops: Edges.EdgeOps<E>, adj: seq<seq<E>>, edges: seq<E>): (r: seq<seq<E>>)
    requires AllFit(ops, |adj|, edges)
    ensures |r| == |adj|
  {
    if |edges| == 0 then adj
    else AddEdgeAdj(ops, AddAllEdges(ops, adj, edges[..|edges| - 1]), edges[|edges| - 1])
  }

  /** Every list holds only edges that start at its own vertex. */
  ghost predicate Placed<E>(ops: Edges.EdgeOps<E>, adj: seq<seq<E>>)
  {
    forall u, i :: 0 <= u < |adj| && 0 <= i < |adj[u]| ==> ops.from(adj[u][i]) == u
  }

  /**
   * Adding edges stores two entries per edge, and, for a lawful edge type,
   * every entry still sits in the list of its own tail.
   */
  lemma {:induction false} AddAllEdgesCount<E(!new)>(ops: Edges.EdgeOps<E>, adj: seq<seq<E>>, edges: seq<E>)
    requires AllFit(ops, |adj|, edges)
    ensures TotalLen(AddAllEdges(ops, adj, edges)) == TotalLen(adj) + 2 * |edges|
    ensures Edges.Lawful(ops) && Placed(ops, adj) ==> Placed(ops, AddAllEdges(ops, adj, edges))
  {
    if |edges| > 0 {
      var init := edges[..|edges| - 1];
      var e := edges[|edges| - 1];
      AddAllEdgesCount(ops, adj, init);
      var mid := AddAllEdges(ops, adj, init);
      TotalLenPush(mid, ops.from(e), e);
      TotalLenPush(Push(mid, ops.from(e), e), BackOf(ops, e), ops.reverse(e));
    }
  }

  /**
   * After adding a list of edges, x is in u's list exactly when it was
   * there before, or it is one of the edges and starts at u, or it is the
   * reversal of one of the edges and that reversal starts at u.
   */
  lemma {:induction false} AddAllEdgesMembership<E>(ops: Edges.EdgeOps<E>, adj: seq<seq<E>>, edges: seq<E>, u: nat, x: E)
    requires AllFit(ops, |adj|, edges) && u < |adj|
    ensures x in AddAllEdges(ops, adj, edges)[u] <==>
      || x in adj[u]
      || (x in edges && ops.from(x) == u)
      || (exists i :: 0 <= i < |edges| && x == ops.reverse(edges[i]) && BackOf(ops, edges[i]) == u)
  {
    if |edges| > 0 {
      var init := edges[..|edges| - 1];
      var e := edges[|edges| - 1];
      AddAllEdgesMembership(ops, adj, init, u, x);
      assert edges == init + [e];
      var mid := AddAllEdges(ops, adj, init);
      var one := Push(mid, ops.from(e), e);
      assert x in one[u] <==> x in mid[u] || (u == ops.from(e) && x == e);
      assert x in Push(one, BackOf(ops, e), ops.reverse(e))[u] <==> x in one[u] || (u == BackOf(ops, e) && x == ops.reverse(e));
      if exists i :: 0 <= i < |edges| && x == ops.reverse(edges[i]) && BackOf(ops, edges[i]) == u {
        var i :| 0 <= i < |edges| && x == ops.reverse(edges[i]) && BackOf(ops, edges[i]) == u;
        if i < |edges| - 1 {
          assert init[i] == edges[i];
        }
      }
    }
  }

  class UndirectedGraph<E(==,!new)> {
    /** The `Edge` implementation of E. */
    const ops: Edges.EdgeOps<E>
    /** `adj_list`: the edges leaving every vertex, in insertion order. */
    var adj: seq<seq<E>>
    var n: nat
    /** `m`: the number of edges added, in either direction or both. */
    var m: nat
    /** How many of the m edges were added by `add_directed_edge`, that is, stored once. */
    ghost var directed: nat

    /**
     * n lists; every list holds only edges leaving its vertex; every
     * undirected edge is stored twice and every directed one once.
     */
    ghost predicate Valid()
      reads this
    {
      && |adj| == n
      && Placed(ops, adj)
      && directed <= m
      && TotalLen(adj) + directed == 2 * m
    }

    /** `new(n)`: n empty lists and no edges. */
    constructor (ops: Edges.EdgeOps<E>, n: nat)
      ensures Valid() && this.ops == ops && this.n == n
      ensures adj == EmptyLists(n) && m == 0 && directed == 0
    {
      this.ops := ops;
      adj := EmptyLists(n);
      this.n := n;
      m := 0;
      directed := 0;
      new;
      TotalLenEmpty<E>(n);
    }

    /** `add_directed_edge(e)`: e pushed onto its tail's list only; m still grows by one. */
    method AddDirectedEdge(e: E)
      requires Valid() && ops.from(e) < n
      modifies this
      ensures Valid() && n == old(n)
      ensures adj == Push(old(adj), ops.from(e), e)
      ensures m == old(m) + 1 && directed == old(directed) + 1
    {
      TotalLenPush(adj, ops.from(e), e);
      adj := Push(adj, ops.from(e), e);
      m := m + 1;
      directed := directed + 1;
    }

    /**
     * `add_edge(e)`: e pushed onto its tail's list and its reversal onto
     * the reversal's tail's list; m grows by exactly one.  A lawful edge
     * type puts the reversal at e's head.
     */
    method AddEdge(e: E)
      requires Valid() && Fits(ops, n, e)
      requires Edges.Lawful(ops)
      modifies this
      ensures Valid() && n == old(n)
      ensures adj == AddEdgeAdj(ops, old(adj), e)
      ensures m == old(m) + 1 && directed == old(directed)
    {
      AddAllEdgesCount(ops, adj, [e]);
      assert AddAllEdges(ops, adj, [e]) == AddEdgeAdj(ops, adj, e) by {
        assert [e][..0] == [];
      }
      adj := AddEdgeAdj(ops, adj, e);
      m := m + 1;
    }

    /** `N(u)` and `self[u]`: the edges leaving u. */
    function Neighbourhood(u: nat): (r: seq<E>)
      reads this
      requires Valid() && u < n
      ensures r == adj[u] && forall i :: 0 <= i < |r| ==> ops.from(r[i]) == u
    {
      adj[u]
    }

    /** `is_adjacent(u, v)`: some edge leaving u arrives at v. */
    function IsAdjacent(u: nat, v: nat): (r: bool)
      reads this
      requires Valid() && u < n
      ensures r <==> exists i :: 0 <= i < |adj[u]| && ops.to(adj[u][i]) == v
    {
      AnyTo(adj[u], ops.to, v)
    }

    /** `find_edges(u, v)`: the edges from u to v, in the order of u's list. */
    function FindEdges(u: nat, v: nat): (r: seq<E>)
      reads this
      requires Valid() && u < n
      ensures forall x :: x in r <==> x in adj[u] && ops.from(x) == u && ops.to(x) == v
      ensures r == EdgesTo(adj[u], ops.to, v)
    {
      EdgesTo(adj[u], ops.to, v)
    }
  }

  /** `is_adjacent(u, v)` holds exactly when `find_edges(u, v)` is non-empty. */
  lemma IsAdjacentFindEdges<E(!new)>(g: UndirectedGraph<E>, u: nat, v: nat)
    requires g.Valid() && u < g.n
    ensures g.IsAdjacent(u, v) <==> g.FindEdges(u, v) != []
  {
    AnyToEdgesTo(g.adj[u], g.ops.to, v);
  }

  const NO_N_MSG := "Expected an integer denoting the number of vertices, but found nothing!"
  const OUT_OF_BOUNDS := "index out of bounds"

  /** The lines `from_str` reads: trimmed, without empty lines and '%' comments. */
  function GraphLines(s: string): seq<string>
  {
    Rows.TrimDropEmptyPercent(Text.Lines(s))
  }

  /**
   * One edge row: `row.parse::<E>()` with the row named in the error; an
   * edge reaching outside the graph panics in `add_edge`.
   */
  function RowEdge<E>(ops: Edges.EdgeOps<E>, parse: string -> Result<E, string>, n: nat, row: string): (r: Result<E, string>)
    ensures parse(row).Err? ==> r == Err("Could not parse the row: " + row)
    ensures r.Ok? <==> parse(row).Ok? && Fits(ops, n, parse(row).value)
    ensures r.Ok? ==> r.value == parse(row).value
  {
    match parse(row)
    case Err(_) => Err("Could not parse the row: " + row)
    case Ok(e) => if Fits(ops, n, e) then Ok(e) else Err(OUT_OF_BOUNDS)
  }

  function RowParser<E>(ops: Edges.EdgeOps<E>, parse: string -> Result<E, string>, n: nat): string -> Result<E, string>
  {
    (row: string) => RowEdge(ops, parse, n, row)
  }

  /**
   * `from_str` as a value: n from the first word of the first row, then one
   * edge per later row, parsed by the edge type's own parser.
   */
  function ParseGraph<E>(ops: Edges.EdgeOps<E>, parse: string -> Result<E, string>, s: string): (r: Result<(nat, seq<E>), string>)
    ensures r.Ok? ==>
      && |GraphLines(s)| >= 1
      && Text.ParseU64(Text.Split(GraphLines(s)[0], ' ')[0]) == Some(r.value.0)
      && |r.value.1| == |GraphLines(s)| - 1
      && AllFit(ops, r.value.0, r.value.1)
  {
    var ls := GraphLines(s);
    if |ls| == 0 then Err(NO_N_MSG)
    else
      match Text.ParseU64(Text.Split(ls[0], ' ')[0])
      case None => Err("Could not parse '" + ls[0] + "' as n")
      case Some(n) =>
        match Rows.ParseRows(ls[1..], RowParser(ops, parse, n))
        case Err(e) => Err(e)
        case Ok(edges) => Ok((n, edges))
  }

  /** The two errors `ParseGraph` gives before reading any row. */
  lemma ParseGraphHeader<E>(ops: Edges.EdgeOps<E>, parse: string -> Result<E, string>, s: string)
    ensures GraphLines(s) == [] ==> ParseGraph(ops, parse, s) == Err(NO_N_MSG)
    ensures |GraphLines(s)| >= 1 && Text.ParseU64(Text.Split(GraphLines(s)[0], ' ')[0]).None? ==>
      ParseGraph(ops, parse, s) == Err("Could not parse '" + GraphLines(s)[0] + "' as n")
  {
  }

  /** How `ParseGraph` ends once n has been read. */
  lemma ParseGraphRows<E>(ops: Edges.EdgeOps<E>, parse: string -> Result<E, string>, s: string, n: nat)
    requires |GraphLines(s)| >= 1 && Text.ParseU64(Text.Split(GraphLines(s)[0], ' ')[0]) == Some(n)
    ensures var rows := Rows.ParseRows(GraphLines(s)[1..], RowParser(ops, parse, n));
      && (rows.Err? ==> ParseGraph(ops, parse, s) == Err(rows.error))
      && (rows.Ok? ==> ParseGraph(ops, parse, s) == Ok((n, rows.value)))
  {
  }

  /**
   * `from_str`: reads n, then adds every row's edge in order.  The result
   * is the graph `ParseGraph` describes, with m equal to the number of
   * edge rows, or the same error.
   */
  method FromStr<E(==,!new)>(ops: Edges.EdgeOps<E>, parse: string -> Result<E, string>, s: string)
      returns (r: Result<UndirectedGraph<E>, string>)
    requires Edges.Lawful(ops)
    ensures r.Err? <==> ParseGraph(ops, parse, s).Err?
    ensures r.Err? ==> r.error == ParseGraph(ops, parse, s).error
    ensures r.Ok? ==>
      && r.value.Valid() && r.value.ops == ops && r.value.directed == 0
      && var (n, edges) := ParseGraph(ops, parse, s).value;
      && r.value.n == n && r.value.m == |edges|
      && r.value.adj == AddAllEdges(ops, EmptyLists(n), edges)
  {
    var ls := GraphLines(s);
    ParseGraphHeader(ops, parse, s);
    if |ls| == 0 {
      return Err(NO_N_MSG);
    }
    var first := Text.ParseU64(Text.Split(ls[0], ' ')[0]);
    if first.None? {
      return Err("Could not parse '" + ls[0] + "' as n");
    }
    var n := first.value;
    ParseGraphRows(ops, parse, s, n);
    var g := new UndirectedGraph(ops, n);
    var added := AddRows(g, parse, ls[1..]);
    if added.Err? {
      return Err(added.error);
    }
    return Ok(g);
  }

  /** The loop of `from_str`: every row's edge added in order, stopping at the first bad row. */
  method AddRows<E(==,!new)>(g: UndirectedGraph<E>, parse: string -> Result<E, string>, rows: seq<string>)
      returns (r: Result<seq<E>, string>)
    requires g.Valid() && Edges.Lawful(g.ops) && g.adj == EmptyLists(g.n) && g.m == 0 && g.directed == 0
    modifies g
    ensures g.n == old(g.n)
    ensures r == Rows.ParseRows(rows, RowParser(g.ops, parse, g.n))
    ensures r.Ok? ==>
      && g.Valid() && g.n == old(g.n) && g.m == |r.value| && g.directed == 0
      && AllFit(g.ops, g.n, r.value) && g.adj == AddAllEdges(g.ops, EmptyLists(g.n), r.value)
  {
    var edges: seq<E> := [];
    var i := 0;
    while i < |rows|
      invariant 0 <= i <= |rows|
      invariant Rows.ParseRows(rows[..i], RowParser(g.ops, parse, g.n)) == Ok(edges)
      invariant g.Valid() && g.n == old(g.n) && g.m == |edges| && g.directed == 0
      invariant AllFit(g.ops, g.n, edges)
      invariant g.adj == AddAllEdges(g.ops, EmptyLists(g.n), edges)
      modifies g
    {
      var row := RowEdge(g.ops, parse, g.n, rows[i]);
      Rows.ParseRowsStep(rows, RowParser(g.ops, parse, g.n), i);
      if row.Err? {
        return Err(row.error);
      }
      g.AddEdge(row.value);
      assert (edges + [row.value])[..|edges|] == edges;
      edges := edges + [row.value];
      i := i + 1;
    }
    assert rows[..i] == rows;
    return Ok(edges);
  }
}
