/**
 * The unweighted `UndirectedGraph` (src/structure/undirected_graph.rs):
 * n adjacency lists of vertex ids, filled in place by `add_edge`, and read
 * from text with one edge per line.
 */
module SimpleGraphs {
  import opened Wrappers
  import Text
  import Edges
  import Rows
  import opened AdjLists

  /** The message every malformed input panics with. */
  function ParseError(value: string): string
  {
    "Could not parse the following as an UndirectedGraph: \n" + value
  }

  const NO_N := "No n :("
  const OUT_OF_BOUNDS := "index out of bounds"

  /**
   * `add_edge_from_str`'s reading of a line: the first two pieces of the
   * line split on single spaces, both parsed as `usize`; None when either is
   * missing or does not parse.
   */
  function EdgeTokens(edge: string): (r: Option<(nat, nat)>)
    ensures var ps := Text.Split(edge, ' ');
      r.Some? <==> |ps| >= 2 && Text.ParseU64(ps[0]).Some? && Text.ParseU64(ps[1]).Some?
    ensures var ps := Text.Split(edge, ' ');
      r.Some? ==> r.value == (Text.ParseU64(ps[0]).value, Text.ParseU64(ps[1]).value)
  {
    var ps := Text.Split(edge, ' ');
    match Edges.ParseField(Edges.Next(ps, 0), "", "")
    case Err(_) => None
    case Ok(u) =>
      match Edges.ParseField(Edges.Next(ps, 1), "", "")
      case Err(_) => None
      case Ok(v) => Some((u, v))
  }

  /**
   * One edge line of `From<String>`: its two endpoints, where a missing or
   * unparsable endpoint panics with the parse message and an endpoint
   * outside the graph panics in `add_edge`.
   */
  function EdgeRow(value: string, n: nat, line: string): (r: Result<(nat, nat), string>)
    ensures r.Ok? <==> EdgeTokens(line).Some? && EdgeTokens(line).value.0 < n && EdgeTokens(line).value.1 < n
    ensures r.Ok? ==> r.value == EdgeTokens(line).value
    ensures EdgeTokens(line).None? ==> r == Err(ParseError(value))
  {
    match EdgeTokens(line)
    case None => Err(ParseError(value))
    case Some((u, v)) => if u < n && v < n then Ok((u, v)) else Err(OUT_OF_BOUNDS)
  }

  /** The row parser for a graph read from `value` with n vertices. */
  function EdgeParser(value: string, n: nat): string -> Result<(nat, nat), string>
  {
    (line: string) => EdgeRow(value, n, line)
  }

  /** The lines `From<String>` reads: every line that does not start with '%' after its indentation. */
  function GraphLines(value: string): seq<string>
  {
    Rows.DropPercent(Text.Lines(value))
  }

  /**
   * `From<String>` as a value: the vertex count from the first word of the
   * first kept line, then one edge per later kept line.  Every panic of the
   * source is an error here.
   */
  function ParseGraph(value: string): (r: Result<(nat, seq<(nat, nat)>), string>)
    ensures GraphLines(value) == [] ==> r == Err(NO_N)
    ensures r.Ok? ==>
      && |GraphLines(value)| >= 1
      && Text.ParseU64(Text.Split(GraphLines(value)[0], ' ')[0]) == Some(r.value.0)
      && |r.value.1| == |GraphLines(value)| - 1
      && EdgesIn(r.value.0, r.value.1)
  {
    var ls := GraphLines(value);
    if |ls| == 0 then Err(NO_N)
    else
      match Text.ParseU64(Text.Split(ls[0], ' ')[0])
      case None => Err(ParseError(value))
      case Some(n) =>
        match Rows.ParseRows(ls[1..], EdgeParser(value, n))
        case Err(e) => Err(e)
        case Ok(edges) => Ok((n, edges))
  }

  class UndirectedGraph {
    /** `adj_list`: the neighbours of every vertex, in insertion order. */
    var adj: seq<seq<nat>>
    var n: nat

    ghost predicate Valid()
      reads this
    {
      |adj| == n
    }

    /** `new(n)`: n vertices, no edges. */
    constructor (n: nat)
      ensures Valid() && this.n == n && adj == EmptyLists(n)
    {
      adj := EmptyLists(n);
      this.n := n;
    }

    /** `vertices()`: every vertex id below n, ascending. */
    function Vertices(): (r: seq<nat>)
      reads this
      ensures forall i, j :: 0 <= i < j < |r| ==> r[i] < r[j]
      ensures forall u: nat :: u in r <==> u < n
    {
      var r := seq(n, u => u);
      assert forall u: nat :: u < n ==> u in r by {
        forall u: nat | u < n ensures u in r {
          assert r[u] == u;
        }
      }
      r
    }

    /** `neighbourhood(u)`, also `self[u]`: u's list as stored. */
    function Neighbourhood(u: nat): (r: seq<nat>)
      reads this
      requires Valid() && u < n
      ensures r == adj[u]
    {
      adj[u]
    }

    /** `set_neighbourhood(u, neigh)`: list u replaced, the others untouched. */
    method SetNeighbourhood(u: nat, neigh: seq<nat>)
      requires Valid() && u < n
      modifies this
      ensures Valid() && n == old(n)
      ensures Neighbourhood(u) == neigh
      ensures forall w :: 0 <= w < n && w != u ==> adj[w] == old(adj[w])
    {
      adj := adj[u := neigh];
    }

    /** `add_edge(u, v)`: v appended to u's list, then u to v's list. */
    method AddEdge(u: nat, v: nat)
      requires Valid() && u < n && v < n
      modifies this
      ensures Valid() && n == old(n)
      ensures adj == AddUndirected(old(adj), u, v)
    {
      adj := adj[u := adj[u] + [v]];
      adj := adj[v := adj[v] + [u]];
    }

    /** `add_edge_from_str(edge)`: the edge of the line added, or None and no change. */
    method AddEdgeFromStr(edge: string) returns (r: Option<()>)
      requires Valid()
      requires EdgeTokens(edge).Some? ==> EdgeTokens(edge).value.0 < n && EdgeTokens(edge).value.1 < n
      modifies this
      ensures Valid() && n == old(n)
      ensures r.Some? <==> EdgeTokens(edge).Some?
      ensures r.None? ==> adj == old(adj)
      ensures r.Some? ==> adj == AddUndirected(old(adj), EdgeTokens(edge).value.0, EdgeTokens(edge).value.1)
    {
      var uv := EdgeTokens(edge);
      if uv.None? {
        return None;
      }
      AddEdge(uv.value.0, uv.value.1);
      return Some(());
    }
  }

  /**
   * `From<String>`: reads the vertex count, then adds the edge of every
   * later line in order; the result is the graph `ParseGraph` describes,
   * and any failure is the same error.
   */
  method FromString(value: string) returns (r: Result<UndirectedGraph, string>)
    ensures ParseGraph(value).Err? ==> r == Err(ParseGraph(value).error)
    ensures ParseGraph(value).Ok? ==>
      && r.Ok? && r.value.Valid()
      && r.value.n == ParseGraph(value).value.0
      && r.value.adj == AddAllUndirected(EmptyLists(r.value.n), ParseGraph(value).value.1)
  {
    var ls := GraphLines(value);
    if |ls| == 0 {
      return Err(NO_N);
    }
    var first := Text.ParseU64(Text.Split(ls[0], ' ')[0]);
    if first.None? {
      return Err(ParseError(value));
    }
    var n := first.value;
    ParseGraphRows(value, n);
    var g := new UndirectedGraph(n);
    var added := AddEdgeRows(g, value, n, ls[1..]);
    if added.Err? {
      return Err(added.error);
    }
    return Ok(g);
  }

  /**
   * The loop of `From<String>`: the edge of every row added to g in order,
   * stopping at the first row that fails.  On success g holds exactly the
   * parsed edges.
   */
  method AddEdgeRows(g: UndirectedGraph, value: string, n: nat, rows: seq<string>) returns (r: Result<seq<(nat, nat)>, string>)
    requires g.Valid() && g.n == n && g.adj == EmptyLists(n)
    modifies g
    ensures r == Rows.ParseRows(rows, EdgeParser(value, n))
    ensures r.Ok? ==> g.Valid() && g.n == n && EdgesIn(n, r.value) && g.adj == AddAllUndirected(EmptyLists(n), r.value)
  {
    var edges: seq<(nat, nat)> := [];
    var i := 0;
    while i < |rows|
      invariant 0 <= i <= |rows|
      invariant Rows.ParseRows(rows[..i], EdgeParser(value, n)) == Ok(edges)
      invariant g.Valid() && g.n == n && EdgesIn(n, edges)
      invariant g.adj == AddAllUndirected(EmptyLists(n), edges)
      modifies g
    {
      var row := EdgeRow(value, n, rows[i]);
      Rows.ParseRowsStep(rows, EdgeParser(value, n), i);
      if row.Err? {
        return Err(row.error);
      }
      g.AddEdge(row.value.0, row.value.1);
      assert edges + [row.value] == (edges + [row.value])[..|edges|] + [row.value];
      edges := edges + [row.value];
      i := i + 1;
    }
    assert rows[..i] == rows;
    return Ok(edges);
  }

  /** How `ParseGraph` ends once the vertex count n has been read. */
  lemma ParseGraphRows(value: string, n: nat)
    requires |GraphLines(value)| >= 1 && Text.ParseU64(Text.Split(GraphLines(value)[0], ' ')[0]) == Some(n)
    ensures var rows := Rows.ParseRows(GraphLines(value)[1..], EdgeParser(value, n));
      && (rows.Err? ==> ParseGraph(value) == Err(rows.error))
      && (rows.Ok? ==> ParseGraph(value) == Ok((n, rows.value)))
  {
  }

  /**
   * In a parsed graph, v is a neighbour of u exactly when one of the edge
   * lines joins u and v, in either order.
   */
  lemma ParsedNeighbours(value: string, u: nat, v: nat)
    requires ParseGraph(value).Ok? && u < ParseGraph(value).value.0
    ensures var (n, edges) := ParseGraph(value).value;
      v in AddAllUndirected(EmptyLists(n), edges)[u] <==> (u, v) in edges || (v, u) in edges
  {
    var (n, edges) := ParseGraph(value).value;
    AddAllMembership(EmptyLists(n), edges, u, v);
  }
}
