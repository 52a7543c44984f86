/**
 * `RootedTree` (src/structure/rooted_tree.rs): adjacency lists whose edges
 * point away from the root.  Unlike the undirected graphs, `add_edge`
 * stores an edge once, at its tail only.
 */
module RootedTrees {
  import opened Wrappers
  import Text
  import Edges
  import Rows
  import opened AdjLists
  import SimpleGraphs

  /** Every pair starts at one of n vertices. */
  predicate TailsIn(n: nat, edges: seq<(nat, nat)>)
  {
    forall i :: 0 <= i < |edges| ==> edges[i].0 < n
  }

  /** The lists after `add_edge(u, v)` of every pair, in order. */
  function AddAllDirected(adj: seq<seq<nat>>, edges: seq<(nat, nat)>): (r: seq<seq<nat>>)
    requires TailsIn(|adj|, edges)
    ensures |r| == |adj|
  {
    if |edges| == 0 then adj
    else
      var last := edges[|edges| - 1];
      Push(AddAllDirected(adj, edges[..|edges| - 1]), last.0, last.1)
  }

  /** After adding directed edges, v is a child of u exactly when it was before or u→v was added. */
  lemma {:induction false} AddAllDirectedMembership(adj: seq<seq<nat>>, edges: seq<(nat, nat)>, u: nat, v: nat)
    requires TailsIn(|adj|, edges)
    requires u < |adj|
    ensures v in AddAllDirected(adj, edges)[u] <==> v in adj[u] || (u, v) in edges
  {
    if |edges| > 0 {
      var init := edges[..|edges| - 1];
      var last := edges[|edges| - 1];
      AddAllDirectedMembership(adj, init, u, v);
      assert edges == init + [last];
      var mid := AddAllDirected(adj, init);
      assert v in Push(mid, last.0, last.1)[u] <==> v in mid[u] || (u == last.0 && v == last.1);
    }
  }

  /** Adding directed edges stores one entry per edge. */
  lemma {:induction false} AddAllDirectedCount(adj: seq<seq<nat>>, edges: seq<(nat, nat)>)
    requires TailsIn(|adj|, edges)
    ensures TotalLen(AddAllDirected(adj, edges)) == TotalLen(adj) + |edges|
  {
    if |edges| > 0 {
      var last := edges[|edges| - 1];
      AddAllDirectedCount(adj, edges[..|edges| - 1]);
      TotalLenPush(AddAllDirected(adj, edges[..|edges| - 1]), last.0, last.1);
    }
  }

  class RootedTree {
    var adj: seq<seq<nat>>
    var n: nat
    var root: nat
    /** The `BTreeSet` of vertices, as its ascending sequence. */
    var vertices: seq<nat>

    /** n lists; the vertex set holds the root alone, and nothing ever adds to it. */
    ghost predicate Valid()
      reads this
    {
      |adj| == n && vertices == [root]
    }

    /** `new(root, n)`: n empty lists; the vertex set is {root}.  The root is not checked against n. */
    constructor (root: nat, n: nat)
      ensures Valid() && this.root == root && this.n == n && adj == EmptyLists(n)
    {
      adj := EmptyLists(n);
      this.n := n;
      this.root := root;
      vertices := [root];
    }

    /** `vertices()`: the vertex set in ascending order, which is just the root. */
    function Vertices(): (r: seq<nat>)
      reads this
      requires Valid()
      ensures forall i, j :: 0 <= i < j < |r| ==> r[i] < r[j]
      ensures r == [root]
    {
      vertices
    }

    /** `neighbourhood(u)`: u's list of children as stored. */
    function Neighbourhood(u: nat): (r: seq<nat>)
      reads this
      requires Valid() && u < n
      ensures r == adj[u]
    {
      adj[u]
    }

    /** `set_neighbourhood(u, neigh)`: list u replaced, everything else kept. */
    method SetNeighbourhood(u: nat, neigh: seq<nat>)
      requires Valid() && u < n
      modifies this
      ensures Valid() && n == old(n) && root == old(root)
      ensures Neighbourhood(u) == neigh
      ensures forall w :: 0 <= w < n && w != u ==> adj[w] == old(adj[w])
    {
      adj := adj[u := neigh];
    }

    /** `add_edge(u, e)`: e appended to u's list only; the vertex set stays. */
    method AddEdge(u: nat, e: nat)
      requires Valid() && u < n
      modifies this
      ensures Valid() && n == old(n) && root == old(root) && vertices == old(vertices)
      ensures adj == Push(old(adj), u, e)
    {
      adj := adj[u := adj[u] + [e]];
    }

    /**
     * `add_edge_from_str(edge)`: the first two pieces as u and e, both
     * parsed as `usize`; None, and no change, when either is missing or bad.
     */
    method AddEdgeFromStr(edge: string) returns (r: Option<()>)
      requires Valid()
      requires SimpleGraphs.EdgeTokens(edge).Some? ==> SimpleGraphs.EdgeTokens(edge).value.0 < n
      modifies this
      ensures Valid() && n == old(n) && root == old(root)
      ensures r.Some? <==> SimpleGraphs.EdgeTokens(edge).Some?
      ensures r.None? ==> adj == old(adj)
      ensures r.Some? ==> adj == Push(old(adj), SimpleGraphs.EdgeTokens(edge).value.0, SimpleGraphs.EdgeTokens(edge).value.1)
    {
      var uv := SimpleGraphs.EdgeTokens(edge);
      if uv.None? {
        return None;
      }
      AddEdge(uv.value.0, uv.value.1);
      return Some(());
    }
  }

  function ParseError(value: string): string
  {
    "Could not parse the following as a RootedTree: \n" + value
  }

  const OUT_OF_BOUNDS := "index out of bounds"

  /** One edge line: u and v as `usize`; u must be a vertex, v is not checked. */
  function TreeRow(value: string, n: nat, line: string): (r: Result<(nat, nat), string>)
    ensures r.Ok? <==> SimpleGraphs.EdgeTokens(line).Some? && SimpleGraphs.EdgeTokens(line).value.0 < n
    ensures r.Ok? ==> r.value == SimpleGraphs.EdgeTokens(line).value
    ensures SimpleGraphs.EdgeTokens(line).None? ==> r == Err(ParseError(value))
  {
    match SimpleGraphs.EdgeTokens(line)
    case None => Err(ParseError(value))
    case Some((u, v)) => if u < n then Ok((u, v)) else Err(OUT_OF_BOUNDS)
  }

  function TreeParser(value: string, n: nat): string -> Result<(nat, nat), string>
  {
    (line: string) => TreeRow(value, n, line)
  }

  /**
   * `From<String>` as a value: every line counts (there are no comments);
   * the first is the header "n root", every later line an edge "u v".
   */
  function ParseTree(value: string): (r: Result<(nat, nat, seq<(nat, nat)>), string>)
    ensures r.Ok? ==>
      && |Text.Lines(value)| >= 1
      && SimpleGraphs.EdgeTokens(Text.Lines(value)[0]) == Some((r.value.0, r.value.1))
      && |r.value.2| == |Text.Lines(value)| - 1
      && TailsIn(r.value.0, r.value.2)
    ensures |Text.Lines(value)| == 0 ==> r == Err(ParseError(value))
  {
    var ls := Text.Lines(value);
    if |ls| == 0 then Err(ParseError(value))
    else
      match SimpleGraphs.EdgeTokens(ls[0])
      case None => Err(ParseError(value))
      case Some((n, root)) =>
        match Rows.ParseRows(ls[1..], TreeParser(value, n))
        case Err(e) => Err(e)
        case Ok(edges) => Ok((n, root, edges))
  }

  /**
   * `From<String>`: reads the header, then adds every line's edge in
   * order; the result is the tree `ParseTree` describes, or the same error.
   */
  method FromString(value: string) returns (r: Result<RootedTree, string>)
    ensures r.Err? <==> ParseTree(value).Err?
    ensures r.Err? ==> r.error == ParseTree(value).error
    ensures r.Ok? ==>
      && r.value.Valid()
      && var (n, root, edges) := ParseTree(value).value;
      && r.value.n == n && r.value.root == root
      && r.value.adj == AddAllDirected(EmptyLists(n), edges)
  {
    var ls := Text.Lines(value);
    if |ls| == 0 {
      return Err(ParseError(value));
    }
    var header := SimpleGraphs.EdgeTokens(ls[0]);
    if header.None? {
      return Err(ParseError(value));
    }
    var (n, root) := header.value;
    var t := new RootedTree(root, n);
    var added := AddTreeRows(t, value, n, ls[1..]);
    if added.Err? {
      return Err(added.error);
    }
    return Ok(t);
  }

  /** The loop of `From<String>`: one directed edge per line, stopping at the first bad line. */
  method AddTreeRows(t: RootedTree, value: string, n: nat, rows: seq<string>) returns (r: Result<seq<(nat, nat)>, string>)
    requires t.Valid() && t.n == n && t.adj == EmptyLists(n)
    modifies t
    ensures t.n == n && t.root == old(t.root)
    ensures r == Rows.ParseRows(rows, TreeParser(value, n))
    ensures r.Ok? ==> t.Valid() && t.adj == AddAllDirected(EmptyLists(n), r.value)
  {
    var edges: seq<(nat, nat)> := [];
    var i := 0;
    while i < |rows|
      invariant 0 <= i <= |rows|
      invariant t.n == n && t.root == old(t.root) && t.Valid()
      invariant Rows.ParseRows(rows[..i], TreeParser(value, n)) == Ok(edges)
      invariant TailsIn(n, edges)
      invariant t.adj == AddAllDirected(EmptyLists(n), edges)
      modifies t
    {
      var row := TreeRow(value, n, rows[i]);
      Rows.ParseRowsStep(rows, TreeParser(value, n), i);
      if row.Err? {
        return Err(row.error);
      }
      t.AddEdge(row.value.0, row.value.1);
      assert (edges + [row.value])[..|edges|] == edges;
      edges := edges + [row.value];
      i := i + 1;
    }
    assert rows[..i] == rows;
    return Ok(edges);
  }

  /** How `ParseTree` ends once the header "n root" has been read. */
  lemma ParseTreeRows(value: string, n: nat, root: nat)
    requires |Text.Lines(value)| >= 1 && SimpleGraphs.EdgeTokens(Text.Lines(value)[0]) == Some((n, root))
    ensures var rows := Rows.ParseRows(Text.Lines(value)[1..], TreeParser(value, n));
      && (rows.Err? ==> ParseTree(value) == Err(rows.error))
      && (rows.Ok? ==> ParseTree(value) == Ok((n, root, rows.value)))
  {
  }

  /** The edges of a parsed tree are the "u v" pairs of the lines after the header, in order. */
  lemma ParsedTreeEdges(value: string)
    requires ParseTree(value).Ok?
    ensures var (n, _, edges) := ParseTree(value).value;
      forall i :: 0 <= i < |edges| ==> SimpleGraphs.EdgeTokens(Text.Lines(value)[i + 1]) == Some(edges[i])
  {
    var ls := Text.Lines(value);
    var (n, root, edges) := ParseTree(value).value;
    ParseTreeRows(value, n, root);
    forall i | 0 <= i < |edges|
      ensures SimpleGraphs.EdgeTokens(ls[i + 1]) == Some(edges[i])
    {
      assert ls[1..][i] == ls[i + 1];
    }
  }

  /** In a parsed tree, v is a child of u exactly when some line after the header reads "u v". */
  lemma ParsedChildren(value: string, u: nat, v: nat)
    requires ParseTree(value).Ok? && u < ParseTree(value).value.0
    ensures var (n, _, edges) := ParseTree(value).value;
      && (v in AddAllDirected(EmptyLists(n), edges)[u] <==> (u, v) in edges)
      && ((u, v) in edges <==>
            exists i :: 1 <= i < |Text.Lines(value)| && SimpleGraphs.EdgeTokens(Text.Lines(value)[i]) == Some((u, v)))
  {
    var ls := Text.Lines(value);
    var (n, _, edges) := ParseTree(value).value;
    AddAllDirectedMembership(EmptyLists(n), edges, u, v);
    ParsedTreeEdges(value);
    if (u, v) in edges {
      var k :| 0 <= k < |edges| && edges[k] == (u, v);
      assert SimpleGraphs.EdgeTokens(ls[k + 1]) == Some((u, v));
    }
    if exists i :: 1 <= i < |ls| && SimpleGraphs.EdgeTokens(ls[i]) == Some((u, v)) {
      var i :| 1 <= i < |ls| && SimpleGraphs.EdgeTokens(ls[i]) == Some((u, v));
      assert edges[i - 1] == (u, v);
    }
  }
}
