/**
 * The newest planar graph (src/structure/graph/planar_graph.rs): a parser
 * that reads points and edges into a local `PrePlanarGraph` which merges
 * parallel edges as they arrive, traces the faces, and splits the result
 * into a real graph and its dual.
 */
module MergingPlanarGraphs {
  import opened Wrappers
  import opened AdjLists
  import Rows
  import Faces
  import Graphs
  import Points
  import APE = AbstractPlanarEdges
  import PrePlanarGraphs
  import Edges

  /** `PrePlanarEdge<W>` of this API: faces optional. */
  type Edge = APE.PrePlanarEdge
  /** `PlanarEdge<W>` of this API: faces known. */
  type PEdge = APE.PlanarEdge

  function To(e: Edge): nat { e.to }

  /** Every entry sits in its tail's list and points at a vertex that has a list. */
  ghost predicate Placed(adj: seq<seq<Edge>>)
  {
    forall u, i :: 0 <= u < |adj| && 0 <= i < |adj[u]| ==> adj[u][i].from == u && adj[u][i].to < |adj|
  }

  /** Whenever u's list has an edge to v, v's list has an edge back to u. */
  ghost predicate Symmetric(adj: seq<seq<Edge>>)
  {
    forall u, i :: 0 <= u < |adj| && 0 <= i < |adj[u]| && adj[u][i].to < |adj| ==> AnyTo(adj[adj[u][i].to], To, u)
  }

  /** No two entries of a list lead to the same other vertex: there are no parallel edges. */
  ghost predicate Simple(adj: seq<seq<Edge>>)
  {
    forall u :: 0 <= u < |adj| ==> SimpleList(adj[u], u)
  }

  /** No two entries of u's list lead to the same vertex other than u. */
  ghost predicate SimpleList(es: seq<Edge>, u: nat)
  {
    forall i, j :: 0 <= i < |es| && 0 <= j < |es| && i != j && es[i].to == es[j].to ==> es[i].to == u
  }

  /** Appending an entry towards u itself, or towards a vertex not yet in the list, keeps it simple. */
  lemma SimpleListSnoc(es: seq<Edge>, x: Edge, u: nat)
    requires SimpleList(es, u)
    requires x.to == u || forall i :: 0 <= i < |es| ==> es[i].to != x.to
    ensures SimpleList(es + [x], u)
  {
    var r := es + [x];
    forall i, j | 0 <= i < |r| && 0 <= j < |r| && i != j && r[i].to == r[j].to
      ensures r[i].to == u
    {
      if i < |es| && j < |es| {
        assert r[i] == es[i] && r[j] == es[j];
      } else if i < |es| {
        assert r[i] == es[i];
      } else if j < |es| {
        assert r[j] == es[j];
      }
    }
  }

  /**
   * What `add_edge` needs of the strategy's `combine(new, old)`: the merged
   * edge keeps the new edge's endpoints and faces (only the weight is the
   * strategy's business).
   */
  ghost predicate CombineKeeps(combine: (Edge, Edge) -> Edge)
  {
    forall a: Edge, b: Edge :: combine(a, b).from == a.from && combine(a, b).to == a.to
      && combine(a, b).left == a.left && combine(a, b).right == a.right
  }

  /** The tracing dictionary of this edge type. */
  function FaceOps(): Faces.FaceOps<Edge>
  {
    Faces.FaceOps(
      (e: Edge) => e.from, To, (e: Edge) => e.weight,
      (e: Edge) => e.left, (e: Edge) => e.right,
      (e: Edge, f: nat) => e.(left := Some(f)), (e: Edge, f: nat) => e.(right := Some(f)))
  }

  lemma FaceOpsLawful()
    ensures Faces.Lawful(FaceOps())
  {
  }

  /**
   * `add_edge` orients the edge away from the endpoint whose list is
   * strictly shorter; on a tie it is reversed.
   */
  function Orient(adj: seq<seq<Edge>>, x: Edge): (e: Edge)
    requires x.from < |adj| && x.to < |adj|
    ensures e == x || e == APE.Reverse(x)
    ensures |adj[e.from]| <= |adj[e.to]|
    ensures |adj[x.from]| < |adj[x.to]| <==> e == x && x.from != x.to
  {
    if |adj[x.from]| < |adj[x.to]| then x else APE.Reverse(x)
  }

  /**
   * The lists after `add_edge` of the oriented edge e = u→v.  When u's list
   * already has an edge to v, its first such entry becomes combine(e, it),
   * and then the first entry of v's list back to u becomes
   * combine(reverse(e), it); None is the `expect` panic when v's list has no
   * such entry.  Otherwise e is added as a new edge.
   */
  function MergeAdj(adj: seq<seq<Edge>>, e: Edge, combine: (Edge, Edge) -> Edge): (r: Option<seq<seq<Edge>>>)
    requires e.from < |adj| && e.to < |adj|
    ensures r.Some? ==> |r.value| == |adj|
    ensures !AnyTo(adj[e.from], To, e.to) ==> r.Some? && forall w :: 0 <= w < |adj| ==>
      r.value[w] == adj[w] + (if w == e.from then [e] else []) + (if w == e.to then [APE.Reverse(e)] else [])
    ensures AnyTo(adj[e.from], To, e.to) && r.Some? ==> forall w :: 0 <= w < |adj| ==> |r.value[w]| == |adj[w]|
    ensures r.None? ==> AnyTo(adj[e.from], To, e.to) && (e.from != e.to ==> !AnyTo(adj[e.to], To, e.from))
  {
    var u, v := e.from, e.to;
    match Faces.FirstTo(adj[u], To, v)
    case None => Some(Graphs.AddEdgeAdj(APE.Ops(), adj, e))
    case Some(i) =>
      var a := adj[u := adj[u][i := combine(e, adj[u][i])]];
      match Faces.FirstTo(a[v], To, u)
      case None => None
      case Some(j) => Some(a[v := a[v][j := combine(APE.Reverse(e), a[v][j])]])
  }

  /** b differs from a at most in weights and faces: same lists, lengths and endpoints. */
  ghost predicate SameEnds(a: seq<seq<Edge>>, b: seq<seq<Edge>>)
  {
    && |a| == |b|
    && (forall u :: 0 <= u < |a| ==> |a[u]| == |b[u]|)
    && (forall u, i :: 0 <= u < |a| && 0 <= i < |a[u]| ==> b[u][i].from == a[u][i].from && b[u][i].to == a[u][i].to)
  }

  /** Lists with the same endpoints are placed, symmetric and simple together. */
  lemma SameEndsKeeps(a: seq<seq<Edge>>, b: seq<seq<Edge>>)
    requires SameEnds(a, b)
    ensures TotalLen(b) == TotalLen(a)
    ensures Placed(a) ==> Placed(b)
    ensures Symmetric(a) ==> Symmetric(b)
    ensures Simple(a) ==> Simple(b)
  {
    PrePlanarGraphs.TotalLenSameLengths(a, b);
    if Symmetric(a) {
      forall u, i | 0 <= u < |b| && 0 <= i < |b[u]| && b[u][i].to < |b|
        ensures AnyTo(b[b[u][i].to], To, u)
      {
        var t := b[u][i].to;
        assert a[u][i].to == t;
        var j :| 0 <= j < |a[t]| && To(a[t][j]) == u;
        assert To(b[t][j]) == u;
      }
    }
  }

  /**
   * Adding a new edge u→v keeps the lists placed and symmetric, adds two
   * entries, and keeps them simple when u's list had no edge to v yet.
   */
  lemma AddNewKeeps(adj: seq<seq<Edge>>, e: Edge)
    requires Placed(adj) && Symmetric(adj) && e.from < |adj| && e.to < |adj|
    ensures Graphs.Fits(APE.Ops(), |adj|, e)
    ensures Placed(Graphs.AddEdgeAdj(APE.Ops(), adj, e)) && Symmetric(Graphs.AddEdgeAdj(APE.Ops(), adj, e))
    ensures TotalLen(Graphs.AddEdgeAdj(APE.Ops(), adj, e)) == TotalLen(adj) + 2
  {
    var one := Push(adj, e.from, e);
    TotalLenPush(adj, e.from, e);
    TotalLenPush(one, e.to, APE.Reverse(e));
    AddNewPlaced(adj, e);
    AddNewSymmetric(adj, e);
  }

  lemma AddNewPlaced(adj: seq<seq<Edge>>, e: Edge)
    requires Placed(adj) && e.from < |adj| && e.to < |adj|
    ensures Placed(Push(Push(adj, e.from, e), e.to, APE.Reverse(e)))
  {
    var one := Push(adj, e.from, e);
    var r: seq<seq<Edge>> := Push(one, e.to, APE.Reverse(e));
    forall u: int, i: int | 0 <= u < |r| && 0 <= i < |r[u]|
      ensures r[u][i].from == u && r[u][i].to < |r|
    {
      if i < |one[u]| {
        assert r[u][i] == one[u][i];
        if i < |adj[u]| {
          assert r[u][i] == adj[u][i];
        }
      }
    }
  }

  lemma AddNewSymmetric(adj: seq<seq<Edge>>, e: Edge)
    requires Placed(adj) && Symmetric(adj) && e.from < |adj| && e.to < |adj|
    ensures Symmetric(Push(Push(adj, e.from, e), e.to, APE.Reverse(e)))
  {
    var b := APE.Reverse(e);
    var one := Push(adj, e.from, e);
    var r: seq<seq<Edge>> := Push(one, e.to, b);
    AddNewPlaced(adj, e);
    forall u: int, i: int | 0 <= u < |r| && 0 <= i < |r[u]| && r[u][i].to < |r|
      ensures AnyTo(r[r[u][i].to], To, u)
    {
      var x := r[u][i];
      if i < |one[u]| {
        assert x == one[u][i];
        if i < |adj[u]| {
          assert x == adj[u][i];
        }
      }
      AnyToPush(one, e.to, b, x.to, u, To);
      AnyToPush(adj, e.from, e, x.to, u, To);
    }
  }

  /** The simplicity half of `AddNewKeeps`. */
  lemma SimpleAfterAdd(adj: seq<seq<Edge>>, e: Edge)
    requires Placed(adj) && Symmetric(adj) && Simple(adj) && e.from < |adj| && e.to < |adj|
    requires !AnyTo(adj[e.from], To, e.to)
    ensures Simple(Graphs.AddEdgeAdj(APE.Ops(), adj, e))
  {
    var u, v := e.from, e.to;
    var one := Push(adj, u, e);
    var r: seq<seq<Edge>> := Push(one, v, APE.Reverse(e));
    assert r == Graphs.AddEdgeAdj(APE.Ops(), adj, e);
    // v's list had no edge back to u, or u's list would reach v.
    forall j | 0 <= j < |adj[v]|
      ensures adj[v][j].to != u
    {
    }
    forall w | 0 <= w < |r|
      ensures SimpleList(r[w], w)
    {
      assert SimpleList(adj[w], w);
      if w == u {
        SimpleListSnoc(adj[w], e, w);
      }
      if w == v {
        SimpleListSnoc(one[w], APE.Reverse(e), w);
      }
    }
  }

  /**
   * `add_edge` never reaches its `expect` panic on placed, symmetric lists,
   * keeps them placed, symmetric and simple, and adds two entries exactly
   * when no edge u→v was there yet.
   */
  lemma MergeKeeps(adj: seq<seq<Edge>>, e: Edge, combine: (Edge, Edge) -> Edge)
    requires Placed(adj) && Symmetric(adj) && CombineKeeps(combine) && e.from < |adj| && e.to < |adj|
    ensures MergeAdj(adj, e, combine).Some?
    ensures var r := MergeAdj(adj, e, combine).value;
      && Placed(r) && Symmetric(r)
      && TotalLen(r) == TotalLen(adj) + (if AnyTo(adj[e.from], To, e.to) then 0 else 2)
      && (Simple(adj) ==> Simple(r))
  {
    var u, v := e.from, e.to;
    match Faces.FirstTo(adj[u], To, v)
    case None =>
      AddNewKeeps(adj, e);
      if Simple(adj) {
        SimpleAfterAdd(adj, e);
      }
    case Some(i) =>
      assert adj[u][i].to == v;
      MergeCombineKeeps(adj, e, combine, i);
      SameEndsKeeps(adj, MergeAdj(adj, e, combine).value);
  }

  /** The merging branch of `add_edge` only rewrites two entries, keeping their endpoints. */
  lemma MergeCombineKeeps(adj: seq<seq<Edge>>, e: Edge, combine: (Edge, Edge) -> Edge, i: nat)
    requires Placed(adj) && CombineKeeps(combine) && e.from < |adj| && e.to < |adj|
    requires Faces.FirstTo(adj[e.from], To, e.to) == Some(i) && AnyTo(adj[e.to], To, e.from)
    ensures MergeAdj(adj, e, combine).Some?
    ensures SameEnds(adj, MergeAdj(adj, e, combine).value)
  {
    var u, v := e.from, e.to;
    var x := combine(e, adj[u][i]);
    var a := adj[u := adj[u][i := x]];
    ReplaceSameEnds(adj, u, i, x);
    if v == u {
      assert a[v][i] == x;
    } else {
      assert a[v] == adj[v];
    }
    assert AnyTo(a[v], To, u);
    var j := Faces.FirstTo(a[v], To, u).value;
    assert a[v][j].from == v by {
      if v == u && j == i {
      } else {
        assert a[v][j] == adj[v][j];
      }
    }
    ReplaceSameEnds(a, v, j, combine(APE.Reverse(e), a[v][j]));
    SameEndsTrans(adj, a, MergeAdj(adj, e, combine).value);
  }

  /** Rewriting one entry with one of the same endpoints. */
  lemma ReplaceSameEnds(adj: seq<seq<Edge>>, u: nat, k: nat, x: Edge)
    requires u < |adj| && k < |adj[u]| && x.from == adj[u][k].from && x.to == adj[u][k].to
    ensures SameEnds(adj, adj[u := adj[u][k := x]])
  {
  }

  lemma SameEndsTrans(a: seq<seq<Edge>>, b: seq<seq<Edge>>, c: seq<seq<Edge>>)
    requires SameEnds(a, b) && SameEnds(b, c)
    ensures SameEnds(a, c)
  {
  }

  /** The shape `add_edge` keeps: placed, symmetric lists without parallel edges. */
  ghost predicate Lists(adj: seq<seq<Edge>>)
  {
    Placed(adj) && Symmetric(adj) && Simple(adj)
  }

  /** `add_edge` keeps the shape and never reaches its `expect` panic. */
  lemma MergeLists(adj: seq<seq<Edge>>, e: Edge, combine: (Edge, Edge) -> Edge)
    requires Lists(adj) && CombineKeeps(combine) && e.from < |adj| && e.to < |adj|
    ensures MergeAdj(adj, e, combine).Some?
    ensures |MergeAdj(adj, e, combine).value| == |adj|
    ensures Lists(MergeAdj(adj, e, combine).value) && Graphs.Placed(APE.Ops(), MergeAdj(adj, e, combine).value)
    ensures TotalLen(MergeAdj(adj, e, combine).value) == TotalLen(adj) + (if AnyTo(adj[e.from], To, e.to) then 0 else 2)
  {
    MergeKeeps(adj, e, combine);
  }

  /** Merging an edge without faces into lists without faces leaves them without faces. */
  lemma MergeKeepsNoFaces(adj: seq<seq<Edge>>, e: Edge, combine: (Edge, Edge) -> Edge)
    requires CombineKeeps(combine) && e.from < |adj| && e.to < |adj|
    requires MergeAdj(adj, e, combine).Some?
    requires Faces.NoFaces(FaceOps(), adj) && e.left.None? && e.right.None?
    ensures Faces.NoFaces(FaceOps(), MergeAdj(adj, e, combine).value)
  {
    var u, v := e.from, e.to;
    var r := MergeAdj(adj, e, combine).value;
    match Faces.FirstTo(adj[u], To, v)
    case None =>
      var one := Push(adj, u, e);
      assert r == Push(one, v, APE.Reverse(e));
      assert Faces.NoFaces(FaceOps(), one);
    case Some(i) =>
      var a := adj[u := adj[u][i := combine(e, adj[u][i])]];
      assert Faces.NoFaces(FaceOps(), a);
  }

  const UNDEFINED_POINT := "Not all points have been defined"
  const FACES_MISSING := "Not all edges found both a left and right region!"
  const OUT_OF_BOUNDS := "index out of bounds"

  /** The `PlanarGraph` this API builds: the real graph (`primal` here) and its dual, both of planar edges. */
  datatype PlanarGraph = PlanarGraph(primal: Graphs.UndirectedGraph<PEdge>, dual: Graphs.UndirectedGraph<PEdge>)
  {
    /** `n()` and `m()` come from the real graph, `f()` from the dual. */
    function N(): (r: nat)
      reads primal
      ensures r == primal.n
      ensures primal.Valid() ==> r == |primal.adj|
    {
      primal.n
    }

    /** Every edge of the real graph is added undirected, so it is listed twice. */
    function M(): (r: nat)
      reads primal
      ensures r == primal.m
      ensures primal.Valid() && primal.directed == 0 ==> 2 * r == TotalLen(primal.adj)
    {
      primal.m
    }

    function F(): (r: nat)
      reads dual
      ensures r == dual.n
      ensures dual.Valid() ==> r == |dual.adj|
    {
      dual.n
    }
  }

  /** The local `PrePlanarGraph`: the edge lists so far and the points read so far. */
  class PrePlanarGraph {
    const graph: Graphs.UndirectedGraph<Edge>
    var points: seq<Option<Points.Point>>

    /**
     * One point slot per vertex, each defined slot holding the point with
     * that id; the lists placed, symmetric and without parallel edges.
     */
    ghost predicate Valid()
      reads this, graph
    {
      && graph.Valid() && graph.ops == APE.Ops() && graph.directed == 0
      && |points| == graph.n
      && Lists(graph.adj)
      && (forall i :: 0 <= i < |points| && points[i].Some? ==> points[i].value.id == i)
    }

    /** `empty(n)`: an n-vertex graph with no edges and n undefined points. */
    constructor Empty(n: nat)
      ensures Valid() && fresh(graph)
      ensures points == PrePlanarGraphs.Nones(n) && graph.n == n && graph.adj == EmptyLists(n) && graph.m == 0
    {
      graph := new Graphs.UndirectedGraph(APE.Ops(), n);
      points := PrePlanarGraphs.Nones(n);
    }

    /** `add_vertex(u)`: slot u.id now holds u; the lists do not change. */
    method AddVertex(p: Points.Point)
      requires Valid() && p.id < |points|
      modifies this
      ensures Valid() && points == old(points)[p.id := Some(p)]
    {
      points := points[p.id := Some(p)];
    }

    /**
     * `add_edge::<S>(x)`: x oriented from the endpoint with the shorter
     * list, then merged into the edge already there with `combine`, or added.
     * The graph stays free of parallel edges, the `expect` never fires, and
     * m grows exactly when the edge is new.
     */
    method AddEdge(x: Edge, combine: (Edge, Edge) -> Edge)
      requires Valid() && x.from < |points| && x.to < |points| && CombineKeeps(combine)
      modifies graph
      ensures Valid() && points == old(points)
      ensures var e := Orient(old(graph.adj), x);
        && MergeAdj(old(graph.adj), e, combine) == Some(graph.adj)
        && graph.m == old(graph.m) + (if AnyTo(old(graph.adj)[e.from], To, e.to) then 0 else 1)
    {
      var e := Orient(graph.adj, x);
      MergeLists(graph.adj, e, combine);
      var i := Faces.FirstTo(graph.adj[e.from], To, e.to);
      if i.Some? {
        AnyToFirst(graph.adj[e.from], e.to, i.value);
        Combine(e, i.value, combine);
      } else {
        NoneNotAnyTo(graph.adj[e.from], e.to);
        APE.OpsLawful<Option<nat>>();
        graph.AddEdge(e);
      }
    }

    /**
     * The merging branch of `add_edge`: the first entry u→v becomes
     * combine(e, it), then the first entry v→u becomes combine(reverse(e), it).
     */
    method Combine(e: Edge, i: nat, combine: (Edge, Edge) -> Edge)
      requires e.from < |graph.adj| && e.to < |graph.adj|
      requires Faces.FirstTo(graph.adj[e.from], To, e.to) == Some(i) && MergeAdj(graph.adj, e, combine).Some?
      modifies graph
      ensures graph.adj == MergeAdj(old(graph.adj), e, combine).value
      ensures graph.n == old(graph.n) && graph.m == old(graph.m) && graph.directed == old(graph.directed)
    {
      var u, v := e.from, e.to;
      graph.adj := graph.adj[u := graph.adj[u][i := combine(e, graph.adj[u][i])]];
      var j := Faces.FirstTo(graph.adj[v], To, u);
      graph.adj := graph.adj[v := graph.adj[v][j.value := combine(APE.Reverse(e), graph.adj[v][j.value])]];
    }

    /**
     * `determine_faces`: traces the faces over the lists as they are, then
     * requires both faces on every edge leaving a point.  Euler's formula
     * is only printed about, never enforced, so the count of traced faces
     * is the result.
     */
    method DetermineFaces() returns (r: Result<nat, string>)
      requires Valid()
      modifies graph
      ensures Valid() && graph.m == old(graph.m)
      ensures Faces.SameShape(FaceOps(), old(graph.adj), graph.adj)
      ensures r.Ok? ==> Complete(graph.adj)
      ensures r.Ok? && Faces.NoFaces(FaceOps(), old(graph.adj)) ==> Faces.FacesBelow(FaceOps(), graph.adj, r.value)
      ensures r.Err? ==> r.error in {Faces.REVERSE_MISSING, Faces.WALK_OPEN, FACES_MISSING}
    {
      FaceOpsLawful();
      ghost var before := graph.adj;
      var traced := Faces.TraceFaces(FaceOps(), graph.adj, graph.n);
      if traced.Err? {
        return Err(traced.error);
      }
      var adj := traced.value.0;
      ShapeKeeps(before, adj);
      graph.adj := adj;
      assert graph.Valid();
      if !Faces.AllFacesSet(FaceOps(), adj, |points|) {
        return Err(FACES_MISSING);
      }
      return Ok(traced.value.1);
    }

    /**
     * `planarize`: every point must be defined; the faces are traced; then
     * every entry running from a lower to a higher vertex is unwrapped into
     * the real graph and its `rotate_right` into a dual with one vertex per
     * traced face.  The clockwise sorting of the lists is not modelled: the
     * lists are taken to be in rotation order already.
     */
    method Planarize() returns (r: Result<PlanarGraph, string>)
      requires Valid()
      modifies graph
      ensures (exists i :: 0 <= i < |points| && points[i].None?) ==> r == Err(UNDEFINED_POINT)
      ensures r.Err? ==> r.error in {UNDEFINED_POINT, Faces.REVERSE_MISSING, Faces.WALK_OPEN, FACES_MISSING, OUT_OF_BOUNDS}
      ensures r.Err? && Faces.NoFaces(FaceOps(), old(graph.adj)) ==> r.error != OUT_OF_BOUNDS
      ensures r.Ok? ==>
        && Valid() && Faces.SameShape(FaceOps(), old(graph.adj), graph.adj) && Complete(graph.adj)
        && fresh(r.value.primal) && fresh(r.value.dual)
        && Stage(r.value.primal, r.value.dual, |points|, r.value.dual.n, Forwards(PlanarizeLists(graph.adj)))
    {
      var pts := PrePlanarGraphs.DefinedPoints(points);
      if pts.None? {
        return Err(UNDEFINED_POINT);
      }
      ghost var before := graph.adj;
      var faces := DetermineFaces();
      if faces.Err? {
        return Err(faces.error);
      }
      r := Unwrap(before, graph.adj, graph.n, faces.value);
    }
  }

  lemma AnyToFirst(es: seq<Edge>, v: nat, i: nat)
    requires Faces.FirstTo(es, To, v) == Some(i)
    ensures AnyTo(es, To, v)
  {
  }

  lemma NoneNotAnyTo(es: seq<Edge>, v: nat)
    requires Faces.FirstTo(es, To, v).None?
    ensures !AnyTo(es, To, v)
  {
  }

  /** Changing only faces keeps the lists placed, symmetric and simple. */
  lemma ShapeKeeps(a: seq<seq<Edge>>, b: seq<seq<Edge>>)
    requires Faces.SameShape(FaceOps(), a, b)
    ensures SameEnds(a, b) && TotalLen(b) == TotalLen(a)
    ensures Placed(a) ==> Placed(b) && Graphs.Placed(APE.Ops(), b)
    ensures Symmetric(a) ==> Symmetric(b)
    ensures Simple(a) ==> Simple(b)
    ensures Lists(a) ==> Lists(b)
  {
    SameEndsKeeps(a, b);
  }

  /** Every entry has both faces, so `planarize` may unwrap them. */
  predicate Complete(adj: seq<seq<Edge>>)
  {
    forall u, i :: 0 <= u < |adj| && 0 <= i < |adj[u]| ==> adj[u][i].left.Some? && adj[u][i].right.Some?
  }

  /** `e.planarize()` of every entry, list by list. */
  function PlanarizeLists(adj: seq<seq<Edge>>): (r: seq<seq<PEdge>>)
    requires Complete(adj)
    ensures |r| == |adj| && forall u :: 0 <= u < |adj| ==> |r[u]| == |adj[u]|
    ensures forall u, i :: 0 <= u < |adj| && 0 <= i < |adj[u]| ==> r[u][i] == APE.Planarize(adj[u][i])
  {
    seq(|adj|, u requires 0 <= u < |adj| => seq(|adj[u]|, i requires 0 <= i < |adj[u]| => APE.Planarize(adj[u][i])))
  }

  /** Both endpoints are among n vertices and both faces among f faces. */
  predicate EdgeWithin(e: PEdge, n: nat, f: nat)
  {
    e.from < n && e.to < n && e.left < f && e.right < f
  }

  /** Every `add_edge` of `planarize` lands inside the real graph's n and the dual's f lists. */
  predicate LinesWithin(lines: seq<seq<PEdge>>, n: nat, f: nat)
  {
    forall u, i :: 0 <= u < |lines| && 0 <= i < |lines[u]| ==> EdgeWithin(lines[u][i], n, f)
  }

  /**
   * Traced lists whose edges had no faces before have every face below the
   * count, so the unwrapped edges fit both graphs.
   */
  lemma PlanarizeWithin(before: seq<seq<Edge>>, traced: seq<seq<Edge>>, f: nat)
    requires Faces.SameShape(FaceOps(), before, traced) && Placed(before) && Complete(traced)
    ensures Faces.NoFaces(FaceOps(), before) && Faces.FacesBelow(FaceOps(), traced, f) ==>
      LinesWithin(PlanarizeLists(traced), |traced|, f)
  {
    ShapeKeeps(before, traced);
  }

  /** The entries of one list that `planarize` keeps: those leading to a higher vertex, in order. */
  function Forward(es: seq<PEdge>): (r: seq<PEdge>)
    ensures |r| <= |es|
  {
    if |es| == 0 then []
    else
      var init := Forward(es[..|es| - 1]);
      var e := es[|es| - 1];
      if e.from < e.to then init + [e] else init
  }

  /** The edges `planarize` adds to the real graph, list by list. */
  function Forwards(lines: seq<seq<PEdge>>): (r: seq<PEdge>)
  {
    if |lines| == 0 then [] else Forwards(lines[..|lines| - 1]) + Forward(lines[|lines| - 1])
  }

  /** `rotate_right` of each edge, in order: the edges `planarize` adds to the dual. */
  function RotateEach(es: seq<PEdge>): (r: seq<PEdge>)
    ensures |r| == |es| && forall k :: 0 <= k < |es| ==> r[k] == APE.RotateRight(es[k])
  {
    seq(|es|, k requires 0 <= k < |es| => APE.RotateRight(es[k]))
  }

  /** A list keeps exactly its entries that lead to a higher vertex. */
  lemma {:induction false} ForwardMembership(es: seq<PEdge>, x: PEdge)
    ensures x in Forward(es) <==> x in es && x.from < x.to
  {
    if |es| > 0 {
      var init := es[..|es| - 1];
      ForwardMembership(init, x);
      assert es == init + [es[|es| - 1]];
    }
  }

  /** One more entry of a list: kept when it leads to a higher vertex. */
  lemma ForwardSnoc(es: seq<PEdge>, j: nat)
    requires j < |es|
    ensures es[j].from < es[j].to ==> Forward(es[..j + 1]) == Forward(es[..j]) + [es[j]]
    ensures es[j].from >= es[j].to ==> Forward(es[..j + 1]) == Forward(es[..j])
  {
    assert es[..j + 1][..j] == es[..j];
  }

  /** The real graph gets exactly the entries of the lists that lead to a higher vertex. */
  lemma {:induction false} ForwardsMembership(lines: seq<seq<PEdge>>, x: PEdge)
    ensures x in Forwards(lines) <==>
      x.from < x.to && exists u, i :: 0 <= u < |lines| && 0 <= i < |lines[u]| && lines[u][i] == x
  {
    if |lines| > 0 {
      var init := lines[..|lines| - 1];
      var last := lines[|lines| - 1];
      ForwardsMembership(init, x);
      ForwardMembership(last, x);
      if x in last {
        var i :| 0 <= i < |last| && last[i] == x;
        assert lines[|lines| - 1][i] == x;
      }
      if exists u, i :: 0 <= u < |lines| && 0 <= i < |lines[u]| && lines[u][i] == x {
        var u, i :| 0 <= u < |lines| && 0 <= i < |lines[u]| && lines[u][i] == x;
        if u < |lines| - 1 {
          assert init[u][i] == x;
        }
      }
    }
  }

  /** Every edge the real graph gets, and its rotation, fit when all the lists fit. */
  lemma ForwardsFit(lines: seq<seq<PEdge>>, n: nat, f: nat)
    requires LinesWithin(lines, n, f)
    ensures Graphs.AllFit(APE.Ops<nat>(), n, Forwards(lines))
    ensures Graphs.AllFit(APE.Ops<nat>(), f, RotateEach(Forwards(lines)))
  {
    forall k | 0 <= k < |Forwards(lines)|
      ensures EdgeWithin(Forwards(lines)[k], n, f)
    {
      ForwardsMembership(lines, Forwards(lines)[k]);
    }
  }

  /**
   * After adding a sequence of planar edges to empty lists, w's list holds
   * exactly the edges leaving w that were added, and the reversals of
   * those that were added towards w.
   */
  lemma GraphMembership(edges: seq<PEdge>, n: nat, w: nat, x: PEdge)
    requires Graphs.AllFit(APE.Ops<nat>(), n, edges) && w < n
    ensures x in Graphs.AddAllEdges(APE.Ops<nat>(), EmptyLists(n), edges)[w] <==>
      x.from == w && (x in edges || APE.Reverse(x) in edges)
  {
    var ops := APE.Ops<nat>();
    Graphs.AddAllEdgesMembership(ops, EmptyLists(n), edges, w, x);
    APE.ReverseInvolution(x);
    if APE.Reverse(x) in edges {
      var i :| 0 <= i < |edges| && edges[i] == APE.Reverse(x);
      APE.ReverseInvolution(edges[i]);
      assert x == ops.reverse(edges[i]) && Graphs.BackOf(ops, edges[i]) == x.from;
    }
    if exists i :: 0 <= i < |edges| && x == ops.reverse(edges[i]) && Graphs.BackOf(ops, edges[i]) == w {
      var i :| 0 <= i < |edges| && x == ops.reverse(edges[i]) && Graphs.BackOf(ops, edges[i]) == w;
      APE.ReverseInvolution(edges[i]);
    }
  }

  /**
   * The graphs `planarize` builds: the real graph's lists hold exactly the
   * forward entries and their reversals, and each entry e = u→v with u < v
   * gives the dual an edge from e's left face to its right face and back.
   */
  lemma PlanarizedMembership(lines: seq<seq<PEdge>>, n: nat, f: nat, w: nat, x: PEdge)
    requires LinesWithin(lines, n, f) && w < n
    ensures Graphs.AllFit(APE.Ops<nat>(), n, Forwards(lines))
    ensures Graphs.AllFit(APE.Ops<nat>(), f, RotateEach(Forwards(lines)))
    ensures x in Graphs.AddAllEdges(APE.Ops<nat>(), EmptyLists(n), Forwards(lines))[w] <==>
      x.from == w && (x in Forwards(lines) || APE.Reverse(x) in Forwards(lines))
    ensures x in Forwards(lines) ==>
      && APE.RotateRight(x) in Graphs.AddAllEdges(APE.Ops<nat>(), EmptyLists(f), RotateEach(Forwards(lines)))[x.left]
      && APE.Reverse(APE.RotateRight(x)) in Graphs.AddAllEdges(APE.Ops<nat>(), EmptyLists(f), RotateEach(Forwards(lines)))[x.right]
  {
    ForwardsFit(lines, n, f);
    GraphMembership(Forwards(lines), n, w, x);
    if x in Forwards(lines) {
      ForwardsMembership(lines, x);
      var fwd := Forwards(lines);
      var k :| 0 <= k < |fwd| && fwd[k] == x;
      var y := APE.RotateRight(x);
      assert RotateEach(fwd)[k] == y;
      GraphMembership(RotateEach(fwd), f, x.left, y);
      APE.ReverseInvolution(y);
      GraphMembership(RotateEach(fwd), f, x.right, APE.Reverse(y));
    }
  }

  /**
   * The state of `planarize` after adding the edges `done`: a real graph on
   * n vertices and a dual on f, distinct, each holding exactly those adds.
   */
  ghost predicate Stage(primal: Graphs.UndirectedGraph<PEdge>, dual: Graphs.UndirectedGraph<PEdge>, n: nat, f: nat, done: seq<PEdge>)
    reads primal, dual
  {
    && primal != dual
    && primal.Valid() && primal.ops == APE.Ops<nat>() && primal.n == n && primal.directed == 0
    && dual.Valid() && dual.ops == APE.Ops<nat>() && dual.n == f && dual.directed == 0
    && Graphs.AllFit(APE.Ops<nat>(), n, done) && Graphs.AllFit(APE.Ops<nat>(), f, RotateEach(done))
    && primal.adj == Graphs.AddAllEdges(APE.Ops<nat>(), EmptyLists(n), done) && primal.m == |done|
    && dual.adj == Graphs.AddAllEdges(APE.Ops<nat>(), EmptyLists(f), RotateEach(done)) && dual.m == |done|
  }

  /** Adding one more edge that fits keeps every added edge fitting. */
  lemma AllFitSnoc(n: nat, added: seq<PEdge>, d: PEdge)
    requires Graphs.AllFit(APE.Ops<nat>(), n, added) && Graphs.Fits(APE.Ops<nat>(), n, d)
    ensures Graphs.AllFit(APE.Ops<nat>(), n, added + [d])
    ensures Graphs.AddAllEdges(APE.Ops<nat>(), EmptyLists(n), added + [d])
      == Graphs.AddEdgeAdj(APE.Ops<nat>(), Graphs.AddAllEdges(APE.Ops<nat>(), EmptyLists(n), added), d)
  {
    assert (added + [d])[..|added|] == added;
  }

  /**
   * The end of `planarize` once the faces are traced: every entry
   * unwrapped, then the real graph and the dual built; a face at or above
   * f would index past the dual's lists.
   */
  method Unwrap(ghost before: seq<seq<Edge>>, adj: seq<seq<Edge>>, n: nat, f: nat) returns (r: Result<PlanarGraph, string>)
    requires Complete(adj) && n == |adj|
    requires Faces.SameShape(FaceOps(), before, adj) && Placed(before)
    requires Faces.NoFaces(FaceOps(), before) ==> Faces.FacesBelow(FaceOps(), adj, f)
    ensures r.Err? <==> !LinesWithin(PlanarizeLists(adj), n, f)
    ensures r.Err? ==> r.error == OUT_OF_BOUNDS && !Faces.NoFaces(FaceOps(), before)
    ensures r.Ok? ==> fresh(r.value.primal) && fresh(r.value.dual) && Stage(r.value.primal, r.value.dual, n, f, Forwards(PlanarizeLists(adj)))
  {
    PlanarizeWithin(before, adj, f);
    var lines := PlanarizeLists(adj);
    if !LinesWithin(lines, n, f) {
      return Err(OUT_OF_BOUNDS);
    }
    var g := Split(lines, n, f);
    return Ok(g);
  }

  /**
   * The loops of `planarize`: a real graph on n vertices and a dual on f,
   * and every forward entry of every list added to both, in order.
   */
  method Split(lines: seq<seq<PEdge>>, n: nat, f: nat) returns (g: PlanarGraph)
    requires LinesWithin(lines, n, f)
    ensures fresh(g.primal) && fresh(g.dual)
    ensures Stage(g.primal, g.dual, n, f, Forwards(lines))
  {
    var primal := new Graphs.UndirectedGraph(APE.Ops<nat>(), n);
    var dual := new Graphs.UndirectedGraph(APE.Ops<nat>(), f);
    for u := 0 to |lines|
      invariant Stage(primal, dual, n, f, Forwards(lines[..u]))
      modifies primal, dual
    {
      assert lines[..u + 1][..u] == lines[..u];
      AddForwards(primal, dual, n, f, lines[u], Forwards(lines[..u]));
    }
    assert lines[..|lines|] == lines;
    return PlanarGraph(primal, dual);
  }

  /** `real.add_edge(p); dual.add_edge(p.rotate_right())` for one edge p. */
  method AddForward(primal: Graphs.UndirectedGraph<PEdge>, dual: Graphs.UndirectedGraph<PEdge>, n: nat, f: nat, e: PEdge,
                    ghost added: seq<PEdge>, ghost after: seq<PEdge>)
    requires Stage(primal, dual, n, f, added) && EdgeWithin(e, n, f) && after == added + [e]
    modifies primal, dual
    ensures Stage(primal, dual, n, f, after)
  {
    APE.OpsLawful<nat>();
    AllFitSnoc(n, added, e);
    AllFitSnoc(f, RotateEach(added), APE.RotateRight(e));
    assert RotateEach(added + [e]) == RotateEach(added) + [APE.RotateRight(e)];
    primal.AddEdge(e);
    dual.AddEdge(APE.RotateRight(e));
  }

  /** The inner loop of `planarize`: the forward entries of one list, in order. */
  method AddForwards(primal: Graphs.UndirectedGraph<PEdge>, dual: Graphs.UndirectedGraph<PEdge>, n: nat, f: nat, es: seq<PEdge>, ghost done: seq<PEdge>)
    requires Stage(primal, dual, n, f, done)
    requires forall i :: 0 <= i < |es| ==> EdgeWithin(es[i], n, f)
    modifies primal, dual
    ensures Stage(primal, dual, n, f, done + Forward(es))
  {
    assert es[..0] == [] && done + Forward(es[..0]) == done;
    ghost var d := done;
    for j := 0 to |es|
      invariant d == done + Forward(es[..j])
      invariant Stage(primal, dual, n, f, d)
    {
      d := AddEntry(primal, dual, n, f, es, j, done);
    }
    assert es[..|es|] == es;
  }

  /** One entry of the inner loop: added to both graphs when it leads to a higher vertex. */
  method AddEntry(primal: Graphs.UndirectedGraph<PEdge>, dual: Graphs.UndirectedGraph<PEdge>, n: nat, f: nat, es: seq<PEdge>, j: nat, ghost done: seq<PEdge>)
      returns (ghost d: seq<PEdge>)
    requires j < |es| && EdgeWithin(es[j], n, f)
    requires Stage(primal, dual, n, f, done + Forward(es[..j]))
    modifies primal, dual
    ensures d == done + Forward(es[..j + 1])
    ensures Stage(primal, dual, n, f, d)
  {
    d := done + Forward(es[..j + 1]);
    ForwardSnoc(es, j);
    if es[j].from < es[j].to {
      AddForward(primal, dual, n, f, es[j], done + Forward(es[..j]), done + Forward(es[..j + 1]));
    }
  }

  /**
   * The lists after `add_edge` of every edge in order, starting from n
   * empty lists; None once an endpoint is outside the lists or the
   * `expect` would panic.
   */
  ghost function Build(n: nat, edges: seq<Edge>, combine: (Edge, Edge) -> Edge): Option<seq<seq<Edge>>>
  {
    if |edges| == 0 then Some(EmptyLists(n))
    else
      match Build(n, edges[..|edges| - 1], combine)
      case None => None
      case Some(adj) =>
        var x := edges[|edges| - 1];
        if x.from < |adj| && x.to < |adj| then MergeAdj(adj, Orient(adj, x), combine) else None
  }

  /** An edge row's edge: inside the n lists and without faces. */
  predicate Unplaced(e: Edge, n: nat)
  {
    e.from < n && e.to < n && e.left.None? && e.right.None?
  }

  /**
   * Adding edges between existing vertices never reaches the `expect`
   * panic, and the lists stay placed, symmetric, free of parallel edges
   * and, when the edges had no faces, without faces.
   */
  lemma {:induction false} BuildKeeps(n: nat, edges: seq<Edge>, combine: (Edge, Edge) -> Edge)
    requires CombineKeeps(combine)
    requires forall k :: 0 <= k < |edges| ==> edges[k].from < n && edges[k].to < n
    ensures Build(n, edges, combine).Some?
    ensures var adj := Build(n, edges, combine).value;
      |adj| == n && Placed(adj) && Symmetric(adj) && Simple(adj)
  {
    if |edges| == 0 {
      assert forall u :: 0 <= u < n ==> EmptyLists<Edge>(n)[u] == [];
    } else {
      var init := edges[..|edges| - 1];
      BuildKeeps(n, init, combine);
      var adj := Build(n, init, combine).value;
      MergeKeeps(adj, Orient(adj, edges[|edges| - 1]), combine);
    }
  }

  /** Edges without faces build lists without faces. */
  lemma {:induction false} BuildNoFaces(n: nat, edges: seq<Edge>, combine: (Edge, Edge) -> Edge)
    requires CombineKeeps(combine)
    requires forall k :: 0 <= k < |edges| ==> Unplaced(edges[k], n)
    ensures Build(n, edges, combine).Some?
    ensures Faces.NoFaces(FaceOps(), Build(n, edges, combine).value)
  {
    BuildKeeps(n, edges, combine);
    if |edges| > 0 {
      var init := edges[..|edges| - 1];
      BuildNoFaces(n, init, combine);
      var adj := Build(n, init, combine).value;
      var x := edges[|edges| - 1];
      assert Unplaced(x, n);
      MergeKeepsNoFaces(adj, Orient(adj, x), combine);
    }
  }

  /**
   * An edge line: `PrePlanarEdge::from_str` with no faces; an endpoint
   * outside the n lists panics in `add_edge`.
   */
  function EdgeRow(n: nat, line: string): (r: Result<Edge, string>)
    ensures r.Ok? <==>
      (APE.FromStr<Option<nat>>(line, None).Ok?
       && APE.FromStr<Option<nat>>(line, None).value.from < n && APE.FromStr<Option<nat>>(line, None).value.to < n)
    ensures r.Ok? ==> r.value == APE.FromStr<Option<nat>>(line, None).value && Unplaced(r.value, n)
    ensures APE.FromStr<Option<nat>>(line, None).Err? ==> r == Err(APE.FromStr<Option<nat>>(line, None).error)
  {
    match APE.FromStr<Option<nat>>(line, None)
    case Err(e) => Err(e)
    case Ok(e) => if e.from < n && e.to < n then Ok(e) else Err(OUT_OF_BOUNDS)
  }

  function EdgeParser(n: nat): string -> Result<Edge, string>
  {
    (line: string) => EdgeRow(n, line)
  }

  /**
   * What `parse` reads, as a value: the header, n point lines and m edge
   * lines among the trimmed lines that are neither empty nor '%'
   * comments.  The first failure, running out of lines included, is the
   * error.
   */
  function ParseInput(s: string, parseF64: string -> Option<real>): (r: Result<(nat, seq<Points.Point>, seq<Edge>), string>)
    ensures r.Ok? ==> Read(r.value)
  {
    ParseRowsIn(Graphs.GraphLines(s), parseF64)
  }

  /** n points with ids below n, and edges inside the n lists without faces. */
  predicate Read(input: (nat, seq<Points.Point>, seq<Edge>))
  {
    var (n, pts, es) := input;
    && |pts| == n && (forall k :: 0 <= k < |pts| ==> pts[k].id < n)
    && forall k :: 0 <= k < |es| ==> Unplaced(es[k], n)
  }

  /** Every point a point block yields has an id below n. */
  lemma ParsedPointsBelow(rows: seq<string>, parseF64: string -> Option<real>, n: nat)
    requires Rows.ParseRows(rows, PrePlanarGraphs.VertexParser(parseF64, n)).Ok?
    ensures forall k :: 0 <= k < |rows| ==> Rows.ParseRows(rows, PrePlanarGraphs.VertexParser(parseF64, n)).value[k].id < n
  {
    var pts := Rows.ParseRows(rows, PrePlanarGraphs.VertexParser(parseF64, n)).value;
    forall k | 0 <= k < |rows|
      ensures pts[k].id < n
    {
      assert PrePlanarGraphs.VertexParser(parseF64, n)(rows[k]) == PrePlanarGraphs.VertexRow(parseF64, n, rows[k]);
    }
  }

  /** Every edge an edge block yields lies inside the n lists and has no faces. */
  lemma ParsedEdgesUnplaced(rows: seq<string>, n: nat)
    requires Rows.ParseRows(rows, EdgeParser(n)).Ok?
    ensures forall k :: 0 <= k < |rows| ==> Unplaced(Rows.ParseRows(rows, EdgeParser(n)).value[k], n)
  {
    var es := Rows.ParseRows(rows, EdgeParser(n)).value;
    forall k | 0 <= k < |rows|
      ensures Unplaced(es[k], n)
    {
      assert EdgeParser(n)(rows[k]) == EdgeRow(n, rows[k]);
    }
  }

  /** `parse` on the lines it keeps. */
  function ParseRowsIn(ls: seq<string>, parseF64: string -> Option<real>): (r: Result<(nat, seq<Points.Point>, seq<Edge>), string>)
    ensures ls == [] ==> r == Err(PrePlanarGraphs.NO_FIRST_ROW)
    ensures r.Ok? ==> Read(r.value)
  {
    if |ls| == 0 then Err(PrePlanarGraphs.NO_FIRST_ROW)
    else if PrePlanarGraphs.Header(ls[0]).Err? then Err(PrePlanarGraphs.Header(ls[0]).error)
    else
      var (n, m) := PrePlanarGraphs.Header(ls[0]).value;
      var pts := PrePlanarGraphs.ParseBlock(ls[1..], n, PrePlanarGraphs.VertexParser(parseF64, n), PrePlanarGraphs.NO_VERTEX);
      if pts.Err? then Err(pts.error)
      else
        var es := PrePlanarGraphs.ParseBlock(ls[1 + n..], m, EdgeParser(n), PrePlanarGraphs.NO_EDGE);
        if es.Err? then Err(es.error)
        else
          ParsedPointsBelow(ls[1..][..n], parseF64, n);
          ParsedEdgesUnplaced(ls[1 + n..][..m], n);
          Ok((n, pts.value, es.value))
  }

  /** The points of the rows after the header, as `ParseRowsIn` reads them. */
  function PointsIn(ls: seq<string>, parseF64: string -> Option<real>): Result<seq<Points.Point>, string>
    requires |ls| > 0 && PrePlanarGraphs.Header(ls[0]).Ok?
  {
    var n := PrePlanarGraphs.Header(ls[0]).value.0;
    Rows.ParseRows(PrePlanarGraphs.Take(ls[1..], n), PrePlanarGraphs.VertexParser(parseF64, n))
  }

  /** The edges of the rows after the point block, as `ParseRowsIn` reads them. */
  function EdgesIn(ls: seq<string>): Result<seq<Edge>, string>
    requires |ls| > 0 && PrePlanarGraphs.Header(ls[0]).Ok? && |ls| - 1 >= PrePlanarGraphs.Header(ls[0]).value.0
  {
    var (n, m) := PrePlanarGraphs.Header(ls[0]).value;
    Rows.ParseRows(PrePlanarGraphs.Take(ls[1 + n..], m), EdgeParser(n))
  }

  /** A bad point row ends `ParseRowsIn` with its error. */
  lemma PointsFailed(ls: seq<string>, parseF64: string -> Option<real>)
    requires |ls| > 0 && PrePlanarGraphs.Header(ls[0]).Ok? && PointsIn(ls, parseF64).Err?
    ensures ParseRowsIn(ls, parseF64) == Err(PointsIn(ls, parseF64).error)
  {
  }

  /** Too few point rows end `ParseRowsIn` with the missing-vertex error. */
  lemma PointsShort(ls: seq<string>, parseF64: string -> Option<real>)
    requires |ls| > 0 && PrePlanarGraphs.Header(ls[0]).Ok? && PointsIn(ls, parseF64).Ok?
    requires |ls| - 1 < PrePlanarGraphs.Header(ls[0]).value.0
    ensures ParseRowsIn(ls, parseF64) == Err(PrePlanarGraphs.NO_VERTEX)
  {
  }

  /** A full point block has one point per vertex. */
  lemma PointsFull(ls: seq<string>, parseF64: string -> Option<real>)
    requires |ls| > 0 && PrePlanarGraphs.Header(ls[0]).Ok? && PointsIn(ls, parseF64).Ok?
    requires |ls| - 1 >= PrePlanarGraphs.Header(ls[0]).value.0
    ensures |PointsIn(ls, parseF64).value| == PrePlanarGraphs.Header(ls[0]).value.0
  {
  }

  /** How `ParseRowsIn` ends once the point block has been read. */
  lemma EdgesEnd(ls: seq<string>, parseF64: string -> Option<real>)
    requires |ls| > 0 && PrePlanarGraphs.Header(ls[0]).Ok? && PointsIn(ls, parseF64).Ok?
    requires |ls| - 1 >= PrePlanarGraphs.Header(ls[0]).value.0
    ensures var (n, m) := PrePlanarGraphs.Header(ls[0]).value;
      && (EdgesIn(ls).Err? ==> ParseRowsIn(ls, parseF64) == Err(EdgesIn(ls).error))
      && (EdgesIn(ls).Ok? && |ls| - 1 - n < m ==> ParseRowsIn(ls, parseF64) == Err(PrePlanarGraphs.NO_EDGE))
      && (EdgesIn(ls).Ok? && |ls| - 1 - n >= m ==> ParseRowsIn(ls, parseF64) == Ok((n, PointsIn(ls, parseF64).value, EdgesIn(ls).value)))
  {
  }

  /** The point loop of `parse`: one `add_vertex` per row, stopping at the first bad row. */
  method AddPointRows(g: PrePlanarGraph, parseF64: string -> Option<real>, n: nat, rows: seq<string>)
      returns (r: Result<seq<Points.Point>, string>)
    requires g.Valid() && g.points == PrePlanarGraphs.Nones(n)
    modifies g
    ensures g.Valid()
    ensures r == Rows.ParseRows(rows, PrePlanarGraphs.VertexParser(parseF64, n))
    ensures r.Ok? ==>
      && (forall k :: 0 <= k < |r.value| ==> r.value[k].id < n)
      && g.points == PrePlanarGraphs.PlacePoints(PrePlanarGraphs.Nones(n), r.value)
  {
    var pts: seq<Points.Point> := [];
    var i := 0;
    while i < |rows|
      invariant PointsRead(g, parseF64, n, rows, i, pts)
      modifies g
    {
      var row := PrePlanarGraphs.VertexRow(parseF64, n, rows[i]);
      Rows.ParseRowsStep(rows, PrePlanarGraphs.VertexParser(parseF64, n), i);
      if row.Err? {
        return Err(row.error);
      }
      AddPointRow(g, parseF64, n, rows, i, pts, row.value);
      pts := pts + [row.value];
      i := i + 1;
    }
    assert rows[..i] == rows;
    return Ok(pts);
  }

  /** The point loop after i rows: the points read so far are in their slots. */
  ghost predicate PointsRead(g: PrePlanarGraph, parseF64: string -> Option<real>, n: nat, rows: seq<string>, i: nat, pts: seq<Points.Point>)
    reads g, g.graph
  {
    && i <= |rows|
    && Rows.ParseRows(rows[..i], PrePlanarGraphs.VertexParser(parseF64, n)) == Ok(pts)
    && g.Valid() && |pts| == i && (forall k :: 0 <= k < i ==> pts[k].id < n)
    && g.points == PrePlanarGraphs.PlacePoints(PrePlanarGraphs.Nones(n), pts)
  }

  /** One `add_vertex` of the point loop. */
  method AddPointRow(g: PrePlanarGraph, parseF64: string -> Option<real>, n: nat, rows: seq<string>, i: nat, pts: seq<Points.Point>, p: Points.Point)
    requires PointsRead(g, parseF64, n, rows, i, pts) && i < |rows|
    requires PrePlanarGraphs.VertexRow(parseF64, n, rows[i]) == Ok(p)
    modifies g
    ensures PointsRead(g, parseF64, n, rows, i + 1, pts + [p])
  {
    Rows.ParseRowsStep(rows, PrePlanarGraphs.VertexParser(parseF64, n), i);
    g.AddVertex(p);
    assert (pts + [p])[..|pts|] == pts;
  }

  /** The edge loop of `parse`: one `add_edge::<S>` per row, stopping at the first bad row. */
  method AddEdgeRows(g: PrePlanarGraph, n: nat, rows: seq<string>, combine: (Edge, Edge) -> Edge)
      returns (r: Result<seq<Edge>, string>)
    requires g.Valid() && |g.points| == n && g.graph.adj == EmptyLists(n) && CombineKeeps(combine)
    modifies g.graph
    ensures g.Valid()
    ensures r == Rows.ParseRows(rows, EdgeParser(n))
    ensures r.Ok? ==> Build(n, r.value, combine) == Some(g.graph.adj) && Faces.NoFaces(FaceOps(), g.graph.adj)
  {
    var es: seq<Edge> := [];
    var i := 0;
    assert forall u :: 0 <= u < n ==> EmptyLists<Edge>(n)[u] == [];
    while i < |rows|
      invariant EdgesRead(g, n, rows, i, es, combine)
      modifies g.graph
    {
      var row := EdgeRow(n, rows[i]);
      Rows.ParseRowsStep(rows, EdgeParser(n), i);
      if row.Err? {
        return Err(row.error);
      }
      AddEdgeRow(g, n, rows, i, es, row.value, combine);
      es := es + [row.value];
      i := i + 1;
    }
    assert rows[..i] == rows;
    return Ok(es);
  }

  /** The edge loop after i rows: the lists are those the edges read so far build. */
  ghost predicate EdgesRead(g: PrePlanarGraph, n: nat, rows: seq<string>, i: nat, es: seq<Edge>, combine: (Edge, Edge) -> Edge)
    reads g, g.graph
  {
    && i <= |rows|
    && Rows.ParseRows(rows[..i], EdgeParser(n)) == Ok(es)
    && g.Valid() && |g.points| == n && CombineKeeps(combine)
    && Build(n, es, combine) == Some(g.graph.adj) && Faces.NoFaces(FaceOps(), g.graph.adj)
  }

  /** One `add_edge::<S>` of the edge loop, as a step of `Build`. */
  method AddEdgeRow(g: PrePlanarGraph, n: nat, rows: seq<string>, i: nat, es: seq<Edge>, x: Edge, combine: (Edge, Edge) -> Edge)
    requires EdgesRead(g, n, rows, i, es, combine) && i < |rows| && EdgeRow(n, rows[i]) == Ok(x)
    modifies g.graph
    ensures EdgesRead(g, n, rows, i + 1, es + [x], combine)
  {
    Rows.ParseRowsStep(rows, EdgeParser(n), i);
    ghost var adj := g.graph.adj;
    g.AddEdge(x, combine);
    MergeKeepsNoFaces(adj, Orient(adj, x), combine);
    assert (es + [x])[..|es|] == es;
    assert Build(n, es + [x], combine) == MergeAdj(adj, Orient(adj, x), combine);
  }

  /**
   * `parse::<S>` with `combine` as the strategy S's merge and `parseF64`
   * as the float parser of the point lines.  Either the error of the
   * first bad line, or the graph built from the lines that were read: a
   * missing point fails planarization; otherwise the real graph and the
   * dual hold the forward entries of the merged lists after tracing.
   */
  method Parse(s: string, parseF64: string -> Option<real>, combine: (Edge, Edge) -> Edge) returns (r: Result<PlanarGraph, string>)
    requires CombineKeeps(combine)
    ensures ParseInput(s, parseF64).Err? ==> r == Err(ParseInput(s, parseF64).error)
    ensures ParseInput(s, parseF64).Ok? ==> Outcome(ParseInput(s, parseF64).value, combine, r)
  {
    r := FromRows(Graphs.GraphLines(s), parseF64, combine);
  }

  /**
   * What `parse` makes of input that reads: the merged lists exist; an
   * undefined point slot is the error; no error is the out-of-bounds
   * panic; and a graph is the planarization of the traced merged lists.
   */
  ghost predicate Outcome(input: (nat, seq<Points.Point>, seq<Edge>), combine: (Edge, Edge) -> Edge, r: Result<PlanarGraph, string>)
    requires Read(input)
    reads if r.Ok? then {r.value.primal, r.value.dual} else {}
  {
    var (n, pts, es) := input;
    && Build(n, es, combine).Some?
    && ((exists i :: 0 <= i < n && PrePlanarGraphs.PlacePoints(PrePlanarGraphs.Nones(n), pts)[i].None?) ==> r == Err(UNDEFINED_POINT))
    && (r.Err? ==> r.error in {UNDEFINED_POINT, Faces.REVERSE_MISSING, Faces.WALK_OPEN, FACES_MISSING})
    && (r.Ok? ==> exists traced ::
          && Faces.SameShape(FaceOps(), Build(n, es, combine).value, traced) && Complete(traced)
          && Stage(r.value.primal, r.value.dual, n, r.value.dual.n, Forwards(PlanarizeLists(traced))))
  }

  /** `parse` once the text has been cut into rows. */
  method FromRows(ls: seq<string>, parseF64: string -> Option<real>, combine: (Edge, Edge) -> Edge) returns (r: Result<PlanarGraph, string>)
    requires CombineKeeps(combine)
    ensures ParseRowsIn(ls, parseF64).Err? ==> r == Err(ParseRowsIn(ls, parseF64).error)
    ensures ParseRowsIn(ls, parseF64).Ok? ==> Outcome(ParseRowsIn(ls, parseF64).value, combine, r)
  {
    if |ls| == 0 {
      return Err(PrePlanarGraphs.NO_FIRST_ROW);
    }
    var header := PrePlanarGraphs.Header(ls[0]);
    if header.Err? {
      return Err(header.error);
    }
    r := FromBody(ls, parseF64, combine);
  }

  /** `parse` after its header row has been read: the point rows, then the edge rows. */
  method FromBody(ls: seq<string>, parseF64: string -> Option<real>, combine: (Edge, Edge) -> Edge) returns (r: Result<PlanarGraph, string>)
    requires CombineKeeps(combine) && |ls| > 0 && PrePlanarGraphs.Header(ls[0]).Ok?
    ensures ParseRowsIn(ls, parseF64).Err? ==> r == Err(ParseRowsIn(ls, parseF64).error)
    ensures ParseRowsIn(ls, parseF64).Ok? ==> Outcome(ParseRowsIn(ls, parseF64).value, combine, r)
  {
    var n := PrePlanarGraphs.Header(ls[0]).value.0;
    var g := new PrePlanarGraph.Empty(n);
    var pts := AddPointRows(g, parseF64, n, PrePlanarGraphs.Take(ls[1..], n));
    if pts.Err? {
      PointsFailed(ls, parseF64);
      return Err(pts.error);
    }
    if |ls| - 1 < n {
      PointsShort(ls, parseF64);
      return Err(PrePlanarGraphs.NO_VERTEX);
    }
    PointsFull(ls, parseF64);
    r := Finish(g, ls, parseF64, combine, pts.value);
  }

  /** The rest of `parse` once the points are in: the edge lines, then `planarize`. */
  method Finish(g: PrePlanarGraph, ls: seq<string>, parseF64: string -> Option<real>, combine: (Edge, Edge) -> Edge,
                ghost pts: seq<Points.Point>)
      returns (r: Result<PlanarGraph, string>)
    requires |ls| > 0 && PrePlanarGraphs.Header(ls[0]).Ok? && PointsIn(ls, parseF64) == Ok(pts)
    requires |ls| - 1 >= PrePlanarGraphs.Header(ls[0]).value.0
    requires var n := PrePlanarGraphs.Header(ls[0]).value.0;
      && g.Valid() && |g.points| == n && g.graph.adj == EmptyLists(n) && CombineKeeps(combine)
      && |pts| == n && (forall k :: 0 <= k < n ==> pts[k].id < n)
      && g.points == PrePlanarGraphs.PlacePoints(PrePlanarGraphs.Nones(n), pts)
    modifies g.graph
    ensures ParseRowsIn(ls, parseF64).Err? ==> r == Err(ParseRowsIn(ls, parseF64).error)
    ensures ParseRowsIn(ls, parseF64).Ok? ==> Outcome(ParseRowsIn(ls, parseF64).value, combine, r)
  {
    var (n, m) := PrePlanarGraphs.Header(ls[0]).value;
    EdgesEnd(ls, parseF64);
    var es := AddEdgeRows(g, n, PrePlanarGraphs.Take(ls[1 + n..], m), combine);
    if es.Err? {
      return Err(es.error);
    }
    if |ls| - 1 - n < m {
      return Err(PrePlanarGraphs.NO_EDGE);
    }
    ParsedEdgesUnplaced(PrePlanarGraphs.Take(ls[1 + n..], m), n);
    r := PlanarizeRead(g, n, pts, es.value, combine);
  }

  /** `pre.planarize()` at the end of `parse`, on the lists the edge lines built. */
  method PlanarizeRead(g: PrePlanarGraph, n: nat, ghost pts: seq<Points.Point>, es: seq<Edge>, combine: (Edge, Edge) -> Edge)
      returns (r: Result<PlanarGraph, string>)
    requires Read((n, pts, es)) && g.Valid() && |g.points| == n
    requires g.points == PrePlanarGraphs.PlacePoints(PrePlanarGraphs.Nones(n), pts)
    requires Build(n, es, combine) == Some(g.graph.adj) && Faces.NoFaces(FaceOps(), g.graph.adj)
    modifies g.graph
    ensures Outcome((n, pts, es), combine, r)
  {
    r := g.Planarize();
    if r.Ok? {
      assert Faces.SameShape(FaceOps(), Build(n, es, combine).value, g.graph.adj);
    }
  }
}
