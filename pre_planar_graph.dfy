/**
 * `PrePlanarGraph` (src/structure/graph/planar/pre_planar_graph.rs): an
 * embedded graph under construction.  Points are filled in one by one,
 * edges are stored in both directions with their faces unknown, and
 * `planarize` traces the faces, checks Euler's formula and builds the dual.
 */
module PrePlanarGraphs {
  import opened Wrappers
  import Text
  import Rows
  import opened AdjLists
  import Edges
  import Faces
  import Graphs
  import Points
  import PE = PrePlanarEdges
  import PlanarEdges

  type Edge = PE.PrePlanarEdge

  function To(e: Edge): nat
  {
    e.to
  }

  /** What face tracing needs of a `PrePlanarEdge`. */
  function FaceOps(): Faces.FaceOps<Edge>
  {
    Faces.FaceOps(
      (e: Edge) => e.from, To, (e: Edge) => e.weight,
      (e: Edge) => e.left, (e: Edge) => e.right,
      (e: Edge, f: nat) => e.(left := Some(f)), (e: Edge, f: nat) => e.(right := Some(f)))
  }

  lemma FaceOpsLawful()
    ensures Faces.Lawful(FaceOps())
  {
  }

  /** Every entry sits in its tail's list and points at a vertex that has a list. */
  ghost predicate Placed(adj: seq<seq<Edge>>)
  {
    forall u, i :: 0 <= u < |adj| && 0 <= i < |adj[u]| ==> adj[u][i].from == u && adj[u][i].to < |adj|
  }

  /** Whenever u's list has an edge to v, v's list has an edge back to u. */
  ghost predicate Symmetric(adj: seq<seq<Edge>>)
  {
    forall u, i :: 0 <= u < |adj| && 0 <= i < |adj[u]| && adj[u][i].to < |adj| ==> AnyTo(adj[adj[u][i].to], To, u)
  }

  lemma PlacedFaces(adj: seq<seq<Edge>>)
    requires Placed(adj)
    ensures Faces.Placed(FaceOps(), adj)
  {
  }

  /** Some entry of a list reaches v, and it still does after more entries are appended. */
  lemma AnyToExtend(a: seq<Edge>, b: seq<Edge>, v: nat)
    requires AnyTo(a, To, v)
    ensures AnyTo(a + b, To, v)
  {
    var i :| 0 <= i < |a| && To(a[i]) == v;
    assert (a + b)[i] == a[i];
  }

  /** `add_edge` keeps every entry in place and the lists symmetric. */
  lemma AddEdgeKeeps(adj: seq<seq<Edge>>, e: Edge)
    requires Placed(adj) && Symmetric(adj) && e.from < |adj| && e.to < |adj|
    ensures Graphs.Fits(PE.Ops(), |adj|, e)
    ensures Placed(Graphs.AddEdgeAdj(PE.Ops(), adj, e)) && Symmetric(Graphs.AddEdgeAdj(PE.Ops(), adj, e))
    ensures TotalLen(Graphs.AddEdgeAdj(PE.Ops(), adj, e)) == TotalLen(adj) + 2
  {
    var b := PE.Reverse(e);
    var one := Push(adj, e.from, e);
    var r: seq<seq<Edge>> := Push(one, e.to, b);
    assert r == Graphs.AddEdgeAdj(PE.Ops(), adj, e);
    TotalLenPush(adj, e.from, e);
    TotalLenPush(one, e.to, b);
    forall u: int, i: int | 0 <= u < |r| && 0 <= i < |r[u]|
      ensures r[u][i].from == u && r[u][i].to < |r|
      ensures AnyTo(r[r[u][i].to], To, u)
    {
      AddEdgeEntry(adj, e, u, i);
    }
  }

  /** One entry of the lists after `add_edge`: in place, and answered by an edge back. */
  lemma AddEdgeEntry(adj: seq<seq<Edge>>, e: Edge, u: nat, i: nat)
    requires Placed(adj) && Symmetric(adj) && e.from < |adj| && e.to < |adj|
    requires u < |adj| && i < |Push(Push(adj, e.from, e), e.to, PE.Reverse(e))[u]|
    ensures var r := Push(Push(adj, e.from, e), e.to, PE.Reverse(e));
      r[u][i].from == u && r[u][i].to < |r| && AnyTo(r[r[u][i].to], To, u)
  {
    var b := PE.Reverse(e);
    var one := Push(adj, e.from, e);
    var r := Push(one, e.to, b);
    var x := r[u][i];
    if i < |one[u]| {
      assert x == one[u][i];
      if i < |adj[u]| {
        assert x == adj[u][i];
      }
    }
    AnyToPush(one, e.to, b, x.to, u, To);
    AnyToPush(adj, e.from, e, x.to, u, To);
  }

  /** Changing only faces keeps entries in place and the lists symmetric. */
  lemma SameShapeKeeps(a: seq<seq<Edge>>, b: seq<seq<Edge>>)
    requires Faces.SameShape(FaceOps(), a, b) && Placed(a) && Symmetric(a)
    ensures Placed(b) && Symmetric(b) && TotalLen(b) == TotalLen(a)
  {
    forall u, i | 0 <= u < |b| && 0 <= i < |b[u]| && b[u][i].to < |b|
      ensures AnyTo(b[b[u][i].to], To, u)
    {
      var t := b[u][i].to;
      assert a[u][i].to == t;
      var j :| 0 <= j < |a[t]| && To(a[t][j]) == u;
      assert To(b[t][j]) == u;
    }
    TotalLenSameLengths(a, b);
  }

  lemma {:induction false} TotalLenSameLengths<T, U>(a: seq<seq<T>>, b: seq<seq<U>>)
    requires |a| == |b| && forall u :: 0 <= u < |a| ==> |a[u]| == |b[u]|
    ensures TotalLen(a) == TotalLen(b)
  {
    if |a| > 0 {
      TotalLenSameLengths(a[..|a| - 1], b[..|b| - 1]);
    }
  }

  /** Every edge has both faces, so `planarize` of each may unwrap them. */
  predicate AllComplete(adj: seq<seq<Edge>>)
  {
    forall u, i :: 0 <= u < |adj| && 0 <= i < |adj[u]| ==> PE.Complete(adj[u][i])
  }

  /** Every face is below f, so every dual `add_edge` lands inside f lists. */
  predicate FacesWithin(lines: seq<seq<PlanarEdges.PlanarEdge>>, f: nat)
  {
    forall u, i :: 0 <= u < |lines| && 0 <= i < |lines[u]| ==> lines[u][i].left < f && lines[u][i].right < f
  }

  /** `map(PrePlanarEdge::planarize)` over every list. */
  function PlanarizeAll(adj: seq<seq<Edge>>): (r: seq<seq<PlanarEdges.PlanarEdge>>)
    requires AllComplete(adj)
    ensures |r| == |adj| && forall u :: 0 <= u < |adj| ==> |r[u]| == |adj[u]|
    ensures forall u, i :: 0 <= u < |adj| && 0 <= i < |adj[u]| ==> r[u][i] == PE.Planarize(adj[u][i])
  {
    seq(|adj|, u requires 0 <= u < |adj| => seq(|adj[u]|, i requires 0 <= i < |adj[u]| => PE.Planarize(adj[u][i])))
  }

  /** The dual edges of one list: `rotate_right` of each edge, in order. */
  function RotateAll(es: seq<PlanarEdges.PlanarEdge>): (r: seq<PlanarEdges.PlanarEdge>)
    ensures |r| == |es| && forall i :: 0 <= i < |es| ==> r[i] == PlanarEdges.RotateRight(es[i])
  {
    seq(|es|, i requires 0 <= i < |es| => PlanarEdges.RotateRight(es[i]))
  }

  /** The edges `construct_dual` adds, list by list. */
  function Rotations(lines: seq<seq<PlanarEdges.PlanarEdge>>): (r: seq<PlanarEdges.PlanarEdge>)
  {
    if |lines| == 0 then [] else Rotations(lines[..|lines| - 1]) + RotateAll(lines[|lines| - 1])
  }

  /** One dual edge per directed edge, and each is the rotation of one of them. */
  lemma {:induction false} RotationsMembership(lines: seq<seq<PlanarEdges.PlanarEdge>>, x: PlanarEdges.PlanarEdge)
    ensures |Rotations(lines)| == TotalLen(lines)
    ensures x in Rotations(lines) <==> exists u, i :: 0 <= u < |lines| && 0 <= i < |lines[u]| && x == PlanarEdges.RotateRight(lines[u][i])
  {
    if |lines| > 0 {
      var init := lines[..|lines| - 1];
      var last := lines[|lines| - 1];
      RotationsMembership(init, x);
      if x in RotateAll(last) {
        var i :| 0 <= i < |last| && RotateAll(last)[i] == x;
        assert x == PlanarEdges.RotateRight(lines[|lines| - 1][i]);
      }
      if exists u, i :: 0 <= u < |lines| && 0 <= i < |lines[u]| && x == PlanarEdges.RotateRight(lines[u][i]) {
        var u, i :| 0 <= u < |lines| && 0 <= i < |lines[u]| && x == PlanarEdges.RotateRight(lines[u][i]);
        if u < |lines| - 1 {
          assert lines[u] == init[u];
        } else {
          assert RotateAll(last)[i] == x;
        }
      }
    }
  }

  /** Every rotation fits in a dual with f vertices when every face is below f. */
  lemma RotationsFit(lines: seq<seq<PlanarEdges.PlanarEdge>>, f: nat)
    requires FacesWithin(lines, f)
    ensures Graphs.AllFit(PlanarEdges.Ops(), f, Rotations(lines))
  {
    forall k | 0 <= k < |Rotations(lines)|
      ensures Graphs.Fits(PlanarEdges.Ops(), f, Rotations(lines)[k])
    {
      var x := Rotations(lines)[k];
      RotationsMembership(lines, x);
    }
  }

  /**
   * In the dual, every directed edge e's rotation sits in the list of e's
   * left face, and the rotation's reversal in the list of e's right face.
   */
  lemma DualContainsRotations(lines: seq<seq<PlanarEdges.PlanarEdge>>, f: nat, u: nat, i: nat)
    requires FacesWithin(lines, f) && u < |lines| && i < |lines[u]|
    ensures Graphs.AllFit(PlanarEdges.Ops(), f, Rotations(lines))
    ensures var dual := Graphs.AddAllEdges(PlanarEdges.Ops(), EmptyLists(f), Rotations(lines));
      && PlanarEdges.RotateRight(lines[u][i]) in dual[lines[u][i].left]
      && PlanarEdges.Reverse(PlanarEdges.RotateRight(lines[u][i])) in dual[lines[u][i].right]
  {
    RotationsFit(lines, f);
    var e := lines[u][i];
    var x := PlanarEdges.RotateRight(e);
    RotationsMembership(lines, x);
    var ops := PlanarEdges.Ops();
    Graphs.AddAllEdgesMembership(ops, EmptyLists(f), Rotations(lines), e.left, x);
    Graphs.AddAllEdgesMembership(ops, EmptyLists(f), Rotations(lines), e.right, PlanarEdges.Reverse(x));
    var k :| 0 <= k < |Rotations(lines)| && Rotations(lines)[k] == x;
    assert PlanarEdges.Reverse(x) == ops.reverse(Rotations(lines)[k]);
  }

  /** Adding one more edge that fits keeps every added edge fitting. */
  lemma AllFitAppend(added: seq<PlanarEdges.PlanarEdge>, d: PlanarEdges.PlanarEdge, f: nat)
    requires Graphs.AllFit(PlanarEdges.Ops(), f, added) && Graphs.Fits(PlanarEdges.Ops(), f, d)
    ensures Graphs.AllFit(PlanarEdges.Ops(), f, added + [d])
    ensures Graphs.AddAllEdges(PlanarEdges.Ops(), EmptyLists(f), added + [d])
      == Graphs.AddEdgeAdj(PlanarEdges.Ops(), Graphs.AddAllEdges(PlanarEdges.Ops(), EmptyLists(f), added), d)
  {
    assert (added + [d])[..|added|] == added;
  }

  /**
   * `construct_dual(f, lines)`: an undirected graph on f vertices with
   * `rotate_right` of every directed edge added, list by list.
   */
  method ConstructDual(f: nat, lines: seq<seq<PlanarEdges.PlanarEdge>>) returns (dual: Graphs.UndirectedGraph<PlanarEdges.PlanarEdge>)
    requires FacesWithin(lines, f)
    ensures fresh(dual) && dual.Valid() && dual.ops == PlanarEdges.Ops() && dual.n == f && dual.directed == 0
    ensures Graphs.AllFit(PlanarEdges.Ops(), f, Rotations(lines))
    ensures dual.adj == Graphs.AddAllEdges(PlanarEdges.Ops(), EmptyLists(f), Rotations(lines))
    ensures dual.m == TotalLen(lines)
  {
    dual := new Graphs.UndirectedGraph(PlanarEdges.Ops(), f);
    for u := 0 to |lines|
      invariant dual.Valid() && dual.ops == PlanarEdges.Ops() && dual.n == f && dual.directed == 0
      invariant Graphs.AllFit(PlanarEdges.Ops(), f, Rotations(lines[..u]))
      invariant dual.adj == Graphs.AddAllEdges(PlanarEdges.Ops(), EmptyLists(f), Rotations(lines[..u]))
      invariant dual.m == |Rotations(lines[..u])|
    {
      assert lines[..u + 1][..u] == lines[..u];
      AddRotations(dual, f, lines[u], Rotations(lines[..u]));
    }
    assert lines[..|lines|] == lines;
    RotationsMembership(lines, PlanarEdges.PlanarEdge(0, 0, 0, 0, 0));
  }

  lemma RotateAllSnoc(done: seq<PlanarEdges.PlanarEdge>, es: seq<PlanarEdges.PlanarEdge>, j: nat)
    requires j < |es|
    ensures done + RotateAll(es[..j + 1]) == (done + RotateAll(es[..j])) + [PlanarEdges.RotateRight(es[j])]
  {
    assert RotateAll(es[..j + 1]) == RotateAll(es[..j]) + [PlanarEdges.RotateRight(es[j])];
  }

  /** One `dual.add_edge(d)`, as a step from the edges added so far. */
  method AddRotation(dual: Graphs.UndirectedGraph<PlanarEdges.PlanarEdge>, f: nat, d: PlanarEdges.PlanarEdge, ghost added: seq<PlanarEdges.PlanarEdge>)
    requires dual.Valid() && dual.ops == PlanarEdges.Ops() && dual.n == f && dual.directed == 0
    requires d.from < f && d.to < f
    requires Graphs.AllFit(PlanarEdges.Ops(), f, added)
    requires dual.adj == Graphs.AddAllEdges(PlanarEdges.Ops(), EmptyLists(f), added) && dual.m == |added|
    modifies dual
    ensures dual.Valid() && dual.ops == PlanarEdges.Ops() && dual.n == f && dual.directed == 0
    ensures Graphs.AllFit(PlanarEdges.Ops(), f, added + [d])
    ensures dual.adj == Graphs.AddAllEdges(PlanarEdges.Ops(), EmptyLists(f), added + [d])
    ensures dual.m == |added| + 1
  {
    PlanarEdges.OpsLawful();
    AllFitAppend(added, d, f);
    dual.AddEdge(d);
  }

  /** The inner loop of `construct_dual`: the rotation of every edge of one list added in order. */
  method AddRotations(dual: Graphs.UndirectedGraph<PlanarEdges.PlanarEdge>, f: nat, es: seq<PlanarEdges.PlanarEdge>, ghost done: seq<PlanarEdges.PlanarEdge>)
    requires dual.Valid() && dual.ops == PlanarEdges.Ops() && dual.n == f && dual.directed == 0
    requires forall i :: 0 <= i < |es| ==> es[i].left < f && es[i].right < f
    requires Graphs.AllFit(PlanarEdges.Ops(), f, done)
    requires dual.adj == Graphs.AddAllEdges(PlanarEdges.Ops(), EmptyLists(f), done) && dual.m == |done|
    modifies dual
    ensures dual.Valid() && dual.ops == PlanarEdges.Ops() && dual.n == f && dual.directed == 0
    ensures Graphs.AllFit(PlanarEdges.Ops(), f, done + RotateAll(es))
    ensures dual.adj == Graphs.AddAllEdges(PlanarEdges.Ops(), EmptyLists(f), done + RotateAll(es))
    ensures dual.m == |done + RotateAll(es)|
  {
    ghost var added := done;
    assert done + RotateAll(es[..0]) == done;
    for j := 0 to |es|
      invariant dual.Valid() && dual.ops == PlanarEdges.Ops() && dual.n == f && dual.directed == 0
      invariant added == done + RotateAll(es[..j])
      invariant Graphs.AllFit(PlanarEdges.Ops(), f, added)
      invariant dual.adj == Graphs.AddAllEdges(PlanarEdges.Ops(), EmptyLists(f), added)
      invariant dual.m == |added|
    {
      var d := PlanarEdges.RotateRight(es[j]);
      AddRotation(dual, f, d, added);
      RotateAllSnoc(done, es, j);
      added := added + [d];
    }
    assert es[..|es|] == es;
  }

  /** `m − n + 2` in `usize` as written: the subtraction panics when m < n. */
  function FaceCountAsWritten(m: nat, n: nat): (r: Option<nat>)
    ensures r.None? <==> m < n
    ensures r.Some? ==> r.value + n == m + 2
  {
    if m < n then None else Some(m - n + 2)
  }

  /** `m + 2 − n`, the face count Euler's formula gives, with the addition first. */
  function FaceCount(m: nat, n: nat): (r: nat)
    requires n <= m + 2
    ensures r + n == m + 2
  {
    m + 2 - n
  }

  /**
   * Once Euler's check has passed, the corrected count is the number of
   * faces traced, while the count as written fails for every graph with
   * fewer edges than vertices, a tree such as the single edge 0–1 for one.
   */
  lemma FaceCountAfterEuler(n: nat, m: nat, faces: nat)
    requires n + faces >= m && n + faces - m == 2
    ensures n <= m + 2 && FaceCount(m, n) == faces
    ensures FaceCountAsWritten(m, n).None? <==> m < n
  {
  }

  /** The single edge 0–1: one face, Euler's formula holds, and `m − n + 2` underflows. */
  lemma SingleEdgeUnderflow()
    ensures var (n, m, faces) := (2, 1, 1);
      && n + faces - m == 2
      && FaceCountAsWritten(m, n).None?
      && FaceCount(m, n) == faces
  {
  }

  const UNDEFINED_POINT := "Not all points have been defined"
  const FACES_MISSING := "Not all edges found both a left and right region!"
  const EULER := "Either we don't have the correct faces, or Euler's formula is wrong :thinkin:"
  const SUB_OVERFLOW := "attempt to subtract with overflow"
  const UNWRAP_NONE := "called `Option::unwrap()` on a `None` value"
  const OUT_OF_BOUNDS := "index out of bounds"

  /** What `planarize` hands on: the points, the faced edge lists, the dual and m. */
  datatype Planarized = Planarized(
    points: seq<Points.Point>,
    lines: seq<seq<PlanarEdges.PlanarEdge>>,
    dual: Graphs.UndirectedGraph<PlanarEdges.PlanarEdge>,
    m: nat)

  /** The points, when every one of them is defined. */
  function DefinedPoints(points: seq<Option<Points.Point>>): (r: Option<seq<Points.Point>>)
    ensures r.Some? <==> forall i :: 0 <= i < |points| ==> points[i].Some?
    ensures r.Some? ==> |r.value| == |points| && forall i :: 0 <= i < |points| ==> points[i] == Some(r.value[i])
  {
    if |points| == 0 then Some([])
    else
      match DefinedPoints(points[..|points| - 1])
      case None => None
      case Some(init) =>
        match points[|points| - 1]
        case None => None
        case Some(p) => Some(init + [p])
  }

  class PrePlanarGraph {
    /** Slot i holds the point with id i once it has been added. */
    var points: seq<Option<Points.Point>>
    /** `adj_list`: one list per point slot, plus one more for every `add_vertex`. */
    var adj: seq<seq<Edge>>
    var m: nat

    /**
     * Every defined point sits in the slot of its id; every edge sits in
     * its tail's list with its head inside the lists; edges come in
     * opposite pairs, and there are 2m entries.
     */
    ghost predicate Valid()
      reads this
    {
      && |points| <= |adj|
      && (forall i :: 0 <= i < |points| && points[i].Some? ==> points[i].value.id == i)
      && Placed(adj) && Symmetric(adj)
      && TotalLen(adj) == 2 * m
    }

    /** `empty(n)`: n undefined points, n empty lists, no edges. */
    constructor Empty(n: nat)
      ensures Valid() && points == Nones(n)
      ensures adj == EmptyLists(n) && m == 0
    {
      points := Nones(n);
      adj := EmptyLists(n);
      m := 0;
      new;
      TotalLenEmpty<Edge>(n);
    }

    /**
     * `add_vertex(p)`: p stored in the slot of its id, and one more empty
     * list appended; the number of points stays.
     */
    method AddVertex(p: Points.Point)
      requires Valid() && p.id < |points|
      modifies this
      ensures Valid()
      ensures points == old(points)[p.id := Some(p)]
      ensures adj == old(adj) + [[]] && m == old(m)
    {
      points := points[p.id := Some(p)];
      assert (adj + [[]])[..|adj|] == adj;
      adj := adj + [[]];
    }

    /** `add_edge(e)`: e at its tail, its reversal at its head, and one more edge. */
    method AddEdge(e: Edge)
      requires Valid() && e.from < |adj| && e.to < |adj|
      modifies this
      ensures Valid() && points == old(points)
      ensures adj == Graphs.AddEdgeAdj(PE.Ops(), old(adj), e) && m == old(m) + 1
    {
      AddEdgeKeeps(adj, e);
      adj := Graphs.AddEdgeAdj(PE.Ops(), adj, e);
      m := m + 1;
    }

    /**
     * `is_adjacent(u, v)`: scans the shorter of the two lists.  Because
     * edges come in opposite pairs, the answer is the same as scanning
     * either list.
     */
    function IsAdjacent(u: nat, v: nat): (r: bool)
      reads this
      requires Valid() && u < |adj| && v < |adj|
      ensures r <==> exists i :: 0 <= i < |adj[u]| && adj[u][i].to == v
      ensures r <==> exists j :: 0 <= j < |adj[v]| && adj[v][j].to == u
    {
      SymmetricAnyTo(adj, u, v);
      if |adj[u]| < |adj[v]| then AnyTo(adj[u], To, v) else AnyTo(adj[v], To, u)
    }

    /** `find_edges(u, v)`: the edges of u's list that end at v, in order. */
    function FindEdges(u: nat, v: nat): (r: seq<Edge>)
      reads this
      requires Valid() && u < |adj|
      ensures forall x :: x in r <==> x in adj[u] && x.to == v
      ensures forall i :: 0 <= i < |r| ==> r[i].from == u && r[i].to == v
    {
      EdgesTo(adj[u], To, v)
    }

    /**
     * `determine_faces`: traces the faces, then checks that every edge
     * leaving a point has both faces and that n + faces − m = 2; the
     * subtraction panics when n + faces < m.  Returns the number of faces.
     */
    method DetermineFaces() returns (r: Result<nat, string>)
      requires Valid()
      modifies this
      ensures Valid() && points == old(points) && m == old(m)
      ensures Faces.SameShape(FaceOps(), old(adj), adj)
      ensures r.Ok? ==> Faces.AllFacesSet(FaceOps(), adj, |points|) && |points| + r.value == m + 2
      ensures r.Ok? && Faces.NoFaces(FaceOps(), old(adj)) ==> Faces.FacesBelow(FaceOps(), adj, r.value)
      ensures r.Err? ==> r.error in {Faces.REVERSE_MISSING, Faces.WALK_OPEN, FACES_MISSING, SUB_OVERFLOW, EULER}
    {
      FaceOpsLawful();
      PlacedFaces(adj);
      var traced := Faces.TraceFaces(FaceOps(), adj, |points|);
      if traced.Err? {
        return Err(traced.error);
      }
      SameShapeKeeps(adj, traced.value.0);
      adj := traced.value.0;
      var faces := traced.value.1;
      if !Faces.AllFacesSet(FaceOps(), adj, |points|) {
        return Err(FACES_MISSING);
      }
      if |points| + faces < m {
        return Err(SUB_OVERFLOW);
      }
      if |points| + faces - m != 2 {
        return Err(EULER);
      }
      return Ok(faces);
    }

    /**
     * `planarize`: every point must be defined; the faces are traced and
     * checked; f is the face count from Euler's formula; every edge's faces
     * are unwrapped; and the dual has f vertices and the rotation of every
     * directed edge.  The clockwise sorting of each list is not modelled:
     * the lists are taken to be in rotation order already.
     */
    method Planarize() returns (r: Result<Planarized, string>)
      requires Valid()
      modifies this
      ensures (exists i :: 0 <= i < |old(points)| && old(points)[i].None?) ==> r == Err(UNDEFINED_POINT)
      ensures r.Err? ==>
        r.error in {UNDEFINED_POINT, Faces.REVERSE_MISSING, Faces.WALK_OPEN, FACES_MISSING, SUB_OVERFLOW, EULER, UNWRAP_NONE, OUT_OF_BOUNDS}
      ensures r.Err? && Faces.NoFaces(FaceOps(), old(adj)) ==> r.error != OUT_OF_BOUNDS
      ensures r.Ok? ==>
        && |r.value.points| == |old(points)| && (forall i :: 0 <= i < |old(points)| ==> old(points)[i] == Some(r.value.points[i]))
        && r.value.m == old(m)
        && Unfaced(old(adj), r.value.lines)
        && |old(points)| + r.value.dual.n == old(m) + 2
        && FacesWithin(r.value.lines, r.value.dual.n)
        && r.value.dual.Valid() && r.value.dual.ops == PlanarEdges.Ops()
        && Graphs.AllFit(PlanarEdges.Ops(), r.value.dual.n, Rotations(r.value.lines))
        && r.value.dual.adj == Graphs.AddAllEdges(PlanarEdges.Ops(), EmptyLists(r.value.dual.n), Rotations(r.value.lines))
        && r.value.dual.m == 2 * old(m)
    {
      var pts := DefinedPoints(points);
      if pts.None? {
        return Err(UNDEFINED_POINT);
      }
      ghost var before := adj;
      var faces := DetermineFaces();
      if faces.Err? {
        return Err(faces.error);
      }
      r := Assemble(before, adj, m, pts.value, faces.value);
    }
  }

  /**
   * The end of `planarize` once the faces are traced and Euler's check has
   * passed: every edge's faces unwrapped, then the dual built on the face
   * count.
   */
  method Assemble(ghost before: seq<seq<Edge>>, adj: seq<seq<Edge>>, m: nat, pts: seq<Points.Point>, faces: nat)
      returns (r: Result<Planarized, string>)
    requires Faces.SameShape(FaceOps(), before, adj) && TotalLen(before) == 2 * m
    requires |pts| + faces == m + 2
    requires Faces.NoFaces(FaceOps(), before) ==> Faces.FacesBelow(FaceOps(), adj, faces)
    ensures r.Err? ==> r.error in {UNWRAP_NONE, OUT_OF_BOUNDS}
    ensures r.Err? && Faces.NoFaces(FaceOps(), before) ==> r.error != OUT_OF_BOUNDS
    ensures r.Ok? ==>
      && r.value.points == pts && r.value.m == m
      && Unfaced(before, r.value.lines)
      && |pts| + r.value.dual.n == m + 2
      && FacesWithin(r.value.lines, r.value.dual.n)
      && r.value.dual.Valid() && r.value.dual.ops == PlanarEdges.Ops()
      && Graphs.AllFit(PlanarEdges.Ops(), r.value.dual.n, Rotations(r.value.lines))
      && r.value.dual.adj == Graphs.AddAllEdges(PlanarEdges.Ops(), EmptyLists(r.value.dual.n), Rotations(r.value.lines))
      && r.value.dual.m == 2 * m
  {
    var f := FaceCount(m, |pts|);
    if !AllComplete(adj) {
      return Err(UNWRAP_NONE);
    }
    var lines := PlanarizeAll(adj);
    PlanarizeAllKeeps(before, adj, f);
    if !FacesWithin(lines, f) {
      return Err(OUT_OF_BOUNDS);
    }
    var dual := ConstructDual(f, lines);
    return Ok(Planarized(pts, lines, dual, m));
  }

  /** lines are the edges of adj with the faces filled in: same lists, endpoints and weights. */
  ghost predicate Unfaced(adj: seq<seq<Edge>>, lines: seq<seq<PlanarEdges.PlanarEdge>>)
  {
    && |lines| == |adj|
    && (forall u :: 0 <= u < |adj| ==> |lines[u]| == |adj[u]|)
    && (forall u, i :: 0 <= u < |adj| && 0 <= i < |adj[u]| ==>
          lines[u][i].from == adj[u][i].from && lines[u][i].to == adj[u][i].to && lines[u][i].weight == adj[u][i].weight)
  }

  /**
   * Unwrapping the traced faces keeps the edges of the lists before
   * tracing, and, when those had no faces, every face is below the count.
   */
  lemma PlanarizeAllKeeps(before: seq<seq<Edge>>, traced: seq<seq<Edge>>, f: nat)
    requires Faces.SameShape(FaceOps(), before, traced) && AllComplete(traced)
    ensures Unfaced(before, PlanarizeAll(traced))
    ensures TotalLen(PlanarizeAll(traced)) == TotalLen(before)
    ensures Faces.NoFaces(FaceOps(), before) && Faces.FacesBelow(FaceOps(), traced, f) ==> FacesWithin(PlanarizeAll(traced), f)
  {
    TotalLenSameLengths(before, PlanarizeAll(traced));
  }

  /** In symmetric lists, u's list reaches v exactly when v's list reaches u. */
  lemma SymmetricAnyTo(adj: seq<seq<Edge>>, u: nat, v: nat)
    requires Placed(adj) && Symmetric(adj) && u < |adj| && v < |adj|
    ensures AnyTo(adj[u], To, v) <==> AnyTo(adj[v], To, u)
  {
    if AnyTo(adj[u], To, v) {
      var i :| 0 <= i < |adj[u]| && To(adj[u][i]) == v;
    }
    if AnyTo(adj[v], To, u) {
      var j :| 0 <= j < |adj[v]| && To(adj[v][j]) == u;
    }
  }

  /** `is_adjacent(u, v)` holds exactly when `find_edges(u, v)` is non-empty. */
  lemma IsAdjacentFindEdges(g: PrePlanarGraph, u: nat, v: nat)
    requires g.Valid() && u < |g.adj| && v < |g.adj|
    ensures g.IsAdjacent(u, v) <==> g.FindEdges(u, v) != []
  {
    AnyToEdgesTo(g.adj[u], To, v);
  }

  /** `repeat(n, None)`: n undefined points. */
  function Nones(n: nat): (r: seq<Option<Points.Point>>)
    ensures |r| == n && forall i :: 0 <= i < n ==> r[i].None?
  {
    seq(n, _ => None)
  }

  /** The point slots after `add_vertex` of every point, in order. */
  function PlacePoints(base: seq<Option<Points.Point>>, pts: seq<Points.Point>): (r: seq<Option<Points.Point>>)
    requires forall k :: 0 <= k < |pts| ==> pts[k].id < |base|
    ensures |r| == |base|
  {
    if |pts| == 0 then base
    else
      var p := pts[|pts| - 1];
      PlacePoints(base, pts[..|pts| - 1])[p.id := Some(p)]
  }

  /**
   * After placing points, slot i is defined exactly when it was before or
   * some placed point has id i, and a defined slot holds a point with its
   * own id when every earlier slot did.
   */
  lemma {:induction false} PlacePointsDefined(base: seq<Option<Points.Point>>, pts: seq<Points.Point>, i: nat)
    requires forall k :: 0 <= k < |pts| ==> pts[k].id < |base|
    requires i < |base|
    ensures PlacePoints(base, pts)[i].Some? <==> base[i].Some? || exists k :: 0 <= k < |pts| && pts[k].id == i
    ensures (base[i].Some? ==> base[i].value.id == i) ==>
      (PlacePoints(base, pts)[i].Some? ==> PlacePoints(base, pts)[i].value.id == i)
  {
    if |pts| > 0 {
      var init := pts[..|pts| - 1];
      PlacePointsDefined(base, init, i);
      if exists k :: 0 <= k < |pts| && pts[k].id == i {
        var k :| 0 <= k < |pts| && pts[k].id == i;
        if k < |pts| - 1 {
          assert init[k].id == i;
        }
      }
      if exists k :: 0 <= k < |init| && init[k].id == i {
        var k :| 0 <= k < |init| && init[k].id == i;
        assert pts[k].id == i;
      }
    }
  }

  const NO_FIRST_ROW := "Could not find the first row"
  const NO_N := "Could not find n"
  const BAD_N := "Could not parse n"
  const NO_M := "Could not find m"
  const BAD_M := "Could not parse m"
  const NO_VERTEX := "Expected another vertex here, but got nothing"
  const NO_EDGE := "Expected another edge here, but got nothing"

  /** The header "n m": both unsigned, each reported missing or unparsable in turn. */
  function Header(row: string): (r: Result<(nat, nat), string>)
    ensures var ws := Text.Split(row, ' ');
      r.Ok? <==> |ws| >= 2 && Text.ParseU64(ws[0]).Some? && Text.ParseU64(ws[1]).Some?
    ensures var ws := Text.Split(row, ' ');
      r.Ok? ==> r.value == (Text.ParseU64(ws[0]).value, Text.ParseU64(ws[1]).value)
    ensures var ws := Text.Split(row, ' ');
      && (Text.ParseU64(ws[0]).None? ==> r == Err(BAD_N))
      && (Text.ParseU64(ws[0]).Some? && |ws| < 2 ==> r == Err(NO_M))
      && (Text.ParseU64(ws[0]).Some? && |ws| >= 2 && Text.ParseU64(ws[1]).None? ==> r == Err(BAD_M))
  {
    var ws := Text.Split(row, ' ');
    match Edges.ParseField(Edges.Next(ws, 0), NO_N, BAD_N)
    case Err(e) => Err(e)
    case Ok(n) =>
      match Edges.ParseField(Edges.Next(ws, 1), NO_M, BAD_M)
      case Err(e) => Err(e)
      case Ok(m) => Ok((n, m))
  }

  /** A point line: its parse error, or an id outside the n slots panics in `add_vertex`. */
  function VertexRow(parseF64: string -> Option<real>, n: nat, line: string): (r: Result<Points.Point, string>)
    ensures r.Ok? <==> Points.FromStr(line, parseF64).Ok? && Points.FromStr(line, parseF64).value.id < n
    ensures r.Ok? ==> r.value == Points.FromStr(line, parseF64).value
    ensures Points.FromStr(line, parseF64).Err? ==> r == Err(Points.FromStr(line, parseF64).error)
  {
    match Points.FromStr(line, parseF64)
    case Err(e) => Err(e)
    case Ok(p) => if p.id < n then Ok(p) else Err(OUT_OF_BOUNDS)
  }

  function VertexParser(parseF64: string -> Option<real>, n: nat): string -> Result<Points.Point, string>
  {
    (line: string) => VertexRow(parseF64, n, line)
  }

  /**
   * An edge line once the n points are in: there are 2n lists then, so an
   * edge panics in `add_edge` only when an endpoint is 2n or more.
   */
  function EdgeRow(n: nat, line: string): (r: Result<Edge, string>)
    ensures r.Ok? <==> PE.FromStr(line).Ok? && PE.FromStr(line).value.from < 2 * n && PE.FromStr(line).value.to < 2 * n
    ensures r.Ok? ==> r.value == PE.FromStr(line).value
    ensures PE.FromStr(line).Err? ==> r == Err(PE.FromStr(line).error)
  {
    match PE.FromStr(line)
    case Err(e) => Err(e)
    case Ok(e) => if e.from < 2 * n && e.to < 2 * n then Ok(e) else Err(OUT_OF_BOUNDS)
  }

  function EdgeParser(n: nat): string -> Result<Edge, string>
  {
    (line: string) => EdgeRow(n, line)
  }

  /** The first k rows, or all of them when there are fewer. */
  function Take(rows: seq<string>, k: nat): (r: seq<string>)
    ensures |r| <= k && |r| <= |rows| && (|rows| >= k ==> |r| == k) && r == rows[..|r|]
  {
    if k < |rows| then rows[..k] else rows
  }

  /**
   * `from_str` as a value: after the header come exactly n point lines and
   * then m edge lines, among the trimmed lines that are neither empty nor
   * '%' comments; lines after those are never read.  The first failure,
   * including running out of lines, is the error.
   */
  function ParsePrePlanar(s: string, parseF64: string -> Option<real>): (r: Result<(nat, seq<Points.Point>, seq<Edge>), string>)
  {
    ParseRowsPre(Graphs.GraphLines(s), parseF64)
  }

  /** `from_str` on the lines it keeps. */
  function ParseRowsPre(ls: seq<string>, parseF64: string -> Option<real>): (r: Result<(nat, seq<Points.Point>, seq<Edge>), string>)
    ensures ls == [] ==> r == Err(NO_FIRST_ROW)
  {
    if |ls| == 0 then Err(NO_FIRST_ROW)
    else if Header(ls[0]).Err? then Err(Header(ls[0]).error)
    else
      var (n, m) := Header(ls[0]).value;
      var pts := ParseBlock(ls[1..], n, VertexParser(parseF64, n), NO_VERTEX);
      if pts.Err? then Err(pts.error)
      else
        var es := ParseBlock(ls[1 + n..], m, EdgeParser(n), NO_EDGE);
        if es.Err? then Err(es.error)
        else Ok((n, pts.value, es.value))
  }

  /**
   * `for _ in 0..k { ls.next().ok_or(missing)?.parse()? }`: the next k
   * rows parsed in order; a bad row among those present comes first, then
   * running out of rows.
   */
  function ParseBlock<T>(rows: seq<string>, k: nat, parse: string -> Result<T, string>, missing: string): (r: Result<seq<T>, string>)
    ensures r.Ok? ==> |rows| >= k && Rows.ParseRows(rows[..k], parse) == r
    ensures Rows.ParseRows(Take(rows, k), parse).Err? ==> r == Rows.ParseRows(Take(rows, k), parse)
    ensures Rows.ParseRows(Take(rows, k), parse).Ok? && |rows| < k ==> r == Err(missing)
  {
    match Rows.ParseRows(Take(rows, k), parse)
    case Err(e) => Err(e)
    case Ok(xs) =>
      if |rows| < k then Err(missing)
      else Ok(xs)
  }

  /**
   * What a successful parse read: the header gives n and m; then exactly
   * n point lines and m edge lines follow, and lines after them are never
   * looked at.
   */
  lemma ParsePrePlanarLines(ls: seq<string>, parseF64: string -> Option<real>)
    requires ParseRowsPre(ls, parseF64).Ok?
    ensures var (n, pts, es) := ParseRowsPre(ls, parseF64).value;
      && |ls| >= 1 + n + |es| && Header(ls[0]) == Ok((n, |es|)) && |pts| == n
      && (forall k :: 0 <= k < n ==> VertexRow(parseF64, n, ls[1 + k]) == Ok(pts[k]))
      && (forall k :: 0 <= k < |es| ==> EdgeRow(n, ls[1 + n + k]) == Ok(es[k]))
  {
    var (n, m) := Header(ls[0]).value;
    var pts := ParseBlock(ls[1..], n, VertexParser(parseF64, n), NO_VERTEX);
    var es := ParseBlock(ls[1 + n..], m, EdgeParser(n), NO_EDGE);
    assert ParseRowsPre(ls, parseF64) == Ok((n, pts.value, es.value));
    ParseBlockRows(ls, 1, n, VertexParser(parseF64, n), NO_VERTEX);
    ParseBlockRows(ls, 1 + n, m, EdgeParser(n), NO_EDGE);
  }

  /** A block that parsed holds one value per row, each the parse of its row. */
  lemma ParseBlockRows<T>(ls: seq<string>, from: nat, k: nat, parse: string -> Result<T, string>, missing: string)
    requires from <= |ls| && ParseBlock(ls[from..], k, parse, missing).Ok?
    ensures var xs := ParseBlock(ls[from..], k, parse, missing).value;
      && |ls| >= from + k && |xs| == k
      && forall i :: 0 <= i < k ==> parse(ls[from + i]) == Ok(xs[i])
  {
    var rows := ls[from..];
    var xs := ParseBlock(rows, k, parse, missing).value;
    assert Rows.ParseRows(rows[..k], parse) == Ok(xs);
    forall i | 0 <= i < k
      ensures parse(ls[from + i]) == Ok(xs[i])
    {
      assert rows[..k][i] == ls[from + i];
    }
  }

  /**
   * `from_str`: reads the header, adds n points and then m edges, one line
   * each.  The result is the graph `ParsePrePlanar` describes: the points
   * in their slots, 2n lists holding the m edges in both directions, or
   * the same error.
   */
  method FromStr(s: string, parseF64: string -> Option<real>) returns (r: Result<PrePlanarGraph, string>)
    ensures r.Ok? ==> fresh(r.value)
    ensures r.Err? <==> ParsePrePlanar(s, parseF64).Err?
    ensures r.Err? ==> r.error == ParsePrePlanar(s, parseF64).error
    ensures r.Ok? ==>
      && r.value.Valid()
      && var (n, pts, es) := ParsePrePlanar(s, parseF64).value;
      && (forall k :: 0 <= k < |pts| ==> pts[k].id < n)
      && Graphs.AllFit(PE.Ops(), 2 * n, es)
      && r.value.points == PlacePoints(Nones(n), pts)
      && r.value.adj == Graphs.AddAllEdges(PE.Ops(), EmptyLists(2 * n), es)
      && r.value.m == |es|
  {
    r := FromRows(Graphs.GraphLines(s), parseF64);
  }

  /**
   * `PlanarGraph::from_str` (graph/planar/planar_graph.rs): the text parsed
   * as a pre-planar graph, which is then planarized; a parse error comes
   * first.  On success every point line is in the slot of its id, the m
   * edges are kept, and the dual has the face count Euler's formula gives.
   */
  method ParsePlanar(s: string, parseF64: string -> Option<real>) returns (r: Result<Planarized, string>)
    ensures ParsePrePlanar(s, parseF64).Err? ==> r == Err(ParsePrePlanar(s, parseF64).error)
    ensures r.Ok? ==>
      && ParsePrePlanar(s, parseF64).Ok?
      && var (n, pts, es) := ParsePrePlanar(s, parseF64).value;
      && |r.value.points| == n
      && (forall k :: 0 <= k < |pts| ==> pts[k].id < n)
      && (forall i :: 0 <= i < n ==> PlacePoints(Nones(n), pts)[i] == Some(r.value.points[i]))
      && r.value.m == |es|
      && n + r.value.dual.n == |es| + 2
  {
    var g := FromStr(s, parseF64);
    if g.Err? {
      return Err(g.error);
    }
    ghost var (n, pts, es) := ParsePrePlanar(s, parseF64).value;
    r := g.value.Planarize();
  }

  /** `from_str` once the text has been cut into rows. */
  method FromRows(ls: seq<string>, parseF64: string -> Option<real>) returns (r: Result<PrePlanarGraph, string>)
    ensures r.Ok? ==> fresh(r.value)
    ensures r.Err? <==> ParseRowsPre(ls, parseF64).Err?
    ensures r.Err? ==> r.error == ParseRowsPre(ls, parseF64).error
    ensures r.Ok? ==>
      && r.value.Valid()
      && var (n, pts, es) := ParseRowsPre(ls, parseF64).value;
      && (forall k :: 0 <= k < |pts| ==> pts[k].id < n)
      && Graphs.AllFit(PE.Ops(), 2 * n, es)
      && r.value.points == PlacePoints(Nones(n), pts)
      && r.value.adj == Graphs.AddAllEdges(PE.Ops(), EmptyLists(2 * n), es)
      && r.value.m == |es|
  {
    if |ls| == 0 {
      return Err(NO_FIRST_ROW);
    }
    var header := Header(ls[0]);
    if header.Err? {
      return Err(header.error);
    }
    var (n, m) := header.value;
    ParseRowsPreSteps(ls, parseF64);
    var g := new PrePlanarGraph.Empty(n);
    var pts := AddPointRows(g, parseF64, n, Take(ls[1..], n));
    if pts.Err? {
      return Err(pts.error);
    }
    if |ls| - 1 < n {
      return Err(NO_VERTEX);
    }
    r := EdgeBlock(g, ls, parseF64, pts.value);
  }

  /** The edge rows of `from_str`, once every point row has been read into g. */
  method EdgeBlock(g: PrePlanarGraph, ls: seq<string>, parseF64: string -> Option<real>, ghost pts: seq<Points.Point>)
      returns (r: Result<PrePlanarGraph, string>)
    requires |ls| > 0 && Header(ls[0]).Ok? && |ls| - 1 >= Header(ls[0]).value.0
    requires Rows.ParseRows(Take(ls[1..], Header(ls[0]).value.0), VertexParser(parseF64, Header(ls[0]).value.0)) == Ok(pts)
    requires var n := Header(ls[0]).value.0;
      && g.Valid() && (forall k :: 0 <= k < |pts| ==> pts[k].id < n)
      && g.points == PlacePoints(Nones(n), pts)
      && g.adj == EmptyLists(n + |pts|) && g.m == 0
    modifies g
    ensures r.Ok? ==> r.value == g
    ensures r.Err? <==> ParseRowsPre(ls, parseF64).Err?
    ensures r.Err? ==> r.error == ParseRowsPre(ls, parseF64).error
    ensures r.Ok? ==>
      && r.value.Valid()
      && var (n, pts, es) := ParseRowsPre(ls, parseF64).value;
      && (forall k :: 0 <= k < |pts| ==> pts[k].id < n)
      && Graphs.AllFit(PE.Ops(), 2 * n, es)
      && r.value.points == PlacePoints(Nones(n), pts)
      && r.value.adj == Graphs.AddAllEdges(PE.Ops(), EmptyLists(2 * n), es)
      && r.value.m == |es|
  {
    var (n, m) := Header(ls[0]).value;
    ParseRowsPreEdges(ls, parseF64, pts);
    var es := AddEdgeRows(g, n, Take(ls[1 + n..], m));
    if es.Err? {
      return Err(es.error);
    }
    if |ls| - 1 - n < m {
      return Err(NO_EDGE);
    }
    return Ok(g);
  }

  /** How `ParseRowsPre` ends, step by step, once the header has been read. */
  lemma ParseRowsPreSteps(ls: seq<string>, parseF64: string -> Option<real>)
    requires |ls| > 0 && Header(ls[0]).Ok?
    ensures var (n, m) := Header(ls[0]).value;
      var pts := Rows.ParseRows(Take(ls[1..], n), VertexParser(parseF64, n));
      && (pts.Err? ==> ParseRowsPre(ls, parseF64) == Err(pts.error))
      && (pts.Ok? && |ls| - 1 < n ==> ParseRowsPre(ls, parseF64) == Err(NO_VERTEX))
      && (pts.Ok? && |ls| - 1 >= n ==>
            && |pts.value| == n
            && var es := Rows.ParseRows(Take(ls[1 + n..], m), EdgeParser(n));
            && (es.Err? ==> ParseRowsPre(ls, parseF64) == Err(es.error))
            && (es.Ok? && |ls| - 1 - n < m ==> ParseRowsPre(ls, parseF64) == Err(NO_EDGE))
            && (es.Ok? && |ls| - 1 - n >= m ==> ParseRowsPre(ls, parseF64) == Ok((n, pts.value, es.value))))
  {
  }

  /** Once the point rows have all been read, `ParseRowsPre` is decided by the edge rows. */
  lemma ParseRowsPreEdges(ls: seq<string>, parseF64: string -> Option<real>, pts: seq<Points.Point>)
    requires |ls| > 0 && Header(ls[0]).Ok? && |ls| - 1 >= Header(ls[0]).value.0
    requires Rows.ParseRows(Take(ls[1..], Header(ls[0]).value.0), VertexParser(parseF64, Header(ls[0]).value.0)) == Ok(pts)
    ensures var (n, m) := Header(ls[0]).value;
      var es := Rows.ParseRows(Take(ls[1 + n..], m), EdgeParser(n));
      && |pts| == n
      && (es.Err? ==> ParseRowsPre(ls, parseF64) == Err(es.error))
      && (es.Ok? && |ls| - 1 - n < m ==> ParseRowsPre(ls, parseF64) == Err(NO_EDGE))
      && (es.Ok? && |ls| - 1 - n >= m ==> ParseRowsPre(ls, parseF64) == Ok((n, pts, es.value)))
  {
    ParseRowsPreSteps(ls, parseF64);
  }

  /** The point loop of `from_str`: one `add_vertex` per row, stopping at the first bad row. */
  method AddPointRows(g: PrePlanarGraph, parseF64: string -> Option<real>, n: nat, rows: seq<string>)
      returns (r: Result<seq<Points.Point>, string>)
    requires g.Valid() && g.points == Nones(n) && g.adj == EmptyLists(n) && g.m == 0
    modifies g
    ensures r == Rows.ParseRows(rows, VertexParser(parseF64, n))
    ensures r.Ok? ==>
      && g.Valid() && (forall k :: 0 <= k < |r.value| ==> r.value[k].id < n)
      && g.points == PlacePoints(Nones(n), r.value)
      && g.adj == EmptyLists(n + |r.value|) && g.m == 0
  {
    var pts: seq<Points.Point> := [];
    var i := 0;
    while i < |rows|
      invariant PointsRead(g, parseF64, n, rows, i, pts)
      modifies g
    {
      var row := VertexRow(parseF64, n, rows[i]);
      Rows.ParseRowsStep(rows, VertexParser(parseF64, n), i);
      if row.Err? {
        return Err(row.error);
      }
      AddPointRow(g, parseF64, n, rows, i, pts, row.value);
      pts := pts + [row.value];
      i := i + 1;
    }
    assert rows[..i] == rows;
    return Ok(pts);
  }

  /** The point loop after i rows: the points read so far are in their slots, one empty list each. */
  ghost predicate PointsRead(g: PrePlanarGraph, parseF64: string -> Option<real>, n: nat, rows: seq<string>, i: nat, pts: seq<Points.Point>)
    reads g
  {
    && i <= |rows|
    && Rows.ParseRows(rows[..i], VertexParser(parseF64, n)) == Ok(pts)
    && g.Valid() && |pts| == i && (forall k :: 0 <= k < i ==> pts[k].id < n)
    && g.points == PlacePoints(Nones(n), pts)
    && g.adj == EmptyLists(n + i) && g.m == 0
  }

  /** One `add_vertex` of the point loop. */
  method AddPointRow(g: PrePlanarGraph, parseF64: string -> Option<real>, n: nat, rows: seq<string>, i: nat, pts: seq<Points.Point>, p: Points.Point)
    requires PointsRead(g, parseF64, n, rows, i, pts) && i < |rows|
    requires VertexRow(parseF64, n, rows[i]) == Ok(p)
    modifies g
    ensures PointsRead(g, parseF64, n, rows, i + 1, pts + [p])
  {
    Rows.ParseRowsStep(rows, VertexParser(parseF64, n), i);
    g.AddVertex(p);
    assert EmptyLists<Edge>(n + i) + [[]] == EmptyLists(n + i + 1);
    assert (pts + [p])[..|pts|] == pts;
  }

  /** The edge loop of `from_str`: one `add_edge` per row, stopping at the first bad row. */
  method AddEdgeRows(g: PrePlanarGraph, n: nat, rows: seq<string>) returns (r: Result<seq<Edge>, string>)
    requires g.Valid() && |g.points| == n && g.adj == EmptyLists(2 * n) && g.m == 0
    modifies g
    ensures g.points == old(g.points)
    ensures r == Rows.ParseRows(rows, EdgeParser(n))
    ensures r.Ok? ==>
      && g.Valid() && Graphs.AllFit(PE.Ops(), 2 * n, r.value)
      && g.adj == Graphs.AddAllEdges(PE.Ops(), EmptyLists(2 * n), r.value) && g.m == |r.value|
  {
    var es: seq<Edge> := [];
    var i := 0;
    ghost var pts := g.points;
    while i < |rows|
      invariant EdgesRead(g, n, rows, i, es, pts)
      modifies g
    {
      var row := EdgeRow(n, rows[i]);
      Rows.ParseRowsStep(rows, EdgeParser(n), i);
      if row.Err? {
        return Err(row.error);
      }
      AddEdgeRow(g, n, rows, i, es, pts, row.value);
      es := es + [row.value];
      i := i + 1;
    }
    assert rows[..i] == rows;
    return Ok(es);
  }

  /** The edge loop after i rows: the edges read so far are in the lists, both ways. */
  ghost predicate EdgesRead(g: PrePlanarGraph, n: nat, rows: seq<string>, i: nat, es: seq<Edge>, pts: seq<Option<Points.Point>>)
    reads g
  {
    && i <= |rows|
    && Rows.ParseRows(rows[..i], EdgeParser(n)) == Ok(es)
    && g.Valid() && g.points == pts && |pts| == n && g.m == |es|
    && Graphs.AllFit(PE.Ops(), 2 * n, es)
    && g.adj == Graphs.AddAllEdges(PE.Ops(), EmptyLists(2 * n), es)
  }

  /** One `add_edge` of the edge loop. */
  method AddEdgeRow(g: PrePlanarGraph, n: nat, rows: seq<string>, i: nat, es: seq<Edge>, ghost pts: seq<Option<Points.Point>>, e: Edge)
    requires EdgesRead(g, n, rows, i, es, pts) && i < |rows|
    requires EdgeRow(n, rows[i]) == Ok(e)
    modifies g
    ensures EdgesRead(g, n, rows, i + 1, es + [e], pts)
  {
    Rows.ParseRowsStep(rows, EdgeParser(n), i);
    g.AddEdge(e);
    assert (es + [e])[..|es|] == es;
  }

  /**
   * A parsed graph has every point defined, so `planarize` gets past its
   * first check, exactly when every id below n appears on some point line.
   */
  lemma ParsedPointsDefined(s: string, parseF64: string -> Option<real>, i: nat)
    requires ParsePrePlanar(s, parseF64).Ok? && i < ParsePrePlanar(s, parseF64).value.0
    ensures var (n, pts, _) := ParsePrePlanar(s, parseF64).value;
      (forall k :: 0 <= k < |pts| ==> pts[k].id < n)
      && (PlacePoints(Nones(n), pts)[i].Some? <==> exists k :: 0 <= k < |pts| && pts[k].id == i)
  {
    var ls := Graphs.GraphLines(s);
    ParsePrePlanarLines(ls, parseF64);
    var (n, pts, _) := ParseRowsPre(ls, parseF64).value;
    forall k | 0 <= k < |pts|
      ensures pts[k].id < n
    {
      assert VertexRow(parseF64, n, ls[1 + k]) == Ok(pts[k]);
    }
    PlacePointsDefined(Nones(n), pts, i);
  }
}
