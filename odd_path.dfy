/**
 * The state and the update steps of `DerigsAlgorithm`
 * (src/algorithm/odd_path.rs), the shortest odd path search on a mirror
 * graph: every vertex u below n has a mirror u + n, and a path that
 * alternates between the two copies through `pred` and `mirror` is an
 * s-t path of odd length.  The steps that choose what to do next
 * (`control`, `blossom`, `find_cycle_base`) are not part of this model;
 * what is proved is what each step does to the state, and which
 * invariants of the state it keeps.
 */
module OddPaths {
  import opened Costs
  import opened Wrappers
  import SG = SimpleGraphs
  import Misc
  import opened Walks
  import opened AdjLists
  import opened PathResults

  /** `mirror(u)`: the other copy of u. */
  function Mirror(n: nat, u: nat): (r: nat)
    ensures u < 2 * n ==> r < 2 * n && (r < n <==> n <= u)
  {
    if u < n then u + n else u - n
  }

  /** Mirroring twice gives the vertex back: an involution on the 2n vertices. */
  lemma MirrorInvolution(n: nat, u: nat)
    requires u < 2 * n
    ensures Mirror(n, Mirror(n, u)) == u && Mirror(n, u) != u
  {
  }

  /** The vertex of the original graph that u stands for, as the path is mapped back at the end of `solve`. */
  function Fold(n: nat, u: nat): (r: nat)
    ensures u < 2 * n ==> r < n
  {
    if u >= n then u - n else u
  }

  /** Both copies of a vertex stand for the same original vertex. */
  lemma FoldMirror(n: nat, u: nat)
    requires u < 2 * n
    ensures Fold(n, Mirror(n, u)) == Fold(n, u) && (u < n ==> Fold(n, u) == u)
  {
  }

  /** The list of a mirror vertex: the entries other than s and t, each shifted by n. */
  function Shifted(vs: seq<nat>, s: nat, t: nat, n: nat): (r: seq<nat>)
    ensures forall x :: x in r <==> n <= x && x - n in vs && x - n != s && x - n != t
    ensures |r| <= |vs|
  {
    if |vs| == 0 then []
    else
      assert vs == [vs[0]] + vs[1..];
      (if vs[0] != s && vs[0] != t then [vs[0] + n] else []) + Shifted(vs[1..], s, t, n)
  }

  /**
   * The lists of the mirror graph of adj: 2n vertices; the originals keep
   * their lists; u + n, for u other than s and t, holds the mirrors of u's
   * neighbours other than s and t; the mirrors of s and t have no edges.
   */
  function MirrorAdj(adj: seq<seq<nat>>, s: nat, t: nat): (r: seq<seq<nat>>)
    ensures |r| == 2 * |adj|
  {
    seq(2 * |adj|, u requires 0 <= u < 2 * |adj| =>
      if u < |adj| then adj[u]
      else if u - |adj| != s && u - |adj| != t then Shifted(adj[u - |adj|], s, t, |adj|)
      else [])
  }

  /** Original vertices keep their neighbourhoods in the mirror graph. */
  lemma MirrorOriginals(adj: seq<seq<nat>>, s: nat, t: nat)
    ensures forall u :: 0 <= u < |adj| ==> MirrorAdj(adj, s, t)[u] == adj[u]
  {
  }

  /**
   * For u other than s and t, the mirror u + n reaches exactly the
   * mirrors of u's neighbours other than s and t.
   */
  lemma MirrorShifts(adj: seq<seq<nat>>, s: nat, t: nat, w: nat, v: nat)
    requires |adj| <= w < 2 * |adj| && w - |adj| != s && w - |adj| != t
    ensures v in MirrorAdj(adj, s, t)[w] <==> |adj| <= v && v - |adj| in adj[w - |adj|] && v - |adj| != s && v - |adj| != t
  {
    assert MirrorAdj(adj, s, t)[w] == Shifted(adj[w - |adj|], s, t, |adj|);
  }

  /** The mirrors of s and t have no neighbours. */
  lemma MirrorEnds(adj: seq<seq<nat>>, s: nat, t: nat)
    ensures s < |adj| ==> MirrorAdj(adj, s, t)[s + |adj|] == []
    ensures t < |adj| ==> MirrorAdj(adj, s, t)[t + |adj|] == []
  {
  }

  /** A graph whose entries are vertices gives a mirror graph whose entries are vertices. */
  lemma MirrorClosed(adj: seq<seq<nat>>, s: nat, t: nat)
    requires Closed(adj)
    ensures Closed(MirrorAdj(adj, s, t))
  {
    var n := |adj|;
    var m := MirrorAdj(adj, s, t);
    forall u, i | 0 <= u < |m| && 0 <= i < |m[u]|
      ensures m[u][i] < |m|
    {
      if u >= n && u - n != s && u - n != t {
        assert m[u] == Shifted(adj[u - n], s, t, n);
        assert m[u][i] in m[u];
        var j :| 0 <= j < |adj[u - n]| && adj[u - n][j] == m[u][i] - n;
      }
    }
  }

  /**
   * Away from s and t the mirror graph is the original twice over: an
   * edge u-v between vertices other than s and t has its copy between
   * the mirrors.
   */
  lemma MirrorCopiesEdges(adj: seq<seq<nat>>, s: nat, t: nat, u: nat, v: nat)
    requires u < |adj| && v < |adj| && u != s && u != t && v != s && v != t
    ensures Mirror(|adj|, v) in MirrorAdj(adj, s, t)[Mirror(|adj|, u)] <==> v in MirrorAdj(adj, s, t)[u]
  {
    MirrorOriginals(adj, s, t);
    MirrorShifts(adj, s, t, u + |adj|, v + |adj|);
  }

  /**
   * An edge of the mirror graph stays inside one copy, and folded back it
   * is an edge of the original graph.
   */
  lemma MirrorEdge(adj: seq<seq<nat>>, s: nat, t: nat, y: nat, x: nat)
    requires Closed(adj) && y < 2 * |adj| && x in MirrorAdj(adj, s, t)[y]
    ensures (x < |adj| <==> y < |adj|) && Fold(|adj|, x) in adj[Fold(|adj|, y)]
  {
    var n := |adj|;
    if y < n {
      assert MirrorAdj(adj, s, t)[y] == adj[y];
      var j :| 0 <= j < |adj[y]| && adj[y][j] == x;
    } else if y - n != s && y - n != t {
      MirrorShifts(adj, s, t, y, x);
    }
  }

  /** A sequence of vertices each listed by the one before is a walk from the first to the last. */
  lemma {:induction false} PathWalk(adj: seq<seq<nat>>, p: seq<nat>)
    requires |p| >= 1 && forall i :: 0 <= i < |p| ==> p[i] < |adj|
    requires forall i :: 0 <= i < |p| - 1 ==> p[i + 1] in adj[p[i]]
    ensures Walk(adj, p[0], p[|p| - 1], |p| - 1)
    decreases |p|
  {
    if |p| > 1 {
      var q := p[..|p| - 1];
      PathWalk(adj, q);
      assert q[|q| - 1] == p[|p| - 2];
      assert p[|p| - 1] in adj[p[|p| - 2]];
    }
  }

  /** `create_mirror_graph(graph, s, t)`: a new graph of 2n vertices, list by list. */
  method CreateMirrorGraph(graph: SG.UndirectedGraph, s: nat, t: nat) returns (mirror: SG.UndirectedGraph)
    requires graph.Valid()
    ensures fresh(mirror) && mirror.Valid() && mirror.adj == MirrorAdj(graph.adj, s, t)
  {
    var n := graph.n;
    mirror := new SG.UndirectedGraph(n * 2);
    ghost var m := MirrorAdj(graph.adj, s, t);
    for u := 0 to n
      invariant fresh(mirror) && mirror.Valid() && mirror.n == 2 * n
      invariant forall w :: 0 <= w < 2 * n ==> mirror.adj[w] == if w < u || n <= w < n + u then m[w] else []
    {
      mirror.SetNeighbourhood(u, graph.Neighbourhood(u));
      if u != s && u != t {
        mirror.SetNeighbourhood(u + n, Shifted(graph.Neighbourhood(u), s, t, n));
      }
    }
  }

  /**
   * The loop of `init` over the neighbours of s: each one gets d_minus 1
   * and predecessor s; every other vertex stays at Infinite and None.
   */
  method Seed(neigh: seq<nat>, n: nat, s: nat) returns (dm: seq<Cost>, pred: seq<Option<nat>>)
    requires forall v :: v in neigh ==> v < n
    ensures |dm| == n && |pred| == n
    ensures forall v :: 0 <= v < n ==> (v in neigh <==> dm[v] == Finite(1)) && (v !in neigh <==> dm[v] == Infinite)
    ensures forall v :: 0 <= v < n ==> (v in neigh <==> pred[v] == Some(s)) && (v !in neigh <==> pred[v] == None)
  {
    dm := Misc.Repeat(n, Infinite);
    pred := Misc.Repeat(n, None);
    for i := 0 to |neigh|
      invariant |dm| == n && |pred| == n
      invariant forall v :: 0 <= v < n ==>
        (dm[v] == if v in neigh[..i] then Finite(1) else Infinite) && (pred[v] == if v in neigh[..i] then Some(s) else None)
    {
      assert neigh[..i + 1] == neigh[..i] + [neigh[i]];
      assert neigh[i] in neigh;
      dm := dm[neigh[i] := Finite(1)];
      pred := pred[neigh[i] := Some(s)];
    }
    assert neigh[..|neigh|] == neigh;
  }

  /** Relaxing through u by d would lower the d_minus of v from c. */
  predicate Improves(c: Cost, d: nat)
  {
    c.Infinite? || d < c.n
  }

  /**
   * What `scan(u, bans)` does to d_minus and pred, vertex by vertex: a
   * neighbour of u that is not banned and whose d_minus is Infinite or
   * above d takes d and predecessor u; every other vertex keeps both.
   */
  predicate Relaxation(dm0: seq<Cost>, pred0: seq<Option<nat>>, dm: seq<Cost>, pred: seq<Option<nat>>,
                       neigh: seq<nat>, bans: seq<nat>, u: nat, d: nat)
  {
    && |dm| == |dm0| && |pred0| == |dm0| && |pred| == |dm0|
    && forall v :: 0 <= v < |dm0| ==>
      if v in neigh && v !in bans && Improves(dm0[v], d) then dm[v] == Finite(d) && pred[v] == Some(u)
      else dm[v] == dm0[v] && pred[v] == pred0[v]
  }

  /**
   * After a scan no d_minus has grown, every neighbour that is not banned
   * is at most d, and a vertex whose predecessor changed has d_minus
   * exactly d.
   */
  lemma RelaxationBounds(dm0: seq<Cost>, pred0: seq<Option<nat>>, dm: seq<Cost>, pred: seq<Option<nat>>,
                         neigh: seq<nat>, bans: seq<nat>, u: nat, d: nat)
    requires Relaxation(dm0, pred0, dm, pred, neigh, bans, u, d)
    ensures forall v :: 0 <= v < |dm| ==> Le(dm[v], dm0[v])
    ensures forall v :: v in neigh && v !in bans && v < |dm| ==> dm[v].Finite? && dm[v].n <= d
    ensures forall v :: 0 <= v < |dm| && pred[v] != pred0[v] ==> dm[v] == Finite(d) && pred[v] == Some(u)
  {
    forall v | 0 <= v < |dm|
      ensures Le(dm[v], dm0[v])
    {
      if v in neigh && v !in bans && Improves(dm0[v], d) {
        assert dm[v] == Finite(d);
      } else {
        CmpBounds(dm[v]);
      }
    }
  }

  /** The search may stop here or there: the result of `find_path`, with fuel for the loop the source runs without a bound. */
  datatype Trace = Reached(path: seq<nat>) | Undefined(path: seq<nat>) | OutOfFuel

  /** What `solve` ends with: its answer, a missing predecessor (the `expect` panic), or fuel run out. */
  datatype Outcome = Answer(result: PathResult) | Missing | OutOfSteps

  /** `path.reverse()`. */
  function Reversed(p: seq<nat>): (r: seq<nat>)
    ensures |r| == |p| && forall i :: 0 <= i < |p| ==> r[i] == p[|p| - 1 - i]
  {
    seq(|p|, i requires 0 <= i < |p| => p[|p| - 1 - i])
  }

  /** Every vertex of p mapped back to the original graph. */
  function Folded(n: nat, p: seq<nat>): (r: seq<nat>)
    ensures |r| == |p| && forall i :: 0 <= i < |p| ==> r[i] == Fold(n, p[i])
  {
    seq(|p|, i requires 0 <= i < |p| => Fold(n, p[i]))
  }

  class DerigsAlgorithm {
    /** The lists of the graph the search was started on. */
    ghost const input: seq<seq<nat>>
    /** The lists of the mirror graph the search owns. */
    const graph: seq<seq<nat>>
    var dPlus: seq<Cost>
    var dMinus: seq<Cost>
    var pred: seq<Option<nat>>
    var basis: seq<nat>
    const s: nat
    const t: nat
    /** The number of vertices of the original graph. */
    const origN: nat
    /** The lists of `path_tree`, the `RootedTree` rooted at s. */
    var pathTree: seq<seq<nat>>
    var completed: seq<bool>
    var scanned: seq<nat>

    /**
     * The graph searched is the mirror graph of the input graph, which has
     * origN vertices and only vertices in its lists.  It reads only
     * constant fields, so once `init` establishes it no step can break it.
     */
    ghost predicate Mirrored()
    {
      |input| == origN && Closed(input) && graph == MirrorAdj(input, s, t)
    }

    /**
     * The mirror graph has 2 * origN vertices and only vertices in its
     * lists; s and t are original vertices; every array has one entry per
     * vertex; a vertex has a predecessor exactly when its d_minus is
     * finite, and every predecessor is a vertex whose d_plus is finite and
     * whose list holds the vertex.
     */
    ghost predicate Valid()
      reads this
    {
      && |graph| == 2 * origN && Closed(graph) && s < origN && t < origN
      && |dPlus| == |graph| && |dMinus| == |graph| && |pred| == |graph|
      && |basis| == |graph| && |completed| == |graph| && |pathTree| == |graph|
      && (forall v :: 0 <= v < |graph| ==> (pred[v].Some? <==> dMinus[v].Finite?))
      && (forall v :: 0 <= v < |graph| && pred[v].Some? ==>
            pred[v].value < |graph| && dPlus[pred[v].value].Finite? && v in graph[pred[v].value])
    }

    /**
     * `init((graph, s, t))`: the mirror graph; d_plus 0 at s and Infinite
     * elsewhere; d_minus 1 with predecessor s for the neighbours of s;
     * s and its mirror completed; every vertex its own basis; an empty
     * path tree rooted at s.
     */
    constructor Init(g: SG.UndirectedGraph, s: nat, t: nat)
      requires g.Valid() && s < g.n && t < g.n && Closed(g.adj)
      ensures Valid() && Mirrored() && input == g.adj && graph == MirrorAdj(g.adj, s, t) && origN == g.n && this.s == s && this.t == t
      ensures dPlus == Misc.Repeat(2 * g.n, Infinite)[s := Finite(0)]
      ensures forall v :: 0 <= v < 2 * g.n ==>
        (dMinus[v] == if v in g.adj[s] then Finite(1) else Infinite) && (pred[v] == if v in g.adj[s] then Some(s) else None)
      ensures forall v :: 0 <= v < 2 * g.n ==> completed[v] == (v == s || v == s + g.n)
      ensures basis == seq(2 * g.n, i => i) && pathTree == EmptyLists(2 * g.n) && scanned == []
    {
      var mirror := CreateMirrorGraph(g, s, t);
      MirrorClosed(g.adj, s, t);
      var n := mirror.n;
      var dp := Misc.Repeat(n, Infinite);
      dp := dp[s := Finite(0)];
      var dm, pr := Seed(mirror.Neighbourhood(s), n, s);
      var done := Misc.Repeat(n, false);
      done := done[s := true];
      done := done[s + g.n := true];
      input := g.adj;
      graph := mirror.adj;
      dPlus := dp;
      dMinus := dm;
      pred := pr;
      basis := seq(n, i => i);
      this.s := s;
      this.t := t;
      origN := g.n;
      pathTree := EmptyLists(n);
      completed := done;
      scanned := [];
    }

    /**
     * `scan(u, bans)`: u is recorded as scanned, and d_minus and pred
     * relax through u at d_plus[u] + 1; d_plus[u] must be finite, or the
     * source panics.
     */
    method Scan(u: nat, bans: seq<nat>)
      requires Valid() && u < |graph| && dPlus[u].Finite?
      modifies this
      ensures Valid()
      ensures dPlus == old(dPlus) && completed == old(completed) && basis == old(basis) && pathTree == old(pathTree)
      ensures scanned == old(scanned) + [u]
      ensures Relaxation(old(dMinus), old(pred), dMinus, pred, graph[u], bans, u, old(dPlus[u].n) + 1)
    {
      scanned := scanned + [u];
      var distu := dPlus[u].n;
      ghost var dm0, pred0 := dMinus, pred;
      var neigh := graph[u];
      for i := 0 to |neigh|
        invariant Valid() && dPlus == old(dPlus) && completed == old(completed) && basis == old(basis)
        invariant pathTree == old(pathTree) && scanned == old(scanned) + [u]
        invariant Relaxation(dm0, pred0, dMinus, pred, neigh[..i], bans, u, distu + 1)
      {
        assert neigh[..i + 1] == neigh[..i] + [neigh[i]];
        ScanEntry(u, bans, neigh, i, distu, dm0, pred0);
      }
      assert neigh[..|neigh|] == neigh;
    }

    /** Entry i of u's list: taken unless banned or no improvement. */
    method ScanEntry(u: nat, bans: seq<nat>, neigh: seq<nat>, i: nat, distu: nat, ghost dm0: seq<Cost>, ghost pred0: seq<Option<nat>>)
      requires Valid() && u < |graph| && neigh == graph[u] && i < |neigh| && dPlus[u] == Finite(distu)
      requires Relaxation(dm0, pred0, dMinus, pred, neigh[..i], bans, u, distu + 1)
      modifies this
      ensures Valid() && dPlus == old(dPlus) && completed == old(completed) && basis == old(basis)
      ensures pathTree == old(pathTree) && scanned == old(scanned)
      ensures Relaxation(dm0, pred0, dMinus, pred, neigh[..i + 1], bans, u, distu + 1)
    {
      var v := neigh[i];
      assert neigh[..i + 1] == neigh[..i] + [v];
      assert v < |graph|;
      if v in bans {
        return;
      }
      if dMinus[v].Finite? && distu + 1 >= dMinus[v].n {
        return;
      }
      dMinus := dMinus[v := Finite(distu + 1)];
      pred := pred[v := Some(u)];
    }

    /**
     * `grow(l, delta)`: the tree edge from mirror(l) to l, both completed,
     * d_plus of mirror(l) set to delta, and a scan of mirror(l) with no bans.
     */
    method Grow(l: nat, delta: nat)
      requires Valid() && l < |graph|
      modifies this
      ensures Valid() && basis == old(basis)
      ensures pathTree == Push(old(pathTree), Mirror(origN, l), l)
      ensures completed == old(completed)[Mirror(origN, l) := true][l := true]
      ensures dPlus == old(dPlus)[Mirror(origN, l) := Finite(delta)]
      ensures scanned == old(scanned) + [Mirror(origN, l)]
      ensures Relaxation(old(dMinus), old(pred), dMinus, pred, graph[Mirror(origN, l)], [], Mirror(origN, l), delta + 1)
    {
      var k := Mirror(origN, l);
      pathTree := Push(pathTree, k, l);
      completed := completed[k := true];
      completed := completed[l := true];
      dPlus := dPlus[k := Finite(delta)];
      Scan(k, []);
    }

    /**
     * The walk `find_path(u)` follows from u: mirror and predecessor steps
     * taken in turn, mirror first, and s met only at the end.
     */
    ghost predicate Alternating(p: seq<nat>)
      reads this
      requires Valid()
    {
      && |p| >= 1
      && (forall i :: 0 <= i < |p| ==> p[i] < |graph|)
      && (forall i :: 0 <= i < |p| - 1 ==> p[i] != s)
      && (forall i :: 0 <= i < |p| - 1 ==>
            if i % 2 == 0 then p[i + 1] == Mirror(origN, p[i]) else pred[p[i]] == Some(p[i + 1]))
    }

    /** One more step of the alternation after a vertex other than s. */
    lemma AlternatingSnoc(p: seq<nat>, x: nat)
      requires Valid() && Alternating(p) && p[|p| - 1] != s && x < |graph|
      requires if (|p| - 1) % 2 == 0 then x == Mirror(origN, p[|p| - 1]) else pred[p[|p| - 1]] == Some(x)
      ensures Alternating(p + [x])
    {
      var q := p + [x];
      forall i | 0 <= i < |q| - 1
        ensures if i % 2 == 0 then q[i + 1] == Mirror(origN, q[i]) else pred[q[i]] == Some(q[i + 1])
      {
        if i < |p| - 1 {
          assert q[i] == p[i] && q[i + 1] == p[i + 1];
        }
      }
    }

    /**
     * `find_path(u)`: from u, alternately to the mirror and to the
     * predecessor, until s; it panics on a vertex with no predecessor
     * (Undefined, with the walk so far), and runs out of fuel on a cycle.
     */
    method FindPath(u: nat, fuel: nat) returns (r: Trace)
      requires Valid() && u < |graph|
      ensures r.Reached? ==> Alternating(r.path) && r.path[0] == u && r.path[|r.path| - 1] == s
      ensures r.Undefined? ==>
        (Alternating(r.path) && r.path[0] == u && |r.path| % 2 == 0
         && r.path[|r.path| - 1] != s && pred[r.path[|r.path| - 1]] == None)
    {
      var ret := [u];
      var w := u;
      var f := fuel;
      while f > 0
        invariant Alternating(ret) && ret[0] == u && ret[|ret| - 1] == w && |ret| % 2 == 1
      {
        if w == s {
          return Reached(ret);
        }
        w := Mirror(origN, w);
        AlternatingSnoc(ret, w);
        ret := ret + [w];
        if w == s {
          return Reached(ret);
        }
        if pred[w].None? {
          return Undefined(ret);
        }
        w := pred[w].value;
        AlternatingSnoc(ret, w);
        ret := ret + [w];
        f := f - 1;
      }
      return OutOfFuel;
    }

    /**
     * The predecessors `solve` follows back from t: raw[0] is t, each
     * further vertex is the predecessor of t (first) or of the mirror of
     * the vertex before, and s is met only at the end.
     */
    ghost predicate BackChain(raw: seq<nat>)
      reads this
      requires Valid()
    {
      && |raw| >= 2 && raw[0] == t && raw[|raw| - 1] == s
      && (forall i :: 0 <= i < |raw| ==> raw[i] < |graph|)
      && (forall i :: 1 <= i < |raw| - 1 ==> raw[i] != s)
      && (forall i :: 0 <= i < |raw| - 1 ==>
            pred[if i == 0 then t else Mirror(origN, raw[i])] == Some(raw[i + 1]))
    }

    /**
     * The mirror graph keeps every edge inside one copy, and `solve`
     * mirrors between steps, so the chain changes copy at every step after
     * the first: raw[i] is an original vertex exactly when i is odd.
     */
    lemma {:induction false} ChainCopy(raw: seq<nat>, i: nat)
      requires Valid() && Mirrored() && BackChain(raw) && 1 <= i < |raw|
      ensures raw[i] < origN <==> i % 2 == 1
      decreases i
    {
      var x := if i == 1 then t else Mirror(origN, raw[i - 1]);
      assert pred[x] == Some(raw[i]);
      MirrorEdge(input, s, t, raw[i], x);
      if i > 1 {
        ChainCopy(raw, i - 1);
      }
    }

    /**
     * A chain of predecessors from t back to s takes an odd number of
     * steps, and each step folded back is an edge of the input graph.
     */
    lemma BackChainWalk(raw: seq<nat>)
      requires Valid() && Mirrored() && BackChain(raw)
      ensures (|raw| - 1) % 2 == 1
      ensures forall i :: 0 <= i < |raw| - 1 ==> Fold(origN, raw[i]) in input[Fold(origN, raw[i + 1])]
    {
      ChainCopy(raw, |raw| - 1);
      forall i | 0 <= i < |raw| - 1
        ensures Fold(origN, raw[i]) in input[Fold(origN, raw[i + 1])]
      {
        var x := if i == 0 then t else Mirror(origN, raw[i]);
        assert pred[x] == Some(raw[i + 1]);
        MirrorEdge(input, s, t, raw[i + 1], x);
        FoldMirror(origN, raw[i]);
      }
    }

    /** The answer `solve` builds from a chain: an odd walk from s to t in the input graph. */
    lemma AnswerWalk(raw: seq<nat>)
      requires Valid() && Mirrored() && BackChain(raw)
      ensures var p := Folded(origN, Reversed(raw));
        && (|p| - 1) % 2 == 1
        && (forall j :: 0 <= j < |p| - 1 ==> p[j + 1] in input[p[j]])
        && Walk(input, s, t, |p| - 1)
    {
      BackChainWalk(raw);
      var p := Folded(origN, Reversed(raw));
      forall j | 0 <= j < |p| - 1
        ensures p[j + 1] in input[p[j]]
      {
        assert p[j] == Fold(origN, raw[|raw| - 1 - j]);
        assert p[j + 1] == Fold(origN, raw[|raw| - 2 - j]);
      }
      FoldMirror(origN, s);
      FoldMirror(origN, t);
      PathWalk(input, p);
    }

    /**
     * The end of `solve`, once `control` has stopped: Impossible exactly
     * when d_minus[t] is Infinite; otherwise the predecessors followed
     * back from t, reversed and mapped into the original graph, which
     * gives a walk from s to t in the input graph whose length, odd, is
     * the number of steps taken.
     */
    method Conclude(fuel: nat) returns (r: Outcome, ghost raw: seq<nat>)
      requires Valid() && Mirrored()
      ensures r == Answer(Impossible) <==> dMinus[t].Infinite?
      ensures r.Answer? && r.result.Possible? ==>
        BackChain(raw) && r.result.path == Folded(origN, Reversed(raw)) && r.result.cost == |raw| - 1
      ensures r.Answer? && r.result.Possible? ==>
        |r.result.path| >= 2 && r.result.path[0] == s && r.result.path[|r.result.path| - 1] == t
        && forall x :: x in r.result.path ==> x < origN
      ensures r.Answer? && r.result.Possible? ==>
        r.result.cost % 2 == 1 && r.result.cost == |r.result.path| - 1
        && (forall i :: 0 <= i < |r.result.path| - 1 ==> r.result.path[i + 1] in input[r.result.path[i]])
        && Walk(input, s, t, r.result.cost)
    {
      raw := [];
      if dMinus[t].Infinite? {
        return Answer(Impossible), raw;
      }
      var cost := 0;
      var current := t;
      var path: seq<nat> := [t];
      var f := fuel;
      while current != Mirror(origN, s)
        invariant |path| >= 1 && path[0] == t && cost == |path| - 1 && current < |graph|
        invariant forall i :: 0 <= i < |path| ==> path[i] < |graph|
        invariant forall i :: 1 <= i < |path| - 1 ==> path[i] != s
        invariant forall i :: 0 <= i < |path| - 1 ==>
          pred[if i == 0 then t else Mirror(origN, path[i])] == Some(path[i + 1])
        invariant current == if |path| == 1 then t else Mirror(origN, path[|path| - 1])
        decreases f
      {
        if f == 0 {
          return OutOfSteps, path;
        }
        f := f - 1;
        cost := cost + 1;
        if pred[current].None? {
          return Missing, path;
        }
        current := pred[current].value;
        path := path + [current];
        current := Mirror(origN, current);
      }
      raw := path;
      MirrorInvolution(origN, path[|path| - 1]);
      assert |path| >= 2;
      FoldMirror(origN, s);
      FoldMirror(origN, t);
      AnswerWalk(raw);
      path := Reversed(path);
      path := Folded(origN, path);
      return Answer(Possible(cost, path)), raw;
    }
  }
}
