/**
 * `split_edges` (src/algorithm/utility.rs): a copy of an unweighted graph
 * in which every edge, except the banned ones, is subdivided by a fresh
 * vertex.  Banned edges stay direct; any other edge u–v becomes u–m–v,
 * with the fresh vertices m numbered n, n+1, … in the order the edges are
 * visited.
 */
module SplitEdges {
  import opened AdjLists
  import SimpleGraphs
  import opened Walks

  /** A banned pair with its smaller end first. */
  function Normal(p: (nat, nat)): (r: (nat, nat))
    ensures r.0 <= r.1
    ensures r == p || r == (p.1, p.0)
  {
    if p.1 < p.0 then (p.1, p.0) else p
  }

  /** The set of banned pairs, each with its smaller end first. */
  function Bans(f: seq<(nat, nat)>): (r: set<(nat, nat)>)
    ensures forall p :: p in r ==> p.0 <= p.1
    ensures forall u: nat, v: nat :: u <= v ==> ((u, v) in r <==> (u, v) in f || (v, u) in f)
  {
    var r := set i | 0 <= i < |f| :: Normal(f[i]);
    assert forall u: nat, v: nat :: u <= v && ((u, v) in f || (v, u) in f) ==> (u, v) in r by {
      forall u: nat, v: nat | u <= v && ((u, v) in f || (v, u) in f) ensures (u, v) in r {
        var i :| 0 <= i < |f| && (f[i] == (u, v) || f[i] == (v, u));
        assert Normal(f[i]) == (u, v);
      }
    }
    r
  }

  /** The entries v of u's list with u < v, in list order: the edges visited from u. */
  function Above(u: nat, vs: seq<nat>): (r: seq<(nat, nat)>)
    ensures forall i :: 0 <= i < |r| ==> r[i].0 == u && u < r[i].1 && r[i].1 in vs
  {
    if vs == [] then []
    else
      var init := vs[..|vs| - 1];
      var v := vs[|vs| - 1];
      Above(u, init) + (if u < v then [(u, v)] else [])
  }

  /**
   * The edges visited from the first k vertices, in visiting order: each
   * undirected edge u–v with u < v once, as the entry v of u's list.
   */
  function Visits(adj: seq<seq<nat>>, k: nat): (r: seq<(nat, nat)>)
    requires k <= |adj|
    ensures forall i :: 0 <= i < |r| ==> r[i].0 < k && r[i].0 < r[i].1 && r[i].1 in adj[r[i].0]
  {
    if k == 0 then [] else Visits(adj, k - 1) + Above(k - 1, adj[k - 1])
  }

  /** Every entry v of u's list with u < v is visited from u. */
  lemma {:induction false} AboveHas(u: nat, vs: seq<nat>, v: nat)
    requires v in vs && u < v
    ensures (u, v) in Above(u, vs)
  {
    var init := vs[..|vs| - 1];
    if v != vs[|vs| - 1] {
      assert v in init by {
        var i :| 0 <= i < |vs| && vs[i] == v;
        assert init[i] == v;
      }
      AboveHas(u, init, v);
    }
  }

  /** Every undirected edge u–v with u < v is visited, as entry v of u's list. */
  lemma {:induction false} VisitsHas(adj: seq<seq<nat>>, k: nat, u: nat, v: nat)
    requires k <= |adj| && u < k && v in adj[u] && u < v
    ensures (u, v) in Visits(adj, k)
  {
    if u == k - 1 {
      AboveHas(u, adj[u], v);
    } else {
      VisitsHas(adj, k - 1, u, v);
    }
  }

  /**
   * The edge count `m()` of the graph: the simple graph keeps no counter,
   * so it is the number of edges the loop visits.
   */
  function EdgeCount(adj: seq<seq<nat>>): nat
  {
    |Visits(adj, |adj|)|
  }

  /** How many of the edges are not banned. */
  function Unbanned(es: seq<(nat, nat)>, bans: set<(nat, nat)>): (r: nat)
    ensures r <= |es|
  {
    if es == [] then 0
    else Unbanned(es[..|es| - 1], bans) + (if es[|es| - 1] in bans then 0 else 1)
  }

  /** How many of the edges are banned. */
  function Banned(es: seq<(nat, nat)>, bans: set<(nat, nat)>): (r: nat)
    ensures r + Unbanned(es, bans) == |es|
  {
    if es == [] then 0
    else Banned(es[..|es| - 1], bans) + (if es[|es| - 1] in bans then 1 else 0)
  }

  /**
   * The edges `split_edges` adds to the result for the visited edges es,
   * in order: a banned edge itself, any other edge as the two halves
   * through the next fresh vertex, numbered from n.
   */
  function Pieces(es: seq<(nat, nat)>, bans: set<(nat, nat)>, n: nat): (r: seq<(nat, nat)>)
    ensures |r| == |es| + Unbanned(es, bans)
  {
    if es == [] then []
    else
      var init := es[..|es| - 1];
      var e := es[|es| - 1];
      var m := n + Unbanned(init, bans);
      Pieces(init, bans, n) + (if e in bans then [e] else [(e.0, m), (m, e.1)])
  }

  /** The number of vertices of the result, `n + m - bans.len()`. */
  function SplitSize(adj: seq<seq<nat>>, bans: set<(nat, nat)>): int
  {
    |adj| + EdgeCount(adj) - |bans|
  }

  /**
   * The fresh vertices fit below the vertex count: at least as many visited
   * edges are banned as there are bans.  Otherwise `add_edge` can index
   * past the result's lists and panic.
   */
  predicate Fits(adj: seq<seq<nat>>, bans: set<(nat, nat)>)
  {
    |bans| <= Banned(Visits(adj, |adj|), bans)
  }

  /** The lists of the result of `split_edges`. */
  function Split(adj: seq<seq<nat>>, bans: set<(nat, nat)>): (r: seq<seq<nat>>)
    requires Closed(adj) && Fits(adj, bans)
    ensures |r| == SplitSize(adj, bans)
  {
    var es := Visits(adj, |adj|);
    PiecesIn(es, bans, |adj|, SplitSize(adj, bans));
    AddAllUndirected(EmptyLists(SplitSize(adj, bans)), Pieces(es, bans, |adj|))
  }

  /** The fresh vertex that subdivides the i-th visited edge, when it is not banned. */
  function FreshFor(es: seq<(nat, nat)>, bans: set<(nat, nat)>, n: nat, i: nat): nat
    requires i <= |es|
  {
    n + Unbanned(es[..i], bans)
  }

  /** x–y is one of the pieces the i-th visited edge becomes. */
  ghost predicate PieceOf(es: seq<(nat, nat)>, bans: set<(nat, nat)>, n: nat, i: nat, x: nat, y: nat)
    requires i < |es|
  {
    if es[i] in bans then (x, y) == es[i]
    else (x, y) == (es[i].0, FreshFor(es, bans, n, i)) || (x, y) == (FreshFor(es, bans, n, i), es[i].1)
  }

  /** The pieces are exactly those of the visited edges, each edge's own fresh vertex numbered by its position. */
  lemma {:induction false} PiecesHas(es: seq<(nat, nat)>, bans: set<(nat, nat)>, n: nat, x: nat, y: nat)
    ensures (x, y) in Pieces(es, bans, n) <==> exists i :: 0 <= i < |es| && PieceOf(es, bans, n, i, x, y)
  {
    if es != [] {
      var init := es[..|es| - 1];
      PiecesHas(init, bans, n, x, y);
      forall i | 0 <= i < |init|
        ensures PieceOf(init, bans, n, i, x, y) <==> PieceOf(es, bans, n, i, x, y)
      {
        assert init[..i] == es[..i];
      }
      assert es[..|es| - 1] == init;
      if (x, y) in Pieces(es, bans, n) && (x, y) !in Pieces(init, bans, n) {
        assert PieceOf(es, bans, n, |es| - 1, x, y);
      }
    }
  }

  /** Later unbanned edges get larger fresh vertices, so no two share one. */
  lemma FreshIncreasing(es: seq<(nat, nat)>, bans: set<(nat, nat)>, n: nat, i: nat, j: nat)
    requires i < j <= |es| && es[i] !in bans
    ensures FreshFor(es, bans, n, i) < FreshFor(es, bans, n, j)
  {
    Snoc(es[..i], es[i], bans, n);
    assert es[..i] + [es[i]] == es[..i + 1];
    UnbannedPrefix(es[..i + 1], es[..j], bans);
  }

  /** Every piece's ends lie below the vertex count when the fresh vertices do. */
  lemma {:induction false} PiecesIn(es: seq<(nat, nat)>, bans: set<(nat, nat)>, n: nat, size: nat)
    requires forall i :: 0 <= i < |es| ==> es[i].0 < n && es[i].1 < n
    requires n + Unbanned(es, bans) <= size
    ensures EdgesIn(size, Pieces(es, bans, n))
  {
    if es != [] {
      PiecesIn(es[..|es| - 1], bans, n, size);
    }
  }

  /** Counting over a longer prefix counts at least as many unbanned edges. */
  lemma {:induction false} UnbannedPrefix(xs: seq<(nat, nat)>, ys: seq<(nat, nat)>, bans: set<(nat, nat)>)
    requires xs <= ys
    ensures Unbanned(xs, bans) <= Unbanned(ys, bans)
    decreases |ys|
  {
    if |xs| < |ys| {
      assert xs <= ys[..|ys| - 1];
      UnbannedPrefix(xs, ys[..|ys| - 1], bans);
    } else {
      assert xs == ys;
    }
  }

  lemma {:induction false} AbovePrefix(u: nat, vs: seq<nat>, i: nat)
    requires i <= |vs|
    ensures Above(u, vs[..i]) <= Above(u, vs)
    decreases |vs| - i
  {
    if i < |vs| {
      AbovePrefix(u, vs[..|vs| - 1], i);
      assert vs[..|vs| - 1][..i] == vs[..i];
    } else {
      assert vs[..i] == vs;
    }
  }

  lemma {:induction false} VisitsPrefix(adj: seq<seq<nat>>, k: nat, l: nat)
    requires k <= l <= |adj|
    ensures Visits(adj, k) <= Visits(adj, l)
    decreases l - k
  {
    if k < l {
      VisitsPrefix(adj, k, l - 1);
    }
  }

  /** The edges visited before entry i of u's list are a prefix of all the visited edges. */
  lemma VisitedPrefix(adj: seq<seq<nat>>, u: nat, i: nat)
    requires u < |adj| && i <= |adj[u]|
    ensures Visits(adj, u) + Above(u, adj[u][..i]) <= Visits(adj, |adj|)
  {
    AbovePrefix(u, adj[u], i);
    VisitsPrefix(adj, u + 1, |adj|);
    var a := Visits(adj, u) + Above(u, adj[u][..i]);
    var b := Visits(adj, u + 1);
    assert a <= b;
    assert forall j :: 0 <= j < |a| ==> a[j] == Visits(adj, |adj|)[j];
  }

  /**
   * Every ban that is an edge of the graph counts once among the banned
   * visits: a set of bans inside the visited edges is no larger than the
   * number of banned visits.
   */
  lemma {:induction false} BansCounted(es: seq<(nat, nat)>, bans: set<(nat, nat)>)
    ensures |set i | 0 <= i < |es| && es[i] in bans :: es[i]| <= Banned(es, bans)
  {
    if es != [] {
      var init := es[..|es| - 1];
      var e := es[|es| - 1];
      BansCounted(init, bans);
      var a := set i | 0 <= i < |init| && init[i] in bans :: init[i];
      var b := set i | 0 <= i < |es| && es[i] in bans :: es[i];
      if e in bans {
        assert b == a + {e} by {
          forall x | x in b ensures x in a + {e} {
            var i :| 0 <= i < |es| && es[i] in bans && es[i] == x;
            if i < |init| { assert init[i] == x; }
          }
          forall x | x in a ensures x in b {
            var i :| 0 <= i < |init| && init[i] in bans && init[i] == x;
            assert es[i] == x;
          }
          assert es[|es| - 1] == e;
        }
      } else {
        assert b == a by {
          forall x | x in b ensures x in a {
            var i :| 0 <= i < |es| && es[i] in bans && es[i] == x;
            assert i < |init| && init[i] == x;
          }
          forall x | x in a ensures x in b {
            var i :| 0 <= i < |init| && init[i] in bans && init[i] == x;
            assert es[i] == x;
          }
        }
      }
    }
  }

  /**
   * When every ban names an edge of the graph, the fresh vertices fit:
   * the condition the vertex count `n + m - bans.len()` relies on.
   */
  lemma EveryBanAnEdge(adj: seq<seq<nat>>, f: seq<(nat, nat)>)
    requires forall i :: 0 <= i < |f| ==> Normal(f[i]).0 < Normal(f[i]).1 < |adj| && Normal(f[i]).1 in adj[Normal(f[i]).0]
    ensures Fits(adj, Bans(f))
  {
    var es := Visits(adj, |adj|);
    var bans := Bans(f);
    BansCounted(es, bans);
    var hit := set i | 0 <= i < |es| && es[i] in bans :: es[i];
    assert bans <= hit by {
      forall p | p in bans ensures p in hit {
        var i :| 0 <= i < |f| && (f[i] == p || f[i] == (p.1, p.0));
        assert Normal(f[i]) == p;
        VisitsHas(adj, |adj|, p.0, p.1);
        var j :| 0 <= j < |es| && es[j] == p;
      }
    }
    assert |bans| <= |hit| by {
      SubsetSize(bans, hit);
    }
  }

  lemma SubsetSize<T>(a: set<T>, b: set<T>)
    requires a <= b
    ensures |a| <= |b|
  {
    assert b == a + (b - a);
  }

  /** Adding one more edge to a sequence of additions. */
  lemma AddAllSnoc(adj: seq<seq<nat>>, es: seq<(nat, nat)>, e: (nat, nat))
    requires EdgesIn(|adj|, es) && e.0 < |adj| && e.1 < |adj|
    ensures EdgesIn(|adj|, es + [e])
    ensures AddAllUndirected(adj, es + [e]) == AddUndirected(AddAllUndirected(adj, es), e.0, e.1)
  {
    assert (es + [e])[..|es|] == es;
    assert forall i :: 0 <= i < |es| ==> es[i] == (es + [e])[i];
  }

  /** Adding two more edges to a sequence of additions. */
  lemma AddTwo(adj: seq<seq<nat>>, es: seq<(nat, nat)>, a: (nat, nat), b: (nat, nat))
    requires EdgesIn(|adj|, es) && a.0 < |adj| && a.1 < |adj| && b.0 < |adj| && b.1 < |adj|
    ensures EdgesIn(|adj|, es + [a, b])
    ensures AddAllUndirected(adj, es + [a, b])
      == AddUndirected(AddUndirected(AddAllUndirected(adj, es), a.0, a.1), b.0, b.1)
  {
    assert es + [a, b] == es + [a] + [b];
    AddAllSnoc(adj, es, a);
    AddAllSnoc(adj, es + [a], b);
  }

  /**
   * The state of the loop of `split_edges` after the edges p: the result
   * holds their pieces and the counter is the next fresh vertex.
   */
  ghost predicate Splitting(adj: seq<seq<nat>>, bans: set<(nat, nat)>, size: nat, p: seq<(nat, nat)>,
                            ret: seq<seq<nat>>, m: nat)
  {
    && Closed(adj) && Fits(adj, bans)
    && size == SplitSize(adj, bans)
    && |ret| == size
    && p <= Visits(adj, |adj|)
    && m == |adj| + Unbanned(p, bans)
    && EdgesIn(size, Pieces(p, bans, |adj|))
    && ret == AddAllUndirected(EmptyLists(size), Pieces(p, bans, |adj|))
  }

  /** Counting and cutting one more edge e. */
  lemma Snoc(p: seq<(nat, nat)>, e: (nat, nat), bans: set<(nat, nat)>, n: nat)
    ensures Unbanned(p + [e], bans) == Unbanned(p, bans) + (if e in bans then 0 else 1)
    ensures Pieces(p + [e], bans, n)
      == Pieces(p, bans, n) + (if e in bans then [e] else [(e.0, n + Unbanned(p, bans)), (n + Unbanned(p, bans), e.1)])
  {
    assert (p + [e])[..|p|] == p;
  }

  /** The next visited edge u–v after the prefix p: its ends are vertices and its fresh vertex fits. */
  lemma NextVisit(adj: seq<seq<nat>>, bans: set<(nat, nat)>, size: nat, p: seq<(nat, nat)>,
                  ret: seq<seq<nat>>, m: nat, u: nat, v: nat)
    requires Splitting(adj, bans, size, p, ret, m)
    requires p + [(u, v)] <= Visits(adj, |adj|)
    ensures u < v < |adj| <= size
    ensures Unbanned(p + [(u, v)], bans) <= Unbanned(Visits(adj, |adj|), bans)
    ensures Unbanned(p + [(u, v)], bans) == Unbanned(p, bans) + (if (u, v) in bans then 0 else 1)
    ensures Pieces(p + [(u, v)], bans, |adj|)
      == Pieces(p, bans, |adj|) + (if (u, v) in bans then [(u, v)] else [(u, m), (m, v)])
  {
    var es := Visits(adj, |adj|);
    UnbannedPrefix(p + [(u, v)], es, bans);
    assert (p + [(u, v)])[|p|] == es[|p|];
    Snoc(p, (u, v), bans, |adj|);
  }

  /** A banned edge is added as it is, and the counter stays. */
  lemma SplitBanned(adj: seq<seq<nat>>, bans: set<(nat, nat)>, size: nat, p: seq<(nat, nat)>,
                    ret: seq<seq<nat>>, m: nat, u: nat, v: nat)
    requires Splitting(adj, bans, size, p, ret, m)
    requires p + [(u, v)] <= Visits(adj, |adj|) && (u, v) in bans
    ensures u < |ret| && v < |ret|
    ensures Splitting(adj, bans, size, p + [(u, v)], AddUndirected(ret, u, v), m)
  {
    NextVisit(adj, bans, size, p, ret, m, u, v);
    AddAllSnoc(EmptyLists(size), Pieces(p, bans, |adj|), (u, v));
  }

  /** Any other edge is added as its two halves through the fresh vertex m, and the counter moves on. */
  lemma SplitFresh(adj: seq<seq<nat>>, bans: set<(nat, nat)>, size: nat, p: seq<(nat, nat)>,
                   ret: seq<seq<nat>>, m: nat, u: nat, v: nat)
    requires Splitting(adj, bans, size, p, ret, m)
    requires p + [(u, v)] <= Visits(adj, |adj|) && (u, v) !in bans
    ensures u < |ret| && v < |ret| && m < |ret|
    ensures Splitting(adj, bans, size, p + [(u, v)], AddUndirected(AddUndirected(ret, u, m), m, v), m + 1)
  {
    NextVisit(adj, bans, size, p, ret, m, u, v);
    var es := Visits(adj, |adj|);
    assert Banned(es, bans) + Unbanned(es, bans) == |es|;
    AddTwo(EmptyLists(size), Pieces(p, bans, |adj|), (u, m), (m, v));
  }

  /** One visited edge u–v handled as the loop body does, keeping `Splitting`. */
  method SplitOne(ghost adj: seq<seq<nat>>, bans: set<(nat, nat)>, ghost size: nat, ghost p: seq<(nat, nat)>,
                  ret: SimpleGraphs.UndirectedGraph, m: nat, u: nat, v: nat) returns (m': nat)
    requires ret.Valid() && ret.n == size
    requires Splitting(adj, bans, size, p, ret.adj, m)
    requires p + [(u, v)] <= Visits(adj, |adj|)
    modifies ret
    ensures ret.Valid() && ret.n == size
    ensures Splitting(adj, bans, size, p + [(u, v)], ret.adj, m')
  {
    if (u, v) in bans {
      SplitBanned(adj, bans, size, p, ret.adj, m, u, v);
      ret.AddEdge(u, v);
      m' := m;
    } else {
      SplitFresh(adj, bans, size, p, ret.adj, m, u, v);
      ret.AddEdge(u, m);
      ret.AddEdge(m, v);
      m' := m + 1;
    }
  }

  /** The edges of u's list visited as the inner loop does, keeping `Splitting`. */
  method SplitRow(adj: seq<seq<nat>>, bans: set<(nat, nat)>, ghost size: nat,
                  ret: SimpleGraphs.UndirectedGraph, m: nat, u: nat) returns (m': nat)
    requires u < |adj|
    requires ret.Valid() && ret.n == size
    requires Splitting(adj, bans, size, Visits(adj, u), ret.adj, m)
    modifies ret
    ensures ret.Valid() && ret.n == size
    ensures Splitting(adj, bans, size, Visits(adj, u + 1), ret.adj, m')
  {
    m' := m;
    ghost var p := Visits(adj, u);
    assert p + Above(u, adj[u][..0]) == p;
    for i := 0 to |adj[u]|
      invariant ret.Valid() && ret.n == size
      invariant p == Visits(adj, u) + Above(u, adj[u][..i])
      invariant Splitting(adj, bans, size, p, ret.adj, m')
    {
      m', p := SplitEntry(adj, bans, size, ret, m', u, i);
    }
    assert adj[u][..|adj[u]|] == adj[u];
  }

  /** Entry i of u's list handled as the inner loop body does. */
  method SplitEntry(adj: seq<seq<nat>>, bans: set<(nat, nat)>, ghost size: nat,
                    ret: SimpleGraphs.UndirectedGraph, m: nat, u: nat, i: nat) returns (m': nat, ghost q: seq<(nat, nat)>)
    requires u < |adj| && i < |adj[u]|
    requires ret.Valid() && ret.n == size
    requires Splitting(adj, bans, size, Visits(adj, u) + Above(u, adj[u][..i]), ret.adj, m)
    modifies ret
    ensures ret.Valid() && ret.n == size
    ensures q == Visits(adj, u) + Above(u, adj[u][..i + 1])
    ensures Splitting(adj, bans, size, q, ret.adj, m')
  {
    ghost var p := Visits(adj, u) + Above(u, adj[u][..i]);
    var v := adj[u][i];
    q := Visits(adj, u) + Above(u, adj[u][..i + 1]);
    EntryStep(adj, u, i);
    if u < v {
      assert q == p + [(u, v)];
      m' := SplitOne(adj, bans, size, p, ret, m, u, v);
    } else {
      assert q == p;
      m' := m;
    }
  }

  /** The visited edges grow by entry i of u's list when u < v, and stay a prefix of all of them. */
  lemma EntryStep(adj: seq<seq<nat>>, u: nat, i: nat)
    requires u < |adj| && i < |adj[u]|
    ensures Visits(adj, u) + Above(u, adj[u][..i + 1])
      == Visits(adj, u) + Above(u, adj[u][..i]) + (if u < adj[u][i] then [(u, adj[u][i])] else [])
    ensures Visits(adj, u) + Above(u, adj[u][..i + 1]) <= Visits(adj, |adj|)
  {
    AboveSnoc(u, adj[u], i);
    VisitedPrefix(adj, u, i + 1);
  }

  /** One more entry of u's list. */
  lemma AboveSnoc(u: nat, vs: seq<nat>, i: nat)
    requires i < |vs|
    ensures Above(u, vs[..i + 1]) == Above(u, vs[..i]) + (if u < vs[i] then [(u, vs[i])] else [])
  {
    assert vs[..i + 1][..i] == vs[..i];
  }

  /**
   * `split_edges(g, f)`: bans normalised with the smaller end first, then
   * every edge u < v of every list visited once, in vertex and list order.
   */
  method SplitEdgesOf(g: SimpleGraphs.UndirectedGraph, f: seq<(nat, nat)>) returns (ret: SimpleGraphs.UndirectedGraph)
    requires g.Valid() && Closed(g.adj)
    requires Fits(g.adj, Bans(f))
    ensures fresh(ret) && ret.Valid()
    ensures ret.n == SplitSize(g.adj, Bans(f))
    ensures ret.adj == Split(g.adj, Bans(f))
  {
    var bans := Bans(f);
    var adj := g.adj;
    var n := g.n + EdgeCount(adj) - |bans|;
    assert Banned(Visits(adj, |adj|), bans) <= EdgeCount(adj);
    var m := g.n;
    ret := new SimpleGraphs.UndirectedGraph(n);
    for u := 0 to g.n
      invariant ret.Valid() && ret.n == n
      invariant Splitting(adj, bans, n, Visits(adj, u), ret.adj, m)
    {
      m := SplitRow(adj, bans, n, ret, m, u);
    }
  }
}

/**
 * What the result of `split_edges` is as a graph: between the original
 * vertices only the banned edges remain, and every other edge u–v is
 * replaced by a fresh vertex whose only neighbours are u and v.
 */
module SplitEdgesProps {
  import opened AdjLists
  import opened Walks
  import opened SplitEdges

  /** The pieces of the visited edges name vertices of the result. */
  lemma SplitPieces(adj: seq<seq<nat>>, bans: set<(nat, nat)>)
    requires Closed(adj) && Fits(adj, bans)
    ensures EdgesIn(SplitSize(adj, bans), Pieces(Visits(adj, |adj|), bans, |adj|))
    ensures Split(adj, bans) == AddAllUndirected(EmptyLists(SplitSize(adj, bans)), Pieces(Visits(adj, |adj|), bans, |adj|))
  {
    var es := Visits(adj, |adj|);
    assert Banned(es, bans) + Unbanned(es, bans) == |es|;
    PiecesIn(es, bans, |adj|, SplitSize(adj, bans));
  }

  /** Two original vertices are adjacent in the result exactly when they form a banned edge of the graph. */
  lemma SplitKeepsBanned(adj: seq<seq<nat>>, bans: set<(nat, nat)>, a: nat, b: nat)
    requires Closed(adj) && Fits(adj, bans)
    requires a < |adj| && b < |adj|
    ensures b in Split(adj, bans)[a] <==>
      (a < b && (a, b) in bans && b in adj[a]) || (b < a && (b, a) in bans && a in adj[b])
  {
    var n := |adj|;
    var es := Visits(adj, n);
    SplitPieces(adj, bans);
    AddAllMembership(EmptyLists(SplitSize(adj, bans)), Pieces(es, bans, n), a, b);
    PiecesOriginal(es, bans, n, a, b);
    PiecesOriginal(es, bans, n, b, a);
    VisitsExactly(adj, a, b);
    VisitsExactly(adj, b, a);
  }

  /** The visited edges are the graph's edges u–v with u < v. */
  lemma VisitsExactly(adj: seq<seq<nat>>, u: nat, v: nat)
    requires u < |adj|
    ensures (u, v) in Visits(adj, |adj|) <==> u < v && v in adj[u]
  {
    if u < v && v in adj[u] {
      VisitsHas(adj, |adj|, u, v);
    }
  }

  /** Between vertices below n, the pieces are the banned edges. */
  lemma PiecesOriginal(es: seq<(nat, nat)>, bans: set<(nat, nat)>, n: nat, x: nat, y: nat)
    requires forall k :: 0 <= k < |es| ==> es[k].0 < n && es[k].1 < n
    requires x < n && y < n
    ensures (x, y) in Pieces(es, bans, n) <==> (x, y) in es && (x, y) in bans
  {
    PiecesHas(es, bans, n, x, y);
    if (x, y) in es && (x, y) in bans {
      var i :| 0 <= i < |es| && es[i] == (x, y);
      assert PieceOf(es, bans, n, i, x, y);
    }
  }

  /**
   * Every visited edge u–v that is not banned is subdivided by its own
   * fresh vertex w: w is a vertex of the result, adjacent to exactly u and
   * v, and u and v are adjacent to w.
   */
  lemma SplitSubdivides(adj: seq<seq<nat>>, bans: set<(nat, nat)>, i: nat)
    requires Closed(adj) && Fits(adj, bans)
    requires i < |Visits(adj, |adj|)| && Visits(adj, |adj|)[i] !in bans
    ensures var es := Visits(adj, |adj|);
      var w := FreshFor(es, bans, |adj|, i);
      && |adj| <= w < SplitSize(adj, bans)
      && w in Split(adj, bans)[es[i].0] && w in Split(adj, bans)[es[i].1]
      && forall b :: b in Split(adj, bans)[w] <==> b == es[i].0 || b == es[i].1
  {
    var n := |adj|;
    var es := Visits(adj, n);
    SplitPieces(adj, bans);
    FreshBelow(es, bans, n, i);
    assert Banned(es, bans) + Unbanned(es, bans) == |es|;
    PiecesSubdivide(es, bans, n, SplitSize(adj, bans), i);
  }

  /** The fresh vertex of an unbanned edge is below n plus the number of unbanned edges. */
  lemma FreshBelow(es: seq<(nat, nat)>, bans: set<(nat, nat)>, n: nat, i: nat)
    requires i < |es| && es[i] !in bans
    ensures n <= FreshFor(es, bans, n, i) < n + Unbanned(es, bans)
  {
    UnbannedPrefix(es[..i + 1], es, bans);
    Snoc(es[..i], es[i], bans, n);
    assert es[..i] + [es[i]] == es[..i + 1];
  }

  /** The same, for the pieces of any sequence of edges between vertices below n. */
  lemma PiecesSubdivide(es: seq<(nat, nat)>, bans: set<(nat, nat)>, n: nat, size: nat, i: nat)
    requires forall k :: 0 <= k < |es| ==> es[k].0 < n && es[k].1 < n
    requires EdgesIn(size, Pieces(es, bans, n))
    requires i < |es| && es[i] !in bans && FreshFor(es, bans, n, i) < size
    ensures var r := AddAllUndirected(EmptyLists(size), Pieces(es, bans, n));
      var w := FreshFor(es, bans, n, i);
      && w in r[es[i].0] && w in r[es[i].1]
      && forall b :: b in r[w] <==> b == es[i].0 || b == es[i].1
  {
    var ps := Pieces(es, bans, n);
    var w := FreshFor(es, bans, n, i);
    var (u, v) := es[i];
    var empty: seq<seq<nat>> := EmptyLists(size);
    assert PieceOf(es, bans, n, i, u, w) && PieceOf(es, bans, n, i, w, v);
    PiecesHas(es, bans, n, u, w);
    PiecesHas(es, bans, n, w, v);
    AddAllMembership(empty, ps, u, w);
    AddAllMembership(empty, ps, v, w);
    forall b: nat ensures b in AddAllUndirected(empty, ps)[w] <==> b == u || b == v {
      FreshNeighbour(es, bans, n, size, i, b);
    }
  }

  /** A neighbour b of the i-th edge's fresh vertex is one of that edge's ends. */
  lemma FreshNeighbour(es: seq<(nat, nat)>, bans: set<(nat, nat)>, n: nat, size: nat, i: nat, b: nat)
    requires forall k :: 0 <= k < |es| ==> es[k].0 < n && es[k].1 < n
    requires EdgesIn(size, Pieces(es, bans, n))
    requires i < |es| && es[i] !in bans && FreshFor(es, bans, n, i) < size
    ensures b in AddAllUndirected(EmptyLists(size), Pieces(es, bans, n))[FreshFor(es, bans, n, i)]
      <==> b == es[i].0 || b == es[i].1
  {
    var ps := Pieces(es, bans, n);
    var w := FreshFor(es, bans, n, i);
    var empty: seq<seq<nat>> := EmptyLists(size);
    AddAllMembership(empty, ps, w, b);
    PiecesHas(es, bans, n, w, b);
    PiecesHas(es, bans, n, b, w);
    if (w, b) in ps {
      var j :| 0 <= j < |es| && PieceOf(es, bans, n, j, w, b);
      OnlyPieces(es, bans, n, i, j);
    }
    if (b, w) in ps {
      var j :| 0 <= j < |es| && PieceOf(es, bans, n, j, b, w);
      OnlyPieces(es, bans, n, i, j);
    }
    if b == es[i].0 {
      assert PieceOf(es, bans, n, i, b, w);
    }
    if b == es[i].1 {
      assert PieceOf(es, bans, n, i, w, b);
    }
  }

  /** Only the i-th edge's pieces touch its fresh vertex. */
  lemma OnlyPieces(es: seq<(nat, nat)>, bans: set<(nat, nat)>, n: nat, i: nat, j: nat)
    requires forall k :: 0 <= k < |es| ==> es[k].0 < n && es[k].1 < n
    requires i < |es| && j < |es| && es[i] !in bans && es[j] !in bans
    requires FreshFor(es, bans, n, i) == FreshFor(es, bans, n, j)
    ensures i == j
  {
    if i < j {
      FreshIncreasing(es, bans, n, i, j);
    } else if j < i {
      FreshIncreasing(es, bans, n, j, i);
    }
  }
}
