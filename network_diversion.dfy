/**
 * The search at the start of `network_diversion`
 * (src/algorithm/network_diversion.rs): a breadth-first search from s that
 * never steps along the diversion edge (du, dv) in either direction, and
 * that walks the predecessor edges back from t.  Proved against `Walks`:
 * it answers exactly when t can be reached without the diversion edge,
 * and the edges it returns form a simple path from t back to s.
 */
module NetworkDiversions {
  import opened Wrappers
  import Edges
  import Graphs
  import Misc
  import opened Walks
  import ShortestPaths
  import APE = AbstractPlanarEdges
  import MergingPlanarGraphs

  /** The panic of unwrapping the missing predecessor of t. */
  const UNWRAP_NONE := "called `Option::unwrap()` on a `None` value"

  /** A step from u to v is not the diversion edge, in either direction. */
  predicate Allowed(u: nat, v: nat, du: nat, dv: nat)
  {
    (u, v) != (du, dv) && (v, u) != (du, dv)
  }

  /** The entries of u's list that are allowed steps, in order. */
  function AllowedOf(u: nat, vs: seq<nat>, du: nat, dv: nat): (r: seq<nat>)
    ensures forall v :: v in r <==> v in vs && Allowed(u, v, du, dv)
  {
    if |vs| == 0 then []
    else
      assert vs == [vs[0]] + vs[1..];
      (if Allowed(u, vs[0], du, dv) then [vs[0]] else []) + AllowedOf(u, vs[1..], du, dv)
  }

  /** The graph the search explores: every list without the diversion edge. */
  function Diverted(adj: seq<seq<nat>>, du: nat, dv: nat): (r: seq<seq<nat>>)
    ensures |r| == |adj|
    ensures forall u, v :: 0 <= u < |adj| ==> (v in r[u] <==> v in adj[u] && Allowed(u, v, du, dv))
  {
    seq(|adj|, u requires 0 <= u < |adj| => AllowedOf(u, adj[u], du, dv))
  }

  /**
   * What the search returns: edges from t back to s, each one stored in
   * its tail's list and not the diversion edge, each one's tail the next
   * one's head, and no vertex met twice.
   */
  predicate BackPath<E(==)>(ops: Edges.EdgeOps<E>, es: seq<seq<E>>, p: seq<E>, s: nat, t: nat, du: nat, dv: nat)
  {
    && |p| >= 1 && ops.to(p[0]) == t && ops.from(p[|p| - 1]) == s
    && (forall i :: 0 <= i < |p| - 1 ==> ops.from(p[i]) == ops.to(p[i + 1]))
    && (forall i :: 0 <= i < |p| ==>
          ops.from(p[i]) < |es| && p[i] in es[ops.from(p[i])] && Allowed(ops.from(p[i]), ops.to(p[i]), du, dv))
    && (forall i, j :: 0 <= i < j < |p| ==> ops.to(p[i]) != ops.to(p[j]))
    && (forall i :: 0 <= i < |p| ==> ops.to(p[i]) != s)
  }

  /** An allowed edge stored in its tail's list is a step of the diverted graph. */
  lemma StepIn<E>(ops: Edges.EdgeOps<E>, es: seq<seq<E>>, e: E, du: nat, dv: nat)
    requires ops.from(e) < |es| && e in es[ops.from(e)] && Allowed(ops.from(e), ops.to(e), du, dv)
    ensures ops.to(e) in Diverted(Targets(ops, es), du, dv)[ops.from(e)]
  {
    var j :| 0 <= j < |es[ops.from(e)]| && es[ops.from(e)][j] == e;
    assert Targets(ops, es)[ops.from(e)][j] == ops.to(e);
  }

  /** The edges of a path from t back to s, read from index i on, are a walk from s. */
  lemma {:induction false} BackPathWalk<E>(ops: Edges.EdgeOps<E>, es: seq<seq<E>>, p: seq<E>, s: nat, t: nat, du: nat, dv: nat, i: nat)
    requires BackPath(ops, es, p, s, t, du, dv) && i < |p|
    ensures Walk(Diverted(Targets(ops, es), du, dv), s, ops.to(p[i]), |p| - i)
    decreases |p| - i
  {
    var w := Diverted(Targets(ops, es), du, dv);
    var u := ops.from(p[i]);
    StepIn(ops, es, p[i], du, dv);
    if i == |p| - 1 {
      assert Walk(w, s, u, 0);
    } else {
      BackPathWalk(ops, es, p, s, t, du, dv, i + 1);
    }
  }

  /** A path from t back to s avoiding the diversion edge means t is reachable without it. */
  lemma BackPathReaches<E>(ops: Edges.EdgeOps<E>, es: seq<seq<E>>, p: seq<E>, s: nat, t: nat, du: nat, dv: nat)
    requires BackPath(ops, es, p, s, t, du, dv)
    ensures Reachable(Diverted(Targets(ops, es), du, dv), s, t)
  {
    BackPathWalk(ops, es, p, s, t, du, dv, 0);
  }

  /** The predecessor edge of v: it ends at v, leaves an earlier-seen vertex, and is an allowed stored edge. */
  ghost predicate TreeEdge<E>(ops: Edges.EdgeOps<E>, es: seq<seq<E>>, du: nat, dv: nat, seen: seq<bool>, rank: seq<nat>, v: nat, e: E)
    requires |seen| == |rank| == |es| && v < |es|
  {
    && ops.to(e) == v && ops.from(e) < |es| && e in es[ops.from(e)] && Allowed(ops.from(e), v, du, dv)
    && seen[ops.from(e)] && rank[ops.from(e)] < rank[v]
  }

  /**
   * The predecessor tree of the search: s is seen without a predecessor;
   * every other seen vertex has its predecessor edge, from a vertex seen
   * before it (rank is the order of being seen); unseen vertices have none.
   */
  ghost predicate Tree<E>(ops: Edges.EdgeOps<E>, es: seq<seq<E>>, s: nat, du: nat, dv: nat,
                              seen: seq<bool>, prev: seq<Option<E>>, rank: seq<nat>, clock: nat)
  {
    && |seen| == |es| && |prev| == |es| && |rank| == |es| && s < |es| && seen[s] && prev[s] == None
    && (forall v :: 0 <= v < |es| && seen[v] ==> rank[v] < clock)
    && (forall v :: 0 <= v < |es| && !seen[v] ==> prev[v] == None)
    && (forall v :: 0 <= v < |es| && seen[v] && v != s ==>
          prev[v].Some? && TreeEdge(ops, es, du, dv, seen, rank, v, prev[v].value))
  }

  /**
   * The state of the search between two pops: the tree, a queue of seen
   * vertices, and, unless t is seen, every allowed step out of a seen
   * vertex that has left the queue leads to a seen vertex.
   */
  ghost predicate Searching<E>(ops: Edges.EdgeOps<E>, es: seq<seq<E>>, s: nat, t: nat, du: nat, dv: nat,
                                   seen: seq<bool>, prev: seq<Option<E>>, q: seq<nat>, rank: seq<nat>, clock: nat)
  {
    && Tree(ops, es, s, du, dv, seen, prev, rank, clock) && t < |es|
    && (forall x :: x in q ==> x < |es| && seen[x])
    && (seen[t] || forall v, j :: 0 <= v < |es| && seen[v] && v !in q && 0 <= j < |es[v]| ==> Covered(ops, es, du, dv, seen, v, j))
  }

  /** Entry j of v's list is not an allowed step, or leads to a seen vertex. */
  ghost predicate Covered<E>(ops: Edges.EdgeOps<E>, es: seq<seq<E>>, du: nat, dv: nat, seen: seq<bool>, v: nat, j: nat)
    requires |seen| == |es| && v < |es| && j < |es[v]|
  {
    Allowed(v, ops.to(es[v][j]), du, dv) ==> ops.to(es[v][j]) < |es| && seen[ops.to(es[v][j])]
  }

  /** The state of the search while the list of u is scanned up to entry i. */
  ghost predicate Scanning<E>(ops: Edges.EdgeOps<E>, es: seq<seq<E>>, s: nat, t: nat, du: nat, dv: nat,
                                  seen: seq<bool>, prev: seq<Option<E>>, q: seq<nat>, rank: seq<nat>, clock: nat, u: nat, i: nat)
  {
    && Tree(ops, es, s, du, dv, seen, prev, rank, clock) && t < |es|
    && (forall x :: x in q ==> x < |es| && seen[x])
    && u < |es| && seen[u] && i <= |es[u]|
    && (seen[t] ||
          ((forall v, j :: 0 <= v < |es| && v != u && seen[v] && v !in q && 0 <= j < |es[v]| ==> Covered(ops, es, du, dv, seen, v, j))
           && (forall j :: 0 <= j < i ==> Covered(ops, es, du, dv, seen, u, j))))
  }

  /**
   * The private `bfs(graph, s, t, (du, dv))`: None when t cannot be
   * reached from s without the diversion edge, otherwise the predecessor
   * edges from t back to s.  With s = t, t is seen from the start but has
   * no predecessor, and unwrapping it panics: that is the Err.
   */
  method Bfs<E(==,!new)>(g: Graphs.UndirectedGraph<E>, s: nat, t: nat, du: nat, dv: nat) returns (r: Result<Option<seq<E>>, string>)
    requires g.Valid() && s < g.n && t < g.n && Closed(Targets(g.ops, g.adj))
    ensures r.Err? <==> s == t
    ensures r.Err? ==> r.error == UNWRAP_NONE
    ensures r.Ok? ==> (r.value.Some? <==> Reachable(Diverted(Targets(g.ops, g.adj), du, dv), s, t))
    ensures r.Ok? && r.value.Some? ==> BackPath(g.ops, g.adj, r.value.value, s, t, du, dv)
  {
    var seen := Misc.Repeat(g.n, false);
    var prev: seq<Option<E>> := Misc.Repeat(g.n, None);
    var q: seq<nat> := [];
    seen := seen[s := true];
    q := q + [s];
    ghost var rank := Misc.Repeat(g.n, 0);
    ghost var clock := 1;
    assert Searching(g.ops, g.adj, s, t, du, dv, seen, prev, q, rank, clock);
    while q != []
      invariant Searching(g.ops, g.adj, s, t, du, dv, seen, prev, q, rank, clock)
      decreases ShortestPaths.Undone(seen), |q|
    {
      PopScans(g.ops, g.adj, s, t, du, dv, seen, prev, q, rank, clock);
      var u := q[0];
      q := q[1..];
      seen, prev, q, rank, clock := ScanList(g, s, t, du, dv, seen, prev, q, rank, clock, u);
    }
    if seen[t] {
      if t == s {
        return Err(UNWRAP_NONE);
      }
      var p := Backtrack(g, s, t, du, dv, seen, prev, rank, clock);
      BackPathReaches(g.ops, g.adj, p, s, t, du, dv);
      return Ok(Some(p));
    }
    Unreached(g.ops, g.adj, s, t, du, dv, seen, prev, rank, clock);
    return Ok(None);
  }

  /** Popping the head u of the queue starts the scan of u's list. */
  lemma PopScans<E>(ops: Edges.EdgeOps<E>, es: seq<seq<E>>, s: nat, t: nat, du: nat, dv: nat,
                        seen: seq<bool>, prev: seq<Option<E>>, q: seq<nat>, rank: seq<nat>, clock: nat)
    requires q != [] && Searching(ops, es, s, t, du, dv, seen, prev, q, rank, clock)
    ensures Scanning(ops, es, s, t, du, dv, seen, prev, q[1..], rank, clock, q[0], 0)
  {
    assert q[0] in q;
    forall x | x in q[1..]
      ensures x < |es| && seen[x]
    {
      assert x in q;
    }
    if !seen[t] {
      forall v, j | 0 <= v < |es| && v != q[0] && seen[v] && v !in q[1..] && 0 <= j < |es[v]|
        ensures Covered(ops, es, du, dv, seen, v, j)
      {
        assert q == [q[0]] + q[1..];
        assert v !in q;
      }
    }
  }

  /** The `for line in graph.N(u)` loop: scans u's list, stopping once t is seen. */
  method ScanList<E(==,!new)>(g: Graphs.UndirectedGraph<E>, s: nat, t: nat, du: nat, dv: nat, seen0: seq<bool>, prev0: seq<Option<E>>,
                              q0: seq<nat>, ghost rank0: seq<nat>, ghost clock0: nat, u: nat)
      returns (seen: seq<bool>, prev: seq<Option<E>>, q: seq<nat>, ghost rank: seq<nat>, ghost clock: nat)
    requires g.Valid() && Closed(Targets(g.ops, g.adj))
    requires Scanning(g.ops, g.adj, s, t, du, dv, seen0, prev0, q0, rank0, clock0, u, 0)
    ensures Searching(g.ops, g.adj, s, t, du, dv, seen, prev, q, rank, clock)
    ensures ShortestPaths.Undone(seen) + |q| == ShortestPaths.Undone(seen0) + |q0| && |q| >= |q0|
  {
    seen, prev, q, rank, clock := seen0, prev0, q0, rank0, clock0;
    var i := 0;
    while i < |g.adj[u]|
      invariant i <= |g.adj[u]|
      invariant Scanning(g.ops, g.adj, s, t, du, dv, seen, prev, q, rank, clock, u, i)
      invariant ShortestPaths.Undone(seen) + |q| == ShortestPaths.Undone(seen0) + |q0| && |q| >= |q0|
    {
      var stop;
      seen, prev, q, rank, clock, stop := ScanEntry(g, s, t, du, dv, seen, prev, q, rank, clock, u, i);
      i := i + 1;
      if stop {
        break;
      }
    }
    Scanned(g.ops, g.adj, s, t, du, dv, seen, prev, q, rank, clock, u, i);
  }

  /** One entry of u's list: its head, when the step is allowed and the head unseen, is seen, queued and given this edge. */
  method ScanEntry<E(==,!new)>(g: Graphs.UndirectedGraph<E>, s: nat, t: nat, du: nat, dv: nat, seen0: seq<bool>, prev0: seq<Option<E>>,
                               q0: seq<nat>, ghost rank0: seq<nat>, ghost clock0: nat, u: nat, i: nat)
      returns (seen: seq<bool>, prev: seq<Option<E>>, q: seq<nat>, ghost rank: seq<nat>, ghost clock: nat, stop: bool)
    requires g.Valid() && Closed(Targets(g.ops, g.adj))
    requires Scanning(g.ops, g.adj, s, t, du, dv, seen0, prev0, q0, rank0, clock0, u, i) && i < |g.adj[u]|
    ensures Scanning(g.ops, g.adj, s, t, du, dv, seen, prev, q, rank, clock, u, i + 1)
    ensures stop ==> seen[t]
    ensures ShortestPaths.Undone(seen) + |q| == ShortestPaths.Undone(seen0) + |q0| && |q| >= |q0|
  {
    seen, prev, q, rank, clock, stop := seen0, prev0, q0, rank0, clock0, false;
    var e := g.adj[u][i];
    var v := g.ops.to(e);
    assert Targets(g.ops, g.adj)[u][i] == v;
    if (u, v) != (du, dv) && (v, u) != (du, dv) && !seen[v] {
      Discover(g.ops, g.adj, s, t, du, dv, seen, prev, q, rank, clock, u, i);
      ShortestPaths.UndoneUpdate(seen, v);
      seen := seen[v := true];
      q := q + [v];
      prev := prev[v := Some(e)];
      rank := rank[v := clock];
      clock := clock + 1;
      stop := v == t;
    }
  }

  /** Seeing the allowed, unseen head v of entry i of u's list keeps the scan going. */
  lemma Discover<E>(ops: Edges.EdgeOps<E>, es: seq<seq<E>>, s: nat, t: nat, du: nat, dv: nat,
                        seen: seq<bool>, prev: seq<Option<E>>, q: seq<nat>, rank: seq<nat>, clock: nat, u: nat, i: nat)
    requires Graphs.Placed(ops, es) && Closed(Targets(ops, es))
    requires Scanning(ops, es, s, t, du, dv, seen, prev, q, rank, clock, u, i) && i < |es[u]|
    requires Allowed(u, ops.to(es[u][i]), du, dv) && ops.to(es[u][i]) < |es| && !seen[ops.to(es[u][i])]
    ensures var v := ops.to(es[u][i]);
      Scanning(ops, es, s, t, du, dv, seen[v := true], prev[v := Some(es[u][i])], q + [v], rank[v := clock], clock + 1, u, i + 1)
  {
    var e := es[u][i];
    var v := ops.to(e);
    DiscoverTree(ops, es, s, du, dv, seen, prev, rank, clock, u, i);
    var seen', q' := seen[v := true], q + [v];
    forall x | x in q'
      ensures x < |es| && seen'[x]
    {
      if x != v {
        assert x in q;
      }
    }
    if !seen'[t] {
      forall x, j | 0 <= x < |es| && x != u && seen'[x] && x !in q' && 0 <= j < |es[x]|
        ensures Covered(ops, es, du, dv, seen', x, j)
      {
        assert x != v && x !in q;
        assert Covered(ops, es, du, dv, seen, x, j);
      }
      forall j | 0 <= j < i + 1
        ensures Covered(ops, es, du, dv, seen', u, j)
      {
        if j < i {
          assert Covered(ops, es, du, dv, seen, u, j);
        }
      }
    }
  }

  /** The tree part of `Discover`: v takes entry i of u's list as its predecessor, ranked last. */
  lemma DiscoverTree<E>(ops: Edges.EdgeOps<E>, es: seq<seq<E>>, s: nat, du: nat, dv: nat,
                            seen: seq<bool>, prev: seq<Option<E>>, rank: seq<nat>, clock: nat, u: nat, i: nat)
    requires Graphs.Placed(ops, es) && Tree(ops, es, s, du, dv, seen, prev, rank, clock)
    requires u < |es| && seen[u] && i < |es[u]|
    requires Allowed(u, ops.to(es[u][i]), du, dv) && ops.to(es[u][i]) < |es| && !seen[ops.to(es[u][i])]
    ensures var v := ops.to(es[u][i]);
      Tree(ops, es, s, du, dv, seen[v := true], prev[v := Some(es[u][i])], rank[v := clock], clock + 1)
  {
    var e := es[u][i];
    var v := ops.to(e);
    var seen', prev', rank' := seen[v := true], prev[v := Some(e)], rank[v := clock];
    assert ops.from(e) == u;
    forall x | 0 <= x < |es| && seen'[x] && x != s
      ensures prev'[x].Some? && TreeEdge(ops, es, du, dv, seen', rank', x, prev'[x].value)
    {
      if x != v {
        var f := prev[x].value;
        assert TreeEdge(ops, es, du, dv, seen, rank, x, f);
        assert ops.from(f) != v;
      }
    }
  }

  /** A scan that ran to the end of u's list, or saw t, leaves a search state again. */
  lemma Scanned<E>(ops: Edges.EdgeOps<E>, es: seq<seq<E>>, s: nat, t: nat, du: nat, dv: nat,
                       seen: seq<bool>, prev: seq<Option<E>>, q: seq<nat>, rank: seq<nat>, clock: nat, u: nat, i: nat)
    requires Scanning(ops, es, s, t, du, dv, seen, prev, q, rank, clock, u, i)
    requires i == |es[u]| || seen[t]
    ensures Searching(ops, es, s, t, du, dv, seen, prev, q, rank, clock)
  {
    if !seen[t] {
      forall v, j | 0 <= v < |es| && seen[v] && v !in q && 0 <= j < |es[v]|
        ensures Covered(ops, es, du, dv, seen, v, j)
      {
      }
    }
  }

  /** The last step of a walk of k > 0 steps. */
  lemma WalkBack(w: seq<seq<nat>>, s: nat, v: nat, k: nat) returns (u: nat)
    requires k > 0 && Walk(w, s, v, k)
    ensures u < |w| && v in w[u] && Walk(w, s, u, k - 1)
  {
    u :| 0 <= u < |w| && v in w[u] && Walk(w, s, u, k - 1);
  }

  /** A step of the diverted graph is an allowed entry of the list. */
  lemma StepOf<E>(ops: Edges.EdgeOps<E>, es: seq<seq<E>>, du: nat, dv: nat, u: nat, v: nat) returns (j: nat)
    requires u < |es| && v in Diverted(Targets(ops, es), du, dv)[u]
    ensures j < |es[u]| && ops.to(es[u][j]) == v && Allowed(u, v, du, dv)
  {
    var ts := Targets(ops, es)[u];
    assert v in ts;
    j :| 0 <= j < |ts| && ts[j] == v;
  }

  /** No step leaves the seen vertices. */
  ghost predicate Confined(w: seq<seq<nat>>, seen: seq<bool>)
  {
    |seen| == |w| && forall u, x :: Stays(w, seen, u, x)
  }

  /** A step from a seen u to x ends at a seen vertex. */
  ghost predicate Stays(w: seq<seq<nat>>, seen: seq<bool>, u: int, x: int)
  {
    0 <= u < |w| && u < |seen| && seen[u] && x in w[u] ==> 0 <= x < |w| && x < |seen| && seen[x]
  }

  /** When no step leaves the seen vertices, every vertex a walk from a seen s reaches is seen. */
  lemma {:induction false} WalkSeen(w: seq<seq<nat>>, s: nat, seen: seq<bool>, v: nat, k: nat)
    requires Confined(w, seen) && s < |w| && seen[s]
    requires v < |w| && Walk(w, s, v, k)
    ensures seen[v]
    decreases k
  {
    if k > 0 {
      var u := WalkBack(w, s, v, k);
      WalkSeen(w, s, seen, u, k - 1);
      assert Stays(w, seen, u, v);
    }
  }

  /** No allowed step leaves the seen vertices. */
  ghost predicate Shut<E>(ops: Edges.EdgeOps<E>, es: seq<seq<E>>, du: nat, dv: nat, seen: seq<bool>)
  {
    |seen| == |es| && forall v, j :: 0 <= v < |es| && seen[v] && 0 <= j < |es[v]| ==> Covered(ops, es, du, dv, seen, v, j)
  }

  /** No step of the diverted graph leaves a shut set of seen vertices. */
  lemma ShutDiverted<E>(ops: Edges.EdgeOps<E>, es: seq<seq<E>>, du: nat, dv: nat, seen: seq<bool>)
    requires Shut(ops, es, du, dv, seen)
    ensures Confined(Diverted(Targets(ops, es), du, dv), seen)
  {
    var w := Diverted(Targets(ops, es), du, dv);
    forall u, x
      ensures Stays(w, seen, u, x)
    {
      if 0 <= u < |w| && seen[u] && x in w[u] {
        ShutStep(ops, es, du, dv, seen, u, x);
      }
    }
  }

  lemma ShutStep<E>(ops: Edges.EdgeOps<E>, es: seq<seq<E>>, du: nat, dv: nat, seen: seq<bool>, u: nat, x: nat)
    requires Shut(ops, es, du, dv, seen) && u < |es| && seen[u] && x in Diverted(Targets(ops, es), du, dv)[u]
    ensures x < |es| && seen[x]
  {
    var j := StepOf(ops, es, du, dv, u, x);
    assert Covered(ops, es, du, dv, seen, u, j);
  }

  /** Once the queue is empty, an unseen t is unreachable without the diversion edge. */
  lemma Unreached<E>(ops: Edges.EdgeOps<E>, es: seq<seq<E>>, s: nat, t: nat, du: nat, dv: nat,
                     seen: seq<bool>, prev: seq<Option<E>>, rank: seq<nat>, clock: nat)
    requires Searching(ops, es, s, t, du, dv, seen, prev, [], rank, clock) && !seen[t]
    ensures !Reachable(Diverted(Targets(ops, es), du, dv), s, t)
  {
    forall v, j | 0 <= v < |es| && seen[v] && 0 <= j < |es[v]|
      ensures Covered(ops, es, du, dv, seen, v, j)
    {
      assert v !in [];
    }
    ShutDiverted(ops, es, du, dv, seen);
    var w := Diverted(Targets(ops, es), du, dv);
    if Reachable(w, s, t) {
      var k: nat :| Walk(w, s, t, k);
      WalkSeen(w, s, seen, t, k);
    }
  }

  /**
   * The edges taken so far by the backtracking loop: the first ends at t,
   * each is the predecessor edge of its head, each one's tail is the next
   * one's head, and the heads were seen in strictly decreasing order.
   */
  ghost predicate Backing<E>(ops: Edges.EdgeOps<E>, es: seq<seq<E>>, t: nat, seen: seq<bool>, prev: seq<Option<E>>,
                                 rank: seq<nat>, ret: seq<E>)
    requires |seen| == |prev| == |rank| == |es|
  {
    && |ret| >= 1 && ops.to(ret[0]) == t
    && (forall i :: 0 <= i < |ret| ==> ops.to(ret[i]) < |es| && seen[ops.to(ret[i])] && prev[ops.to(ret[i])] == Some(ret[i]))
    && (forall i :: 0 <= i < |ret| - 1 ==> ops.from(ret[i]) == ops.to(ret[i + 1]))
    && (forall i, j :: 0 <= i < j < |ret| ==> rank[ops.to(ret[j])] < rank[ops.to(ret[i])])
  }

  /**
   * The backtracking loop of bfs: from the predecessor edge of t, follow
   * predecessor edges until one leaves s.  It stops because every
   * predecessor leaves a vertex seen earlier.
   */
  method Backtrack<E(==,!new)>(g: Graphs.UndirectedGraph<E>, s: nat, t: nat, du: nat, dv: nat,
                               seen: seq<bool>, prev: seq<Option<E>>, ghost rank: seq<nat>, ghost clock: nat) returns (ret: seq<E>)
    requires Tree(g.ops, g.adj, s, du, dv, seen, prev, rank, clock)
    requires t < |g.adj| && seen[t] && t != s
    ensures BackPath(g.ops, g.adj, ret, s, t, du, dv)
  {
    ret := [prev[t].value];
    var curr := ret[0];
    while g.ops.from(curr) != s
      invariant Backing(g.ops, g.adj, t, seen, prev, rank, ret) && curr == ret[|ret| - 1]
      decreases rank[g.ops.from(curr)]
    {
      BackStep(g.ops, g.adj, s, t, du, dv, seen, prev, rank, clock, ret);
      curr := prev[g.ops.from(curr)].value;
      ret := ret + [curr];
    }
    BackDone(g.ops, g.adj, s, t, du, dv, seen, prev, rank, clock, ret);
  }

  /** One more predecessor edge: the state of the loop keeps, and the rank of the tail drops. */
  lemma BackStep<E>(ops: Edges.EdgeOps<E>, es: seq<seq<E>>, s: nat, t: nat, du: nat, dv: nat,
                        seen: seq<bool>, prev: seq<Option<E>>, rank: seq<nat>, clock: nat, ret: seq<E>)
    requires Tree(ops, es, s, du, dv, seen, prev, rank, clock) && Backing(ops, es, t, seen, prev, rank, ret)
    requires ops.from(ret[|ret| - 1]) != s
    ensures var x := ops.from(ret[|ret| - 1]);
      && x < |es| && prev[x].Some?
      && ops.from(prev[x].value) < |es| && rank[ops.from(prev[x].value)] < rank[x]
      && Backing(ops, es, t, seen, prev, rank, ret + [prev[x].value])
  {
    var last := ret[|ret| - 1];
    var x := ops.from(last);
    assert TreeEdge(ops, es, du, dv, seen, rank, ops.to(last), last);
    var c := prev[x].value;
    assert TreeEdge(ops, es, du, dv, seen, rank, x, c);
    var ret' := ret + [c];
    forall i, j | 0 <= i < j < |ret'|
      ensures rank[ops.to(ret'[j])] < rank[ops.to(ret'[i])]
    {
      if j < |ret| {
        assert ret'[i] == ret[i] && ret'[j] == ret[j];
      } else if i < |ret| - 1 {
        assert ret'[i] == ret[i];
        assert rank[ops.to(last)] < rank[ops.to(ret[i])];
      }
    }
    forall i | 0 <= i < |ret'| - 1
      ensures ops.from(ret'[i]) == ops.to(ret'[i + 1])
    {
      if i < |ret| - 1 {
        assert ret'[i] == ret[i] && ret'[i + 1] == ret[i + 1];
      }
    }
  }

  /** When the last edge leaves s, the edges taken are a path from t back to s. */
  lemma BackDone<E>(ops: Edges.EdgeOps<E>, es: seq<seq<E>>, s: nat, t: nat, du: nat, dv: nat,
                        seen: seq<bool>, prev: seq<Option<E>>, rank: seq<nat>, clock: nat, ret: seq<E>)
    requires Tree(ops, es, s, du, dv, seen, prev, rank, clock) && Backing(ops, es, t, seen, prev, rank, ret)
    requires ops.from(ret[|ret| - 1]) == s
    ensures BackPath(ops, es, ret, s, t, du, dv)
  {
    forall i | 0 <= i < |ret|
      ensures ops.from(ret[i]) < |es| && ret[i] in es[ops.from(ret[i])] && Allowed(ops.from(ret[i]), ops.to(ret[i]), du, dv)
      ensures ops.to(ret[i]) != s
    {
      assert TreeEdge(ops, es, du, dv, seen, rank, ops.to(ret[i]), ret[i]);
    }
  }

  type PEdge = MergingPlanarGraphs.PEdge

  /** The edges of a path turned into dual edges, one by one. */
  function RotateAll(p: seq<PEdge>): (r: seq<PEdge>)
    ensures |r| == |p| && forall i :: 0 <= i < |p| ==> r[i] == APE.RotateRight(p[i])
  {
    seq(|p|, i requires 0 <= i < |p| => APE.RotateRight(p[i]))
  }

  /** How `network_diversion` starts: no diversion at all, or the dual of the s-t path it goes on to cut along. */
  datatype Start = NoDiversion(cost: nat, edges: seq<PEdge>) | DualPath(path: seq<PEdge>)

  /**
   * `network_diversion` up to the call of the odd-path solver: when no
   * s-t path avoids the diversion edge the answer is (0, []); otherwise
   * the path bfs found, with every edge rotated into the dual.  With s = t
   * the search panics.
   */
  method NetworkDiversion(planar: MergingPlanarGraphs.PlanarGraph, s: nat, t: nat, du: nat, dv: nat) returns (r: Result<Start, string>)
    requires planar.primal.Valid() && s < planar.primal.n && t < planar.primal.n
    requires Closed(Targets(planar.primal.ops, planar.primal.adj))
    ensures r.Err? <==> s == t
    ensures r.Err? ==> r.error == UNWRAP_NONE
    ensures r.Ok? ==> (r.value.NoDiversion? <==> !Reachable(Diverted(Targets(planar.primal.ops, planar.primal.adj), du, dv), s, t))
    ensures r.Ok? && r.value.NoDiversion? ==> r.value.cost == 0 && r.value.edges == []
    ensures r.Ok? && r.value.DualPath? ==>
      exists p :: BackPath(planar.primal.ops, planar.primal.adj, p, s, t, du, dv) && r.value.path == RotateAll(p)
  {
    var p := Bfs(planar.primal, s, t, du, dv);
    if p.Err? {
      return Err(p.error);
    }
    if p.value.Some? {
      return Ok(DualPath(RotateAll(p.value.value)));
    }
    return Ok(NoDiversion(0, []));
  }
}
