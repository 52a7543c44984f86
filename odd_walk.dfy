/**
 * `BasicOddWalk` (src/algorithm/odd_walk.rs): the shortest walk with an odd
 * number of edges, found by a breadth-first search that keeps one distance
 * for walks of even length and one for walks of odd length to every
 * vertex.  Proved against `Walks`: the answer is Impossible exactly when
 * no odd walk reaches the end, and otherwise the length of a shortest one.
 */
module OddWalks {
  import opened Costs
  import SimpleGraphs
  import Misc
  import opened Walks
  import opened PathResults

  /** The distance recorded for walks to v whose length has parity p (0 even, 1 odd). */
  function Par(even: seq<Cost>, odd: seq<Cost>, v: nat, p: nat): Cost
    requires v < |even| == |odd| && p < 2
  {
    if p == 0 then even[v] else odd[v]
  }

  /** The two distance arrays with v's distance at parity p set to c. */
  function SetPar(even: seq<Cost>, odd: seq<Cost>, v: nat, p: nat, c: Cost): (r: (seq<Cost>, seq<Cost>))
    requires v < |even| == |odd| && p < 2
    ensures |r.0| == |even| && |r.1| == |odd|
    ensures forall w, p' :: 0 <= w < |even| && 0 <= p' < 2 ==>
      Par(r.0, r.1, w, p') == if (w, p') == (v, p) then c else Par(even, odd, w, p')
  {
    if p == 0 then (even[v := c], odd) else (even, odd[v := c])
  }

  /** The (vertex, parity) states waiting in the queue. */
  function Queued(q: seq<(nat, nat)>): set<(nat, nat)>
  {
    set i | 0 <= i < |q| :: (q[i].0, q[i].1 % 2)
  }

  /**
   * What every state of the search keeps: each recorded distance has its
   * parity and is the length of a walk; each queue entry (v, d) carries the
   * distance of v at d's parity; distances in the queue run from level to
   * level + 1 in order; and no state waits twice.
   */
  ghost predicate Sound(adj: seq<seq<nat>>, s: nat, even: seq<Cost>, odd: seq<Cost>, q: seq<(nat, nat)>, level: nat)
  {
    && |even| == |adj| && |odd| == |adj| && s < |adj| && even[s] == Finite(0) && Closed(adj)
    && (forall v, p :: 0 <= v < |adj| && 0 <= p < 2 && Par(even, odd, v, p).Finite? ==>
          Par(even, odd, v, p).n % 2 == p && Walk(adj, s, v, Par(even, odd, v, p).n))
    && (forall i :: 0 <= i < |q| ==>
          q[i].0 < |adj| && Par(even, odd, q[i].0, q[i].1 % 2) == Finite(q[i].1) && level <= q[i].1 <= level + 1)
    && (forall i, j :: 0 <= i < j < |q| ==>
          q[i].1 <= q[j].1 && (q[i].0 != q[j].0 || q[i].1 % 2 != q[j].1 % 2))
  }

  /** Every step out of v reaches a state of the other parity, found at most one further. */
  ghost predicate Expanded(adj: seq<seq<nat>>, even: seq<Cost>, odd: seq<Cost>, v: nat, p: nat, upto: nat)
    requires v < |adj| == |even| == |odd| && p < 2 && upto <= |adj[v]|
  {
    Par(even, odd, v, p).Finite? &&
    forall j :: 0 <= j < upto ==>
      adj[v][j] < |adj| && Par(even, odd, adj[v][j], 1 - p).Finite?
      && Par(even, odd, adj[v][j], 1 - p).n <= Par(even, odd, v, p).n + 1
  }

  /** A state found and no longer queued. */
  predicate Settled(even: seq<Cost>, odd: seq<Cost>, q: seq<(nat, nat)>, v: nat, p: nat)
    requires v < |even| == |odd| && p < 2
  {
    Par(even, odd, v, p).Finite? && (v, p) !in Queued(q)
  }

  /** The state of the search between two pops. */
  ghost predicate Searching(adj: seq<seq<nat>>, s: nat, even: seq<Cost>, odd: seq<Cost>, q: seq<(nat, nat)>, level: nat)
  {
    && Sound(adj, s, even, odd, q, level)
    && (forall v, p :: 0 <= v < |adj| && 0 <= p < 2 && Settled(even, odd, q, v, p) ==>
          Par(even, odd, v, p).n <= level && Expanded(adj, even, odd, v, p, |adj[v]|))
  }

  /** The state of the search while the list of u, popped at distance d, is scanned up to entry i. */
  ghost predicate Scanning(adj: seq<seq<nat>>, s: nat, even: seq<Cost>, odd: seq<Cost>, q: seq<(nat, nat)>, u: nat, d: nat, i: nat)
  {
    && Sound(adj, s, even, odd, q, d)
    && u < |adj| && i <= |adj[u]| && Par(even, odd, u, d % 2) == Finite(d) && (u, d % 2) !in Queued(q)
    && Expanded(adj, even, odd, u, d % 2, i)
    && (forall v, p :: 0 <= v < |adj| && 0 <= p < 2 && (v, p) != (u, d % 2) && Settled(even, odd, q, v, p) ==>
          Par(even, odd, v, p).n <= d && Expanded(adj, even, odd, v, p, |adj[v]|))
  }

  /**
   * Between pops, a walk of k steps to v with k at most the level (or any
   * k once the queue is empty) means v was found at k's parity no further
   * than k.
   */
  lemma {:induction false} Found(adj: seq<seq<nat>>, s: nat, even: seq<Cost>, odd: seq<Cost>, q: seq<(nat, nat)>, level: nat, v: nat, k: nat)
    requires Searching(adj, s, even, odd, q, level)
    requires v < |adj| && Walk(adj, s, v, k) && (q == [] || k <= level)
    ensures Par(even, odd, v, k % 2).Finite? && Par(even, odd, v, k % 2).n <= k
    decreases k
  {
    if k > 0 {
      var u :| 0 <= u < |adj| && v in adj[u] && Walk(adj, s, u, k - 1);
      Found(adj, s, even, odd, q, level, u, k - 1);
      assert Settled(even, odd, q, u, (k - 1) % 2);
      var j :| 0 <= j < |adj[u]| && adj[u][j] == v;
    }
  }

  /**
   * Between pops, a distance found at parity p is the length of a
   * shortest walk of that parity, because no state is further than
   * level + 1.
   */
  lemma ShortestAtParity(adj: seq<seq<nat>>, s: nat, even: seq<Cost>, odd: seq<Cost>, q: seq<(nat, nat)>, level: nat, v: nat, p: nat)
    requires Searching(adj, s, even, odd, q, level)
    requires v < |adj| && p < 2 && Par(even, odd, v, p).Finite?
    ensures forall k: nat :: k < Par(even, odd, v, p).n && k % 2 == p ==> !Walk(adj, s, v, k)
  {
    if (v, p) in Queued(q) {
      var i :| 0 <= i < |q| && (q[i].0, q[i].1 % 2) == (v, p);
    }
    forall k: nat | k < Par(even, odd, v, p).n && k % 2 == p && Walk(adj, s, v, k)
      ensures false
    {
      Found(adj, s, even, odd, q, level, v, k);
    }
  }

  /** Once the queue is empty, a state never found has no walk at all. */
  lemma Unreached(adj: seq<seq<nat>>, s: nat, even: seq<Cost>, odd: seq<Cost>, level: nat, v: nat, p: nat)
    requires Searching(adj, s, even, odd, [], level)
    requires v < |adj| && p < 2 && Par(even, odd, v, p).Infinite?
    ensures forall k: nat :: k % 2 == p ==> !Walk(adj, s, v, k)
  {
    forall k: nat | k % 2 == p && Walk(adj, s, v, k)
      ensures false
    {
      Found(adj, s, even, odd, [], level, v, k);
    }
  }

  /** Queueing x adds its state to the queued ones. */
  lemma QueuedSnoc(q: seq<(nat, nat)>, x: (nat, nat))
    ensures Queued(q + [x]) == Queued(q) + {(x.0, x.1 % 2)}
  {
    var q' := q + [x];
    forall y | y in Queued(q')
      ensures y in Queued(q) + {(x.0, x.1 % 2)}
    {
      var k :| 0 <= k < |q'| && (q'[k].0, q'[k].1 % 2) == y;
      if k < |q| {
        assert q[k] == q'[k];
      }
    }
    forall y | y in Queued(q) + {(x.0, x.1 % 2)}
      ensures y in Queued(q')
    {
      if y in Queued(q) {
        var k :| 0 <= k < |q| && (q[k].0, q[k].1 % 2) == y;
        assert q'[k] == q[k];
      } else {
        assert q'[|q|] == x;
      }
    }
  }

  /** The search starts with s found at distance 0 and queued. */
  lemma Start(adj: seq<seq<nat>>, s: nat, even: seq<Cost>, odd: seq<Cost>)
    requires Closed(adj) && s < |adj|
    requires even == Misc.Repeat(|adj|, Infinite)[s := Finite(0)] && odd == Misc.Repeat(|adj|, Infinite)
    ensures Searching(adj, s, even, odd, [(s, 0)], 0)
  {
    assert [(s, 0)][0] == (s, 0);
  }

  /** Popping the head (u, d) of the queue starts the scan of u's list at level d. */
  lemma PopSettles(adj: seq<seq<nat>>, s: nat, even: seq<Cost>, odd: seq<Cost>, q: seq<(nat, nat)>, level0: nat)
    requires q != [] && Searching(adj, s, even, odd, q, level0)
    ensures Scanning(adj, s, even, odd, q[1..], q[0].0, q[0].1, 0)
  {
  }

  /**
   * Entry i of u's list, v, when the walk through u is the first of its
   * parity to reach v: recording d + 1 for v at that parity and queueing
   * it keeps the scan going.
   */
  lemma Discover(adj: seq<seq<nat>>, s: nat, even: seq<Cost>, odd: seq<Cost>, q: seq<(nat, nat)>, u: nat, d: nat, i: nat,
                 even': seq<Cost>, odd': seq<Cost>)
    requires Scanning(adj, s, even, odd, q, u, d, i) && i < |adj[u]|
    requires Par(even, odd, adj[u][i], 1 - d % 2).Infinite?
    requires |even'| == |even| && |odd'| == |odd|
    requires forall w, p :: 0 <= w < |adj| && 0 <= p < 2 ==>
      Par(even', odd', w, p) == if (w, p) == (adj[u][i], 1 - d % 2) then Finite(d + 1) else Par(even, odd, w, p)
    ensures Scanning(adj, s, even', odd', q + [(adj[u][i], d + 1)], u, d, i + 1)
  {
    DiscoverSound(adj, s, even, odd, q, u, d, i, even', odd');
    DiscoverScanned(adj, s, even, odd, q, u, d, i, even', odd');
    DiscoverSettled(adj, s, even, odd, q, u, d, i, even', odd');
  }

  /** `Discover` for u itself: still found at d, not queued, and expanded one entry further. */
  lemma DiscoverScanned(adj: seq<seq<nat>>, s: nat, even: seq<Cost>, odd: seq<Cost>, q: seq<(nat, nat)>, u: nat, d: nat, i: nat,
                        even': seq<Cost>, odd': seq<Cost>)
    requires Scanning(adj, s, even, odd, q, u, d, i) && i < |adj[u]|
    requires Par(even, odd, adj[u][i], 1 - d % 2).Infinite?
    requires |even'| == |even| && |odd'| == |odd|
    requires forall w, p :: 0 <= w < |adj| && 0 <= p < 2 ==>
      Par(even', odd', w, p) == if (w, p) == (adj[u][i], 1 - d % 2) then Finite(d + 1) else Par(even, odd, w, p)
    ensures Par(even', odd', u, d % 2) == Finite(d) && (u, d % 2) !in Queued(q + [(adj[u][i], d + 1)])
    ensures Expanded(adj, even', odd', u, d % 2, i + 1)
  {
    var v := adj[u][i];
    assert (d + 1) % 2 == 1 - d % 2;
    QueuedSnoc(q, (v, d + 1));
    assert Par(even', odd', u, d % 2) == Par(even, odd, u, d % 2);
    forall j | 0 <= j < i + 1
      ensures adj[u][j] < |adj| && Par(even', odd', adj[u][j], 1 - d % 2).Finite?
        && Par(even', odd', adj[u][j], 1 - d % 2).n <= Par(even', odd', u, d % 2).n + 1
    {
      if j < i {
        assert Par(even, odd, adj[u][j], 1 - d % 2).Finite?;
      }
    }
  }

  /** `Discover` for every other settled state: nothing about it changes. */
  lemma DiscoverSettled(adj: seq<seq<nat>>, s: nat, even: seq<Cost>, odd: seq<Cost>, q: seq<(nat, nat)>, u: nat, d: nat, i: nat,
                        even': seq<Cost>, odd': seq<Cost>)
    requires Scanning(adj, s, even, odd, q, u, d, i) && i < |adj[u]|
    requires Par(even, odd, adj[u][i], 1 - d % 2).Infinite?
    requires |even'| == |even| && |odd'| == |odd|
    requires forall w, p :: 0 <= w < |adj| && 0 <= p < 2 ==>
      Par(even', odd', w, p) == if (w, p) == (adj[u][i], 1 - d % 2) then Finite(d + 1) else Par(even, odd, w, p)
    ensures forall v, p :: 0 <= v < |adj| && 0 <= p < 2 && (v, p) != (u, d % 2) && Settled(even', odd', q + [(adj[u][i], d + 1)], v, p) ==>
          Par(even', odd', v, p).n <= d && Expanded(adj, even', odd', v, p, |adj[v]|)
  {
    var x := adj[u][i];
    var q' := q + [(x, d + 1)];
    assert (d + 1) % 2 == 1 - d % 2;
    QueuedSnoc(q, (x, d + 1));
    forall v, p | 0 <= v < |adj| && 0 <= p < 2 && (v, p) != (u, d % 2) && Settled(even', odd', q', v, p)
      ensures Par(even', odd', v, p).n <= d && Expanded(adj, even', odd', v, p, |adj[v]|)
    {
      assert (v, p) != (x, 1 - d % 2);
      assert Settled(even, odd, q, v, p);
      forall j | 0 <= j < |adj[v]|
        ensures adj[v][j] < |adj| && Par(even', odd', adj[v][j], 1 - p).Finite?
          && Par(even', odd', adj[v][j], 1 - p).n <= Par(even', odd', v, p).n + 1
      {
        assert Par(even, odd, adj[v][j], 1 - p).Finite?;
      }
    }
  }

  /** The soundness half of `Discover`. */
  lemma DiscoverSound(adj: seq<seq<nat>>, s: nat, even: seq<Cost>, odd: seq<Cost>, q: seq<(nat, nat)>, u: nat, d: nat, i: nat,
                      even': seq<Cost>, odd': seq<Cost>)
    requires Scanning(adj, s, even, odd, q, u, d, i) && i < |adj[u]|
    requires Par(even, odd, adj[u][i], 1 - d % 2).Infinite?
    requires |even'| == |even| && |odd'| == |odd|
    requires forall w, p :: 0 <= w < |adj| && 0 <= p < 2 ==>
      Par(even', odd', w, p) == if (w, p) == (adj[u][i], 1 - d % 2) then Finite(d + 1) else Par(even, odd, w, p)
    ensures Sound(adj, s, even', odd', q + [(adj[u][i], d + 1)], d)
  {
    var v := adj[u][i];
    var q' := q + [(v, d + 1)];
    assert (d + 1) % 2 == 1 - d % 2;
    WalkStep(adj, s, u, i, d);
    assert even'[s] == Par(even', odd', s, 0);
    forall k | 0 <= k < |q'|
      ensures Par(even', odd', q'[k].0, q'[k].1 % 2) == Finite(q'[k].1)
    {
      if k < |q| {
        assert q'[k] == q[k];
      }
    }
  }

  /** Entry i of u's list when its head is already found at d + 1's parity: the state keeps. */
  lemma Known(adj: seq<seq<nat>>, s: nat, even: seq<Cost>, odd: seq<Cost>, q: seq<(nat, nat)>, u: nat, d: nat, i: nat)
    requires Scanning(adj, s, even, odd, q, u, d, i) && i < |adj[u]|
    requires Par(even, odd, adj[u][i], 1 - d % 2).Finite?
    ensures Par(even, odd, adj[u][i], 1 - d % 2).n <= d + 1
    ensures Scanning(adj, s, even, odd, q, u, d, i + 1)
  {
    var v := adj[u][i];
    if (v, 1 - d % 2) in Queued(q) {
      var k :| 0 <= k < |q| && (q[k].0, q[k].1 % 2) == (v, 1 - d % 2);
    }
  }

  class BasicOddWalk {
    const end: nat
    /** The adjacency lists of the graph the search owns. */
    const graph: seq<seq<nat>>
    var oddDist: seq<Cost>
    var evenDist: seq<Cost>
    /** The `VecDeque` of (vertex, distance) pairs, front first. */
    var queue: seq<(nat, nat)>
    /** The start vertex, which the source does not keep. */
    ghost const start: nat
    /** The distance of the last pair popped. */
    ghost var level: nat

    ghost predicate Valid()
      reads this
    {
      Searching(graph, start, evenDist, oddDist, queue, level)
    }

    /** `init(graph, start, end)`: only start is found, at even distance 0, and queued. */
    constructor Init(graph: SimpleGraphs.UndirectedGraph, start: nat, end: nat)
      requires graph.Valid() && start < graph.n && Closed(graph.adj)
      ensures Valid() && this.graph == graph.adj && this.start == start && this.end == end
      ensures evenDist == Misc.Repeat(graph.n, Infinite)[start := Finite(0)]
      ensures oddDist == Misc.Repeat(graph.n, Infinite) && queue == [(start, 0)]
    {
      var even := Misc.Repeat(graph.n, Infinite);
      var n := graph.n;
      even := even[start := Finite(0)];
      this.end := end;
      this.graph := graph.adj;
      oddDist := Misc.Repeat(n, Infinite);
      evenDist := even;
      queue := [(start, 0)];
      this.start := start;
      level := 0;
      new;
      Start(this.graph, start, evenDist, oddDist);
    }

    /**
     * `solve()`: Impossible exactly when no walk of odd length leads from
     * the start to the end; otherwise the length of a shortest such walk,
     * with an empty path.
     */
    method Solve() returns (r: PathResult)
      requires Valid() && end < |graph|
      modifies this
      ensures Valid()
      ensures r.Impossible? <==> forall k: nat :: k % 2 == 1 ==> !Walk(graph, start, end, k)
      ensures r.Possible? ==> r.path == [] && r.cost % 2 == 1 && Walk(graph, start, end, r.cost)
      ensures r.Possible? ==> forall k: nat :: k < r.cost && k % 2 == 1 ==> !Walk(graph, start, end, k)
      ensures r.Impossible? <==> oddDist[end].Infinite?
      ensures r.Possible? ==> r.cost == oddDist[end].n
    {
      while queue != []
        invariant Valid()
        decreases Unfound(evenDist) + Unfound(oddDist), |queue|
      {
        PopSettles(graph, start, evenDist, oddDist, queue, level);
        var (u, distu) := queue[0];
        queue := queue[1..];
        level := distu;
        ScanList(u, distu);
        if IsFinite(oddDist[end]) {
          break;
        }
      }
      match oddDist[end]
      case Infinite =>
        Unreached(graph, start, evenDist, oddDist, level, end, 1);
        r := Impossible;
      case Finite(cost) =>
        ShortestAtParity(graph, start, evenDist, oddDist, queue, level, end, 1);
        assert Walk(graph, start, end, cost);
        r := Possible(cost, []);
    }

    /** The `for &v in self.graph.neighbourhood(&u)` loop. */
    method ScanList(u: nat, distu: nat)
      requires Scanning(graph, start, evenDist, oddDist, queue, u, distu, 0) && level == distu
      modifies this
      ensures Valid() && level == distu
      ensures Unfound(evenDist) + Unfound(oddDist) + |queue| == old(Unfound(evenDist) + Unfound(oddDist) + |queue|)
      ensures |queue| >= old(|queue|)
    {
      ghost var total := Unfound(evenDist) + Unfound(oddDist) + |queue|;
      ghost var q0 := |queue|;
      var neighbours := graph[u];
      for i := 0 to |neighbours|
        invariant Scanning(graph, start, evenDist, oddDist, queue, u, distu, i) && level == distu
        invariant Unfound(evenDist) + Unfound(oddDist) + |queue| == total && |queue| >= q0
      {
        Relax(u, distu, i);
      }
    }

    /** One neighbour v of u: the distance array of distu + 1's parity takes distu + 1 if that improves it. */
    method Relax(u: nat, distu: nat, i: nat)
      requires Scanning(graph, start, evenDist, oddDist, queue, u, distu, i) && i < |graph[u]|
      modifies this
      ensures Scanning(graph, start, evenDist, oddDist, queue, u, distu, i + 1) && level == old(level)
      ensures Unfound(evenDist) + Unfound(oddDist) + |queue| == old(Unfound(evenDist) + Unfound(oddDist) + |queue|)
      ensures |queue| >= old(|queue|)
    {
      var v := graph[u][i];
      var distv := distu + 1;
      assert distv % 2 == 1 - distu % 2;
      ghost var found := Par(evenDist, oddDist, v, distv % 2);
      assert found == if distv % 2 == 0 then evenDist[v] else oddDist[v];
      if found.Finite? {
        Known(graph, start, evenDist, oddDist, queue, u, distu, i);
      }
      if distv % 2 == 0 && (IsInfinite(evenDist[v]) || Unwrap(evenDist[v]) > distv) {
        Record(u, distu, i);
      }
      if distv % 2 == 1 && (IsInfinite(oddDist[v]) || Unwrap(oddDist[v]) > distv) {
        Record(u, distu, i);
      }
    }

    /** The first walk of its parity to entry i of u's list: its head gets distu + 1 at that parity, and is queued. */
    method Record(u: nat, distu: nat, i: nat)
      requires Scanning(graph, start, evenDist, oddDist, queue, u, distu, i) && i < |graph[u]|
      requires Par(evenDist, oddDist, graph[u][i], 1 - distu % 2).Infinite?
      modifies this
      ensures Scanning(graph, start, evenDist, oddDist, queue, u, distu, i + 1) && level == old(level)
      ensures Unfound(evenDist) + Unfound(oddDist) + |queue| == old(Unfound(evenDist) + Unfound(oddDist) + |queue|)
      ensures |queue| >= old(|queue|)
    {
      var v := graph[u][i];
      var distv := distu + 1;
      var even, odd := evenDist, oddDist;
      if distu % 2 == 1 {
        UnfoundUpdate(evenDist, v, Finite(distv));
        even := evenDist[v := Finite(distv)];
      } else {
        UnfoundUpdate(oddDist, v, Finite(distv));
        odd := oddDist[v := Finite(distv)];
      }
      assert (even, odd) == SetPar(evenDist, oddDist, v, 1 - distu % 2, Finite(distv));
      Discover(graph, start, evenDist, oddDist, queue, u, distu, i, even, odd);
      evenDist, oddDist, queue := even, odd, queue + [(v, distv)];
    }
  }

  /**
   * `shortest_odd_walk(graph, s, t)`: Impossible exactly when no walk of
   * odd length leads from s to t, otherwise the length of a shortest one.
   */
  method ShortestOddWalk(graph: SimpleGraphs.UndirectedGraph, s: nat, t: nat) returns (r: PathResult)
    requires graph.Valid() && s < graph.n && t < graph.n && Closed(graph.adj)
    ensures r.Impossible? <==> forall k: nat :: k % 2 == 1 ==> !Walk(graph.adj, s, t, k)
    ensures r.Possible? ==> r.path == [] && r.cost % 2 == 1 && Walk(graph.adj, s, t, r.cost)
    ensures r.Possible? ==> forall k: nat :: k < r.cost && k % 2 == 1 ==> !Walk(graph.adj, s, t, k)
  {
    var search := new BasicOddWalk.Init(graph, s, t);
    r := search.Solve();
  }
}
